/** Operations of the lock protocol carried to their end, and what they leave. */
module LockCompletion {
  import opened Common
  import opened LockProtocol
  import opened LockInvariant
  import opened LockLiveness

  // ---- No leaked temporary files ----

  /** A store in progress that will rename or remove it has this temporary file. */
  predicate Writes(p: Pc, d: Digest, tag: nat) {
    p.Writing? && p.d == d && p.tag == tag
  }

  ghost predicate TempAttended(s: State, d: Digest, tag: nat) {
    TempFile(d, tag) in s.dir ==> exists a :: Writes(PcOf(s, a), d, tag)
  }

  /** A writer leaves its temporary file only by a step that takes the file's name away. */
  lemma WriterStep(s: State, st: Step, d: Digest, tag: nat, a: Actor)
    requires Inv(s) && Enabled(s, st) && Orderly(st) && Writes(PcOf(s, a), d, tag)
    requires TempFile(d, tag) in Apply(s, st).dir
    ensures TempAttended(Apply(s, st), d, tag)
  {
    if ActorOf(st) != Some(a) {
      OnlyOwnPc(s, st, a);
      assert Writes(PcOf(Apply(s, st), a), d, tag);
    } else {
      assert Grounded(s.dir, s.data, PcOf(s, a)) && RoleOk(a, PcOf(s, a));
      assert Writes(PcOf(Apply(s, st), a), d, tag);
    }
  }

  lemma TempStep(s: State, st: Step, d: Digest, tag: nat)
    requires Inv(s) && Enabled(s, st) && Orderly(st) && TempAttended(s, d, tag)
    ensures TempAttended(Apply(s, st), d, tag)
  {
    if TempFile(d, tag) in Apply(s, st).dir {
      if TempFile(d, tag) in s.dir {
        var a :| Writes(PcOf(s, a), d, tag);
        WriterStep(s, st, d, tag, a);
      } else {
        assert st.CreateTemp? by {
          if TempFile(d, tag) !in Target(s, st) { OffTarget(s, st, TempFile(d, tag)); }
        }
        assert Writes(PcOf(Apply(s, st), st.a), d, tag);
      }
    }
  }

  lemma {:induction false} TempRun(s: State, steps: seq<Step>, d: Digest, tag: nat)
    requires Inv(s) && Legal(s, steps) && TempAttended(s, d, tag)
    requires forall k :: 0 <= k < |steps| ==> Orderly(steps[k])
    ensures TempAttended(Run(s, steps), d, tag)
    decreases |steps|
  {
    if steps != [] {
      TempStep(s, steps[0], d, tag);
      InvStep(s, steps[0]);
      TempRun(Apply(s, steps[0]), steps[1..], d, tag);
    }
  }

  /** Without crashes and I/O errors every temporary file is that of a store in progress; failed
      stores included, none is left once everybody is idle. */
  lemma {:induction false} NoLeakedTemporaries(steps: seq<Step>, d: Digest, tag: nat)
    requires Legal(INIT, steps)
    requires forall k :: 0 <= k < |steps| ==> Orderly(steps[k])
    ensures var s := Run(INIT, steps);
            && TempAttended(s, d, tag)
            && ((forall a :: PcOf(s, a).Idle?) ==> TempFile(d, tag) !in s.dir)
  {
    assert TempAttended(INIT, d, tag);
    TempRun(INIT, steps, d, tag);
  }

  // ---- Unlocked lookups ----

  function ReadAll(r: nat, d: Digest, size: nat): seq<Step> {
    if size == 0 then [OpenRead(r, d)] + [] else [OpenRead(r, d)] + ([ReadSome(r, size)] + [])
  }

  lemma {:induction false} ReadsAll(s: State, r: nat, d: Digest, bytes: Bytes) returns (end: State)
    requires EntryFile(d) in s.dir && r !in s.readers
    requires s.dir[EntryFile(d)] in s.data && s.data[s.dir[EntryFile(d)]] == bytes
    ensures Legal(s, ReadAll(r, d, |bytes|)) && end == Run(s, ReadAll(r, d, |bytes|))
    ensures end == s.(readers := s.readers[r := Reader(d, s.dir[EntryFile(d)], bytes)])
  {
    var s1 := Apply(s, OpenRead(r, d));
    if |bytes| == 0 {
      RunCons(s, OpenRead(r, d), s1, []);
      end := s1;
    } else {
      end := Apply(s1, ReadSome(r, |bytes|));
      assert "" + bytes[0..|bytes|] == bytes;
      RunCons(s1, ReadSome(r, |bytes|), end, []);
      RunCons(s, OpenRead(r, d), s1, [ReadSome(r, |bytes|)] + []);
    }
  }

  lemma Closes(s: State, end: State, r: nat, reader: Reader)
    requires r !in s.readers && end == s.(readers := s.readers[r := reader])
    ensures Enabled(end, CloseRead(r)) && Apply(end, CloseRead(r)) == s
  {
    assert s.readers[r := reader] - {r} == s.readers;
  }

  /** A lookup waits for nobody: in every reachable state, whoever holds or clears, an entry that is
      in place can be opened and read to its end at once, which gives all its bytes and leaves no
      trace. */
  lemma {:induction false} LookupsNeverWait(steps: seq<Step>, r: nat, d: Digest)
    requires Legal(INIT, steps)
    requires var s := Run(INIT, steps); EntryFile(d) in s.dir && r !in s.readers
    ensures var s := Run(INIT, steps);
            && s.dir[EntryFile(d)] in s.data
            && var bytes := s.data[s.dir[EntryFile(d)]];
               && (d, bytes) in s.finished && Legal(s, ReadAll(r, d, |bytes|))
               && var end := Run(s, ReadAll(r, d, |bytes|));
                  && r in end.readers && end.readers[r].got == bytes
                  && Enabled(end, CloseRead(r)) && Apply(end, CloseRead(r)) == s
  {
    Reachable(steps);
    var s := Run(INIT, steps);
    assert EntriesComplete(s);
    var bytes := s.data[s.dir[EntryFile(d)]];
    var end := ReadsAll(s, r, d, bytes);
    Closes(s, end, r, Reader(d, s.dir[EntryFile(d)], bytes));
  }

  // ---- One operation by itself ----

  /** Nobody but `a` is at work. */
  ghost predicate Alone(s: State, a: Actor) {
    forall b :: b != a ==> PcOf(s, b).Idle?
  }

  ghost predicate AllIdle(s: State) {
    forall b :: PcOf(s, b).Idle?
  }

  /** The state with `a` at this program point and these names and bytes. */
  function At(s: State, a: Actor, p: Pc, dir: map<Name, Ino>, data: map<Ino, Bytes>): State {
    s.(procs := s.procs[a := p], dir := dir, data := data)
  }

  /** Orderly steps of `a` alone that lead from one state to another. */
  ghost predicate Leads(a: Actor, s: State, steps: seq<Step>, t: State) {
    && Legal(s, steps) && Run(s, steps) == t
    && forall k :: 0 <= k < |steps| ==> ActorOf(steps[k]) == Some(a) && Orderly(steps[k])
  }

  lemma {:induction false} LeadsOne(a: Actor, s: State, st: Step, t: State)
    requires Enabled(s, st) && t == Apply(s, st) && ActorOf(st) == Some(a) && Orderly(st)
    ensures Leads(a, s, [st], t)
  {
    assert [st][1..] == [];
  }

  lemma {:induction false} Chain(s: State, steps: seq<Step>, more: seq<Step>)
    requires Legal(s, steps) && Legal(Run(s, steps), more)
    ensures Legal(s, steps + more) && Run(s, steps + more) == Run(Run(s, steps), more)
    decreases |steps|
  {
    if steps == [] {
      assert [] + more == more;
    } else {
      var first, rest, next := steps[0], steps[1..], Apply(s, steps[0]);
      Chain(next, rest, more);
      RunCons(s, first, next, rest + more);
      SplitHead(steps, more);
    }
  }

  lemma SplitHead(steps: seq<Step>, more: seq<Step>)
    requires steps != []
    ensures steps + more == [steps[0]] + (steps[1..] + more)
  {
  }

  lemma {:induction false} LeadsOn(a: Actor, s: State, first: seq<Step>, t: State, second: seq<Step>, u: State)
    requires Leads(a, s, first, t) && Leads(a, t, second, u)
    ensures Leads(a, s, first + second, u)
  {
    Chain(s, first, second);
  }

  lemma MovedAlone(s: State, t: State, a: Actor)
    requires Alone(s, a) && forall b :: b != a ==> PcOf(t, b) == PcOf(s, b)
    ensures Alone(t, a)
  {
  }

  /** A step of `a` keeps it alone. */
  lemma StepAlone(s: State, st: Step, a: Actor)
    requires Alone(s, a) && Enabled(s, st) && ActorOf(st) == Some(a)
    ensures Alone(Apply(s, st), a)
  {
    forall b | b != a ensures PcOf(Apply(s, st), b) == PcOf(s, b) { OnlyOwnPc(s, st, b); }
  }

  // ---- Single steps ----

  lemma Opens(s: State, a: Actor, d: Digest, i: Ino)
    requires PcOf(s, a) == Acquiring(d) || PcOf(s, a).Pruning?
    requires LockFile(d) in s.dir || Fresh(s, i)
    ensures Enabled(s, Open(a, d, i))
    ensures var dir := if LockFile(d) in s.dir then s.dir else s.dir[LockFile(d) := i];
            Apply(s, Open(a, d, i)) == At(s, a, Opened(d, dir[LockFile(d)]), dir, s.data)
  {
  }

  lemma Flocks(s: State, a: Actor, d: Digest, i: Ino)
    requires Alone(s, a) && PcOf(s, a) == Opened(d, i)
    ensures Enabled(s, Flock(a)) && Apply(s, Flock(a)) == At(s, a, Locked(d, i), s.dir, s.data)
  {
  }

  lemma Checks(s: State, a: Actor, d: Digest, i: Ino)
    requires PcOf(s, a) == Locked(d, i) && Names(s.dir, LockFile(d), i)
    ensures Enabled(s, Check(a)) && Apply(s, Check(a)) == At(s, a, Holding(d, i), s.dir, s.data)
  {
  }

  /** Opening, locking and comparing the lock file of `d`. */
  lemma {:induction false} TakesKey(s: State, a: Actor, d: Digest, i: Ino) returns (steps: seq<Step>, t: State)
    requires Alone(s, a) && (PcOf(s, a) == Acquiring(d) || PcOf(s, a).Pruning?)
    requires LockFile(d) in s.dir || Fresh(s, i)
    ensures Leads(a, s, steps, t) && Alone(t, a)
    ensures var dir := if LockFile(d) in s.dir then s.dir else s.dir[LockFile(d) := i];
            t == At(s, a, Holding(d, dir[LockFile(d)]), dir, s.data)
  {
    Opens(s, a, d, i);
    var s1 := Apply(s, Open(a, d, i));
    StepAlone(s, Open(a, d, i), a);
    var j := PcOf(s1, a).i;
    Flocks(s1, a, d, j);
    var s2 := Apply(s1, Flock(a));
    StepAlone(s1, Flock(a), a);
    Checks(s2, a, d, j);
    t := Apply(s2, Check(a));
    StepAlone(s2, Check(a), a);
    LeadsOne(a, s, Open(a, d, i), s1);
    LeadsOne(a, s1, Flock(a), s2);
    LeadsOne(a, s2, Check(a), t);
    LeadsOn(a, s, [Open(a, d, i)], s1, [Flock(a)], s2);
    LeadsOn(a, s, [Open(a, d, i)] + [Flock(a)], s2, [Check(a)], t);
    steps := [Open(a, d, i)] + [Flock(a)] + [Check(a)];
  }

  lemma Unlinks(s: State, a: Actor)
    requires Alone(s, a) && (PcOf(s, a).Holding? || PcOf(s, a).Stored?)
    ensures Enabled(s, Unlink(a))
    ensures var p := PcOf(s, a);
            Apply(s, Unlink(a)) == At(s, a, Unlinked(p.d, p.i), s.dir - {LockFile(p.d)}, s.data)
  {
  }

  /** On the way to the key of `d`. */
  predicate Acquires(p: Pc, d: Digest) {
    (p.WantKey? || p.Acquiring? || p.Opened? || p.Locked?) && p.d == d
  }

  /** A thread that waits for a key gives up for nothing but an error: without one its own steps keep
      it on the way, a lost race included, until it holds the key. */
  lemma AcquiresUntilHeld(s: State, st: Step, a: Actor)
    requires Inv(s) && Enabled(s, st) && Orderly(st) && a.Main?
    requires var p := PcOf(s, a); (p.WantKey? || p.Acquiring? || p.Opened? || p.Locked?)
    ensures var d, p := PcOf(s, a).d, PcOf(Apply(s, st), a); Acquires(p, d) || (p.Holding? && p.d == d)
  {
    if ActorOf(st) != Some(a) { OnlyOwnPc(s, st, a); } else { assert RoleOk(a, PcOf(s, a)); }
  }

  ghost predicate EverHolds(s: State, steps: seq<Step>, a: Actor, d: Digest)
    requires Legal(s, steps)
    decreases |steps|
  {
    || (PcOf(s, a).Holding? && PcOf(s, a).d == d)
    || (steps != [] && EverHolds(Apply(s, steps[0]), steps[1..], a, d))
  }

  /** Over runs without crashes and errors: it still waits, or it has held the key. */
  lemma {:induction false} WaitsOrHolds(s: State, steps: seq<Step>, a: Actor, d: Digest)
    requires Inv(s) && Legal(s, steps) && a.Main? && Acquires(PcOf(s, a), d)
    requires forall k :: 0 <= k < |steps| ==> Orderly(steps[k])
    ensures Acquires(PcOf(Run(s, steps), a), d) || EverHolds(s, steps, a, d)
    decreases |steps|
  {
    if steps != [] {
      var next := Apply(s, steps[0]);
      AcquiresUntilHeld(s, steps[0], a);
      InvStep(s, steps[0]);
      if Acquires(PcOf(next, a), d) { WaitsOrHolds(next, steps[1..], a, d); }
    }
  }

  lemma {:induction false} TriesAgain(s: State, a: Actor) returns (steps: seq<Step>, t: State)
    requires Alone(s, a) && a.Main? && PcOf(s, a).Locked?
    ensures Leads(a, s, steps, t) && Alone(t, a) && PcOf(t, a).Holding? && PcOf(t, a).d == PcOf(s, a).d
  {
    var d := PcOf(s, a).d;
    t := Apply(s, Check(a));
    StepAlone(s, Check(a), a);
    LeadsOne(a, s, Check(a), t);
    steps := [Check(a)];
    if !PcOf(t, a).Holding? {
      var i := FreshExists(t);
      var takes, end := TakesKey(t, a, d, i);
      LeadsOn(a, s, steps, t, takes, end);
      steps, t := steps + takes, end;
    }
  }

  /** A thread that was left waiting, even on a lock file that its path no longer names, gets the key
      by its own steps once nobody else is at work. */
  lemma {:induction false} WaiterGetsTheKey(s: State, a: Actor) returns (steps: seq<Step>, t: State)
    requires Alone(s, a) && a.Main? && (PcOf(s, a).Opened? || PcOf(s, a).Locked?)
    ensures Leads(a, s, steps, t) && Alone(t, a) && PcOf(t, a).Holding? && PcOf(t, a).d == PcOf(s, a).d
  {
    if PcOf(s, a).Locked? {
      steps, t := TriesAgain(s, a);
    } else {
      Flocks(s, a, PcOf(s, a).d, PcOf(s, a).i);
      var s1 := Apply(s, Flock(a));
      StepAlone(s, Flock(a), a);
      LeadsOne(a, s, Flock(a), s1);
      var more, end := TriesAgain(s1, a);
      LeadsOn(a, s, [Flock(a)], s1, more, end);
      steps, t := [Flock(a)] + more, end;
    }
  }

  /** Dropping the key: unlink, then close. */
  lemma {:induction false} DropsKey(s: State, a: Actor) returns (steps: seq<Step>, t: State)
    requires Alone(s, a) && (PcOf(s, a).Holding? || PcOf(s, a).Stored?)
    ensures Leads(a, s, steps, t) && Alone(t, a)
    ensures t == At(s, a, if a.Main? then Leaving else Pruning, s.dir - {LockFile(PcOf(s, a).d)}, s.data)
  {
    Unlinks(s, a);
    var s1 := Apply(s, Unlink(a));
    StepAlone(s, Unlink(a), a);
    t := Apply(s1, Close(a));
    StepAlone(s1, Close(a), a);
    LeadsOne(a, s, Unlink(a), s1);
    LeadsOne(a, s1, Close(a), t);
    LeadsOn(a, s, [Unlink(a)], s1, [Close(a)], t);
    steps := [Unlink(a)] + [Close(a)];
  }

  lemma Creates(s: State, a: Actor, tag: nat, j: Ino, bytes: Bytes)
    requires Alone(s, a) && a.Main? && PcOf(s, a).Holding? && Fresh(s, j) && TempFile(PcOf(s, a).d, tag) !in s.dir
    ensures Enabled(s, CreateTemp(a, tag, j, bytes))
    ensures var p := PcOf(s, a);
            Apply(s, CreateTemp(a, tag, j, bytes))
            == At(s, a, Writing(p.d, p.i, tag, j, bytes, 0), s.dir[TempFile(p.d, tag) := j], s.data[j := ""])
  {
  }

  lemma WritesAll(s: State, a: Actor, p: Pc)
    requires PcOf(s, a) == p && p.Writing? && p.written == 0 && p.bytes != ""
    requires p.tmp in s.data && s.data[p.tmp] == ""
    ensures Enabled(s, WriteSome(a, |p.bytes|))
    ensures Apply(s, WriteSome(a, |p.bytes|))
         == At(s, a, p.(written := |p.bytes|), s.dir, s.data[p.tmp := p.bytes])
  {
    assert "" + p.bytes[0..|p.bytes|] == p.bytes;
  }

  lemma Renames(s: State, a: Actor, p: Pc)
    requires PcOf(s, a) == p && p.Writing? && p.written == |p.bytes| && Names(s.dir, TempFile(p.d, p.tag), p.tmp)
    ensures Enabled(s, Rename(a))
    ensures Apply(s, Rename(a))
         == At(s, a, Stored(p.d, p.i), (s.dir - {TempFile(p.d, p.tag)})[EntryFile(p.d) := p.tmp], s.data)
            .(finished := s.finished + {(p.d, p.bytes)})
  {
  }

  lemma {:induction false} WritesOut(s: State, a: Actor, p: Pc) returns (steps: seq<Step>, t: State)
    requires Alone(s, a) && PcOf(s, a) == p && p.Writing? && p.written == 0
    requires p.tmp in s.data && s.data[p.tmp] == ""
    ensures Leads(a, s, steps, t) && Alone(t, a)
    ensures t == At(s, a, p.(written := |p.bytes|), s.dir, s.data[p.tmp := p.bytes])
  {
    if p.bytes == "" {
      steps, t := [], s;
      assert s.data[p.tmp := p.bytes] == s.data && s.procs[a := p] == s.procs;
    } else {
      WritesAll(s, a, p);
      t := Apply(s, WriteSome(a, |p.bytes|));
      StepAlone(s, WriteSome(a, |p.bytes|), a);
      LeadsOne(a, s, WriteSome(a, |p.bytes|), t);
      steps := [WriteSome(a, |p.bytes|)];
    }
  }

  /** Writing a temporary file and renaming it over the entry. */
  lemma {:induction false} SavesEntry(s: State, a: Actor, tag: nat, j: Ino, bytes: Bytes)
    returns (steps: seq<Step>, t: State)
    requires Alone(s, a) && a.Main? && PcOf(s, a).Holding? && Fresh(s, j)
    requires TempFile(PcOf(s, a).d, tag) !in s.dir
    ensures Leads(a, s, steps, t) && Alone(t, a) && PcOf(t, a) == Stored(PcOf(s, a).d, PcOf(s, a).i)
    ensures t.dir == s.dir[EntryFile(PcOf(s, a).d) := j] && t.data == s.data[j := bytes]
    ensures t.finished == s.finished + {(PcOf(s, a).d, bytes)} && t.readers == s.readers
  {
    Creates(s, a, tag, j, bytes);
    var create := CreateTemp(a, tag, j, bytes);
    var s1 := Apply(s, create);
    StepAlone(s, create, a);
    var writes, s2 := WritesOut(s1, a, PcOf(s1, a));
    Renames(s2, a, PcOf(s2, a));
    t := Apply(s2, Rename(a));
    StepAlone(s2, Rename(a), a);
    LeadsOne(a, s, create, s1);
    LeadsOn(a, s, [create], s1, writes, s2);
    LeadsOne(a, s2, Rename(a), t);
    LeadsOn(a, s, [create] + writes, s2, [Rename(a)], t);
    steps := [create] + writes + [Rename(a)];
    Renamed(s.dir, PcOf(s, a).d, tag, j);
  }

  lemma Renamed(dir: map<Name, Ino>, d: Digest, tag: nat, j: Ino)
    requires TempFile(d, tag) !in dir
    ensures (dir[TempFile(d, tag) := j] - {TempFile(d, tag)})[EntryFile(d) := j] == dir[EntryFile(d) := j]
  {
  }

  // ---- A store ----

  lemma {:induction false} Enters(s: State, a: Actor, d: Digest) returns (steps: seq<Step>, t: State)
    requires AllIdle(s) && a.Main?
    ensures Leads(a, s, steps, t) && Alone(t, a) && t == At(s, a, Acquiring(d), s.dir, s.data)
  {
    var s1 := Apply(s, StartLock(a, d));
    StepAlone(s, StartLock(a, d), a);
    t := Apply(s1, TakeShared(a));
    StepAlone(s1, TakeShared(a), a);
    LeadsOne(a, s, StartLock(a, d), s1);
    LeadsOne(a, s1, TakeShared(a), t);
    LeadsOn(a, s, [StartLock(a, d)], s1, [TakeShared(a)], t);
    steps := [StartLock(a, d)] + [TakeShared(a)];
  }

  lemma {:induction false} Leaves(s: State, a: Actor) returns (steps: seq<Step>, t: State)
    requires Alone(s, a) && PcOf(s, a).Leaving?
    ensures Leads(a, s, steps, t) && AllIdle(t) && t == At(s, a, Idle, s.dir, s.data)
  {
    t := Apply(s, Leave(a));
    StepAlone(s, Leave(a), a);
    LeadsOne(a, s, Leave(a), t);
    steps := [Leave(a)];
  }

  /** A new inode stays new while only locks are taken. */
  lemma FreshBeside(s: State, t: State, a: Actor, j: Ino)
    requires AllIdle(s) && Fresh(s, j) && Alone(t, a) && t.readers == s.readers
    requires !PcOf(t, a).Writing? && (HasFile(PcOf(t, a)) ==> PcOf(t, a).i != j)
    requires forall n :: n in t.dir ==> t.dir[n] != j
    ensures Fresh(t, j)
  {
  }

  /** By itself, from any state in which all are idle, leftovers of crashes included: a lock and a
      store run to their end. The entry then is the new one with all its bytes, its lock file is
      gone, and nothing else in the directory is changed. */
  lemma {:induction false} StoreCompletes(s: State, a: Actor, d: Digest, i: Ino, tag: nat, j: Ino, bytes: Bytes)
    returns (steps: seq<Step>, t: State)
    requires AllIdle(s) && a.Main? && TempFile(d, tag) !in s.dir && Fresh(s, i) && Fresh(s, j) && i != j
    ensures Leads(a, s, steps, t) && AllIdle(t)
    ensures t.dir == (s.dir - {LockFile(d)})[EntryFile(d) := j] && t.data == s.data[j := bytes]
    ensures t.finished == s.finished + {(d, bytes)}
  {
    var enters, s1 := Enters(s, a, d);
    FreshBeside(s, s1, a, i);
    var takes, s2 := TakesKey(s1, a, d, i);
    FreshBeside(s, s2, a, j);
    var saves, s3 := SavesEntry(s2, a, tag, j, bytes);
    var drops, s4 := DropsKey(s3, a);
    var leaves, s5 := Leaves(s4, a);
    LeadsOn(a, s, enters, s1, takes, s2);
    LeadsOn(a, s, enters + takes, s2, saves, s3);
    LeadsOn(a, s, enters + takes + saves, s3, drops, s4);
    LeadsOn(a, s, enters + takes + saves + drops, s4, leaves, s5);
    steps, t := enters + takes + saves + drops + leaves, s5;
    LockGone(s.dir, s2.dir, d, i, j);
  }

  lemma LockGone(dir: map<Name, Ino>, locked: map<Name, Ino>, d: Digest, i: Ino, j: Ino)
    requires locked == if LockFile(d) in dir then dir else dir[LockFile(d) := i]
    ensures locked[EntryFile(d) := j] - {LockFile(d)} == (dir - {LockFile(d)})[EntryFile(d) := j]
    ensures locked - {LockFile(d)} == dir - {LockFile(d)}
  {
  }

  // ---- A prune ----

  lemma Shares(s: State, a: Actor, wait: bool)
    requires AllIdle(s) && a.Pruner?
    ensures Enabled(s, StartPrune(a, wait))
    ensures var s1 := Apply(s, StartPrune(a, wait));
            && s1 == At(s, a, WantPruneShared(wait), s.dir, s.data) && Alone(s1, a)
            && Enabled(s1, TakeShared(a))
            && Apply(s1, TakeShared(a)) == At(s, a, WantPruneLock(wait), s.dir, s.data)
  {
    StepAlone(s, StartPrune(a, wait), a);
  }

  lemma TakesPruneLock(s: State, a: Actor, wait: bool)
    requires Alone(s, a) && PcOf(s, a) == WantPruneLock(wait)
    ensures Enabled(s, TakePrune(a)) && Apply(s, TakePrune(a)) == At(s, a, Pruning, s.dir, s.data)
  {
  }

  lemma {:induction false} PruneEnters(s: State, a: Actor, wait: bool) returns (steps: seq<Step>, t: State)
    requires AllIdle(s) && a.Pruner?
    ensures Leads(a, s, steps, t) && Alone(t, a) && t == At(s, a, Pruning, s.dir, s.data)
  {
    Shares(s, a, wait);
    var s1 := Apply(s, StartPrune(a, wait));
    var s2 := Apply(s1, TakeShared(a));
    StepAlone(s1, TakeShared(a), a);
    TakesPruneLock(s2, a, wait);
    t := Apply(s2, TakePrune(a));
    StepAlone(s2, TakePrune(a), a);
    LeadsOne(a, s, StartPrune(a, wait), s1);
    LeadsOne(a, s1, TakeShared(a), s2);
    LeadsOne(a, s2, TakePrune(a), t);
    LeadsOn(a, s1, [TakeShared(a)], s2, [TakePrune(a)], t);
    LeadsOn(a, s, [StartPrune(a, wait)], s1, [TakeShared(a)] + [TakePrune(a)], t);
    steps := [StartPrune(a, wait)] + ([TakeShared(a)] + [TakePrune(a)]);
  }

  /** Under the key, a prune removes the entry and a leftover. */
  lemma {:induction false} RemovesBoth(s: State, a: Actor, tag: nat) returns (steps: seq<Step>, t: State)
    requires Alone(s, a) && a.Pruner? && PcOf(s, a).Holding?
    ensures Leads(a, s, steps, t) && Alone(t, a) && PcOf(t, a) == PcOf(s, a)
    ensures t.dir == s.dir - {EntryFile(PcOf(s, a).d)} - {TempFile(PcOf(s, a).d, tag)} && t.data == s.data
  {
    var s1 := Apply(s, RemoveEntry(a));
    StepAlone(s, RemoveEntry(a), a);
    t := Apply(s1, RemoveTemp(a, tag));
    StepAlone(s1, RemoveTemp(a, tag), a);
    LeadsOne(a, s, RemoveEntry(a), s1);
    LeadsOne(a, s1, RemoveTemp(a, tag), t);
    LeadsOn(a, s, [RemoveEntry(a)], s1, [RemoveTemp(a, tag)], t);
    steps := [RemoveEntry(a)] + [RemoveTemp(a, tag)];
  }

  lemma {:induction false} PruneLeaves(s: State, a: Actor) returns (steps: seq<Step>, t: State)
    requires Alone(s, a) && PcOf(s, a).Pruning?
    ensures Leads(a, s, steps, t) && AllIdle(t) && t.dir == s.dir && t.data == s.data
  {
    var s1 := Apply(s, EndPrune(a));
    StepAlone(s, EndPrune(a), a);
    var leaves, s2 := Leaves(s1, a);
    LeadsOne(a, s, EndPrune(a), s1);
    LeadsOn(a, s, [EndPrune(a)], s1, leaves, s2);
    steps, t := [EndPrune(a)] + leaves, s2;
  }

  /** By itself a prune, waiting or not, runs to its end, and what it takes of a key is gone: the
      entry, a temporary file left by a crash, and the lock file; nothing else is. */
  lemma {:induction false} PruneCompletes(s: State, a: Actor, wait: bool, d: Digest, i: Ino, tag: nat)
    returns (steps: seq<Step>, t: State)
    requires AllIdle(s) && a.Pruner? && Fresh(s, i)
    ensures Leads(a, s, steps, t) && AllIdle(t) && t.data == s.data
    ensures t.dir == s.dir - {EntryFile(d), TempFile(d, tag), LockFile(d)}
  {
    var enters, s1 := PruneEnters(s, a, wait);
    FreshBeside(s, s1, a, i);
    var takes, s2 := TakesKey(s1, a, d, i);
    var removes, s3 := RemovesBoth(s2, a, tag);
    var drops, s4 := DropsKey(s3, a);
    var leaves, s5 := PruneLeaves(s4, a);
    LeadsOn(a, s, enters, s1, takes, s2);
    LeadsOn(a, s, enters + takes, s2, removes, s3);
    LeadsOn(a, s, enters + takes + removes, s3, drops, s4);
    LeadsOn(a, s, enters + takes + removes + drops, s4, leaves, s5);
    steps, t := enters + takes + removes + drops + leaves, s5;
    LockGone(s.dir, s2.dir, d, i, i);
    AllThree(s.dir, s2.dir, d, tag);
  }

  lemma AllThree(dir: map<Name, Ino>, locked: map<Name, Ino>, d: Digest, tag: nat)
    requires locked - {LockFile(d)} == dir - {LockFile(d)}
    ensures locked - {EntryFile(d)} - {TempFile(d, tag)} - {LockFile(d)}
         == dir - {EntryFile(d), TempFile(d, tag), LockFile(d)}
  {
    assert locked - {EntryFile(d)} - {TempFile(d, tag)} - {LockFile(d)}
        == locked - {LockFile(d)} - {EntryFile(d)} - {TempFile(d, tag)};
  }

  /** A prune that may not wait gives up, having touched nothing, while a clear is under way. */
  lemma {:induction false} PruneGivesUpToClear(s: State, a: Actor) returns (steps: seq<Step>, t: State)
    requires Enabled(s, StartPrune(a, false)) && OthersClear(s, a)
    ensures Leads(a, s, steps, t) && PcOf(t, a).Idle? && t.dir == s.dir && t.data == s.data
  {
    var s1 := Apply(s, StartPrune(a, false));
    var b :| b != a && PcOf(s, b).Clearing?;
    assert PcOf(s1, b) == PcOf(s, b);
    t := Apply(s1, RefuseShared(a));
    LeadsOne(a, s, StartPrune(a, false), s1);
    LeadsOne(a, s1, RefuseShared(a), t);
    LeadsOn(a, s, [StartPrune(a, false)], s1, [RefuseShared(a)], t);
    steps := [StartPrune(a, false)] + [RefuseShared(a)];
  }

  lemma {:induction false} ToPruneLock(s: State, a: Actor) returns (steps: seq<Step>, t: State)
    requires Enabled(s, StartPrune(a, false)) && OthersPrune(s, a) && !OthersClear(s, a)
    ensures Leads(a, s, steps, t) && PcOf(t, a) == WantPruneLock(false) && OthersPrune(t, a)
    ensures t.dir == s.dir && t.data == s.data
  {
    var s1 := Apply(s, StartPrune(a, false));
    OthersSame(s, StartPrune(a, false), a);
    t := Apply(s1, TakeShared(a));
    OthersSame(s1, TakeShared(a), a);
    LeadsOne(a, s, StartPrune(a, false), s1);
    LeadsOne(a, s1, TakeShared(a), t);
    LeadsOn(a, s, [StartPrune(a, false)], s1, [TakeShared(a)], t);
    steps := [StartPrune(a, false)] + [TakeShared(a)];
  }

  /** And while another prune is. */
  lemma {:induction false} PruneGivesUpToPrune(s: State, a: Actor) returns (steps: seq<Step>, t: State)
    requires Enabled(s, StartPrune(a, false)) && OthersPrune(s, a) && !OthersClear(s, a)
    ensures Leads(a, s, steps, t) && PcOf(t, a).Idle? && t.dir == s.dir && t.data == s.data
  {
    var starts, s1 := ToPruneLock(s, a);
    var s2 := Apply(s1, RefusePrune(a));
    t := Apply(s2, Leave(a));
    LeadsOne(a, s1, RefusePrune(a), s2);
    LeadsOne(a, s2, Leave(a), t);
    LeadsOn(a, s1, [RefusePrune(a)], s2, [Leave(a)], t);
    LeadsOn(a, s, starts, s1, [RefusePrune(a)] + [Leave(a)], t);
    steps := starts + ([RefusePrune(a)] + [Leave(a)]);
  }

  /** A step of `a` leaves what the others hold. */
  lemma OthersSame(s: State, st: Step, a: Actor)
    requires Enabled(s, st) && ActorOf(st) == Some(a)
    ensures OthersClear(Apply(s, st), a) <==> OthersClear(s, a)
    ensures OthersPrune(Apply(s, st), a) <==> OthersPrune(s, a)
  {
    forall b | b != a ensures PcOf(Apply(s, st), b) == PcOf(s, b) { OnlyOwnPc(s, st, b); }
  }

  // ---- A clear ----

  lemma {:induction false} ClearsOn(s: State, a: Actor) returns (steps: seq<Step>, t: State)
    requires Alone(s, a) && PcOf(s, a).Clearing? && s.dir.Keys <= PcOf(s, a).todo
    ensures Leads(a, s, steps, t) && AllIdle(t) && t.dir == map[]
    decreases PcOf(s, a).todo
  {
    var todo := PcOf(s, a).todo;
    if todo == {} {
      t := Apply(s, ClearEnd(a));
      StepAlone(s, ClearEnd(a), a);
      LeadsOne(a, s, ClearEnd(a), t);
      steps := [ClearEnd(a)];
    } else {
      var n :| n in todo;
      var next := Apply(s, ClearRemove(a, n));
      StepAlone(s, ClearRemove(a, n), a);
      LeadsOne(a, s, ClearRemove(a, n), next);
      var rest, end := ClearsOn(next, a);
      LeadsOn(a, s, [ClearRemove(a, n)], next, rest, end);
      steps, t := [ClearRemove(a, n)] + rest, end;
    }
  }

  /** By itself a clear runs to its end and leaves an empty directory. */
  lemma {:induction false} ClearCompletes(s: State, a: Actor) returns (steps: seq<Step>, t: State)
    requires AllIdle(s) && a.Main?
    ensures Leads(a, s, steps, t) && AllIdle(t) && t.dir == map[]
  {
    var s1 := Apply(s, StartClear(a));
    StepAlone(s, StartClear(a), a);
    var s2 := Apply(s1, TakeExclusive(a));
    StepAlone(s1, TakeExclusive(a), a);
    var clears, s3 := ClearsOn(s2, a);
    LeadsOne(a, s, StartClear(a), s1);
    LeadsOne(a, s1, TakeExclusive(a), s2);
    LeadsOn(a, s, [StartClear(a)], s1, [TakeExclusive(a)], s2);
    LeadsOn(a, s, [StartClear(a)] + [TakeExclusive(a)], s2, clears, s3);
    steps, t := [StartClear(a)] + [TakeExclusive(a)] + clears, s3;
  }
}
