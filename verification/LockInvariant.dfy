/** What every step of the lock protocol keeps. */
module LockInvariant {
  import opened Common
  import opened LockProtocol

  /** What the three kinds of lock allow two different actors at once. */
  predicate Compatible(a: Actor, p: Pc, b: Actor, q: Pc) {
    && !(p.Clearing? && (Shared(q) || q.Clearing?))
    && !(PruneLock(a, p) && PruneLock(b, q))
    && (HasFlock(p) && HasFlock(q) ==> p.i != q.i)
  }

  predicate Apart(a: Actor, p: Pc, b: Actor, q: Pc) {
    Compatible(a, p, b, q) && Compatible(b, q, a, p)
  }

  predicate RoleOk(a: Actor, p: Pc) {
    if a.Main? then !(p.WantPruneShared? || p.WantPruneLock? || p.Pruning?)
    else !(p.WantKey? || p.Acquiring? || p.Writing? || p.Stored? || p.WantExclusive? || p.Clearing?)
  }

  /** The file-system facts an actor relies on at its program point. */
  ghost predicate Grounded(dir: map<Name, Ino>, data: map<Ino, Bytes>, p: Pc) {
    && (p.Opened? || p.Locked? ==> forall n :: Names(dir, n, p.i) ==> n == LockFile(p.d))
    && (HasKey(p) ==> Names(dir, LockFile(p.d), p.i))
    && (p.Unlinked? ==> forall n :: !Names(dir, n, p.i))
    && (p.Clearing? ==> dir.Keys <= p.todo)
    && (p.Writing? ==>
          && Names(dir, TempFile(p.d, p.tag), p.tmp)
          && p.written <= |p.bytes| && p.tmp in data && data[p.tmp] == p.bytes[..p.written])
  }

  ghost predicate Injective(dir: map<Name, Ino>) {
    forall n, m :: n in dir && Names(dir, m, dir[n]) ==> n == m
  }

  ghost predicate EntriesComplete(s: State) {
    forall d :: EntryFile(d) in s.dir ==>
                  s.dir[EntryFile(d)] in s.data && (d, s.data[s.dir[EntryFile(d)]]) in s.finished
  }

  ghost predicate ReaderOk(s: State, r: nat)
    requires r in s.readers
  {
    var rd := s.readers[r];
    && rd.i in s.data
    && (rd.d, s.data[rd.i]) in s.finished
    && rd.got <= s.data[rd.i]
    && forall a :: PcOf(s, a).Writing? ==> PcOf(s, a).tmp != rd.i
  }

  ghost predicate Actors(s: State) {
    && (forall a, b :: a != b ==> Compatible(a, PcOf(s, a), b, PcOf(s, b)))
    && (forall a :: RoleOk(a, PcOf(s, a)))
    && (forall t :: PcOf(s, Pruner(t)).Idle? || PcOf(s, Main(t)).Idle? || PcOf(s, Main(t)).Holding?)
  }

  ghost predicate Files(s: State) {
    && (forall a :: Grounded(s.dir, s.data, PcOf(s, a)))
    && Injective(s.dir)
    && EntriesComplete(s)
    && (forall r :: r in s.readers ==> ReaderOk(s, r))
  }

  ghost predicate Inv(s: State) {
    Actors(s) && Files(s)
  }

  /** A step moves only its own actor. */
  lemma OnlyOwnPc(s: State, st: Step, b: Actor)
    requires Enabled(s, st) && ActorOf(st) != Some(b)
    ensures PcOf(Apply(s, st), b) == PcOf(s, b)
  {
  }

  /** Locks are gained only by the steps that take them. */
  lemma LocksAreTaken(s: State, st: Step)
    requires Enabled(s, st) && ActorOf(st).Some? && RoleOk(st.a, PcOf(s, st.a))
    ensures var p, p' := PcOf(s, st.a), PcAfter(s, st);
            && (p'.Clearing? ==> p.Clearing? || st.TakeExclusive?)
            && (Shared(p') ==> Shared(p) || st.TakeShared?)
            && (PruneLock(st.a, p') ==> PruneLock(st.a, p) || st.TakePrune?)
  {
  }

  lemma FlocksAreTaken(s: State, st: Step)
    requires Enabled(s, st) && ActorOf(st).Some? && HasFlock(PcAfter(s, st))
    ensures (HasFlock(PcOf(s, st.a)) || st.Flock?) && PcAfter(s, st).i == PcOf(s, st.a).i
  {
  }

  lemma StepApart(s: State, st: Step, b: Actor)
    requires Actors(s) && Enabled(s, st) && ActorOf(st).Some? && st.a != b
    ensures Apart(st.a, PcOf(Apply(s, st), st.a), b, PcOf(s, b))
  {
    var p', q := PcAfter(s, st), PcOf(s, b);
    assert Apart(st.a, PcOf(s, st.a), b, q);
    LocksAreTaken(s, st);
    if HasFlock(p') {
      FlocksAreTaken(s, st);
      assert HasFlock(q) ==> p'.i != q.i;
    }
    assert p'.Clearing? ==> !Shared(q) && !q.Clearing?;
    assert q.Clearing? ==> !Shared(p') && !p'.Clearing?;
    assert !(PruneLock(st.a, p') && PruneLock(b, q));
  }

  lemma StepRole(s: State, st: Step)
    requires Actors(s) && Enabled(s, st) && ActorOf(st).Some?
    ensures RoleOk(st.a, PcOf(Apply(s, st), st.a))
  {
    assert RoleOk(st.a, PcOf(s, st.a));
  }

  /** A thread leaves `Idle` and `Holding` only while it is not inside a prune. */
  lemma NestedMoves(s: State, st: Step)
    requires Enabled(s, st) && ActorOf(st).Some? && st.a.Main? && RoleOk(st.a, PcOf(s, st.a))
    requires PcOf(s, st.a).Idle? || PcOf(s, st.a).Holding?
    ensures Free(s, st.a) || PcAfter(s, st).Idle? || PcAfter(s, st).Holding?
  {
  }

  lemma PruneStarts(s: State, st: Step)
    requires Enabled(s, st) && ActorOf(st).Some? && st.a.Pruner? && PcOf(s, st.a).Idle? && !PcAfter(s, st).Idle?
    ensures st.StartPrune?
  {
  }

  lemma StepNested(s: State, st: Step, t: nat)
    requires Actors(s) && Enabled(s, st)
    ensures var s' := Apply(s, st);
            PcOf(s', Pruner(t)).Idle? || PcOf(s', Main(t)).Idle? || PcOf(s', Main(t)).Holding?
  {
    var main, pruner, s' := PcOf(s, Main(t)), PcOf(s, Pruner(t)), Apply(s, st);
    assert RoleOk(Main(t), main);
    assert pruner.Idle? || main.Idle? || main.Holding?;
    if ActorOf(st) == Some(Main(t)) {
      OnlyOwnPc(s, st, Pruner(t));
      assert PcOf(s', Main(t)) == PcAfter(s, st);
      if main.Idle? || main.Holding? { NestedMoves(s, st); }
    } else if ActorOf(st) == Some(Pruner(t)) {
      OnlyOwnPc(s, st, Main(t));
      assert PcOf(s', Pruner(t)) == PcAfter(s, st);
      if pruner.Idle? && !PcAfter(s, st).Idle? { PruneStarts(s, st); }
    } else {
      OnlyOwnPc(s, st, Main(t)); OnlyOwnPc(s, st, Pruner(t));
    }
  }

  lemma ActorsStep(s: State, st: Step)
    requires Actors(s) && Enabled(s, st)
    ensures Actors(Apply(s, st))
  {
    var s' := Apply(s, st);
    forall a, b | a != b ensures Compatible(a, PcOf(s', a), b, PcOf(s', b)) {
      if ActorOf(st) == Some(a) {
        OnlyOwnPc(s, st, b); StepApart(s, st, b);
      } else if ActorOf(st) == Some(b) {
        OnlyOwnPc(s, st, a); StepApart(s, st, a);
      } else {
        OnlyOwnPc(s, st, a); OnlyOwnPc(s, st, b);
      }
    }
    forall a ensures RoleOk(a, PcOf(s', a)) {
      if ActorOf(st) == Some(a) { StepRole(s, st); } else { OnlyOwnPc(s, st, a); }
    }
    forall t ensures PcOf(s', Pruner(t)).Idle? || PcOf(s', Main(t)).Idle? || PcOf(s', Main(t)).Holding? {
      StepNested(s, st, t);
    }
  }

  /** Mutual exclusion: two actors that hold one key's lock are the same actor. */
  lemma OneHolder(s: State, a: Actor, b: Actor)
    requires Inv(s) && HasKey(PcOf(s, a)) && HasKey(PcOf(s, b)) && PcOf(s, a).d == PcOf(s, b).d
    ensures a == b
  {
    assert Grounded(s.dir, s.data, PcOf(s, a)) && Grounded(s.dir, s.data, PcOf(s, b));
    assert a != b ==> Compatible(a, PcOf(s, a), b, PcOf(s, b));
  }

  /** The names whose binding a step may change. */
  function Target(s: State, st: Step): set<Name> {
    match st
    case Open(a, d, _) => {LockFile(d)}
    case CreateTemp(a, tag, _, _) => if PcOf(s, a).Holding? then {TempFile(PcOf(s, a).d, tag)} else {}
    case Rename(a) =>
      if PcOf(s, a).Writing? then {TempFile(PcOf(s, a).d, PcOf(s, a).tag), EntryFile(PcOf(s, a).d)} else {}
    case Abort(a) => if PcOf(s, a).Writing? then {TempFile(PcOf(s, a).d, PcOf(s, a).tag)} else {}
    case RemoveEntry(a) => if HasKey(PcOf(s, a)) then {EntryFile(PcOf(s, a).d)} else {}
    case RemoveTemp(a, tag) => if HasKey(PcOf(s, a)) then {TempFile(PcOf(s, a).d, tag)} else {}
    case Unlink(a) => if HasKey(PcOf(s, a)) then {LockFile(PcOf(s, a).d)} else {}
    case ClearRemove(_, n) => {n}
    case _ => {}
  }

  lemma OffTarget(s: State, st: Step, n: Name)
    requires Enabled(s, st) && n !in Target(s, st)
    ensures var s' := Apply(s, st); (n in s'.dir <==> n in s.dir) && (n in s.dir ==> s'.dir[n] == s.dir[n])
  {
  }

  /** A name that appears is bound to a fresh inode, except the entry a rename puts in place. */
  lemma NewBindings(s: State, st: Step, n: Name)
    requires Enabled(s, st) && n in Apply(s, st).dir && !(n in s.dir && s.dir[n] == Apply(s, st).dir[n])
    ensures n !in s.dir || st.Rename?
    ensures var i := Apply(s, st).dir[n];
            || Fresh(s, i)
            || (st.Rename? && PcOf(s, st.a).Writing? && n == EntryFile(PcOf(s, st.a).d)
                && Names(s.dir, TempFile(PcOf(s, st.a).d, PcOf(s, st.a).tag), i))
  {
  }

  /** To the names of a held key, another actor can only open the lock file. */
  lemma OnlyOpensHeld(s: State, st: Step, b: Actor, n: Name)
    requires Inv(s) && Enabled(s, st) && ActorOf(st) != Some(b)
    requires HasKey(PcOf(s, b)) && n.d == PcOf(s, b).d && n in Target(s, st)
    ensures st.Open? && n.LockFile?
  {
    var p := PcOf(s, st.a);
    assert Apart(st.a, p, b, PcOf(s, b));
    if HasKey(p) && p.d == n.d { OneHolder(s, st.a, b); }
  }

  /** The names another actor relies on are off limits. */
  lemma Untouched(s: State, st: Step, b: Actor)
    requires Inv(s) && Enabled(s, st) && ActorOf(st) != Some(b) && HasKey(PcOf(s, b))
    ensures var q := PcOf(s, b);
            && Names(Apply(s, st).dir, LockFile(q.d), q.i)
            && (q.Writing? ==> Names(Apply(s, st).dir, TempFile(q.d, q.tag), q.tmp))
  {
    var q := PcOf(s, b);
    assert Grounded(s.dir, s.data, q);
    if LockFile(q.d) in Target(s, st) {
      OnlyOpensHeld(s, st, b, LockFile(q.d));
    } else {
      OffTarget(s, st, LockFile(q.d));
    }
    if q.Writing? {
      if TempFile(q.d, q.tag) in Target(s, st) { OnlyOpensHeld(s, st, b, TempFile(q.d, q.tag)); }
      OffTarget(s, st, TempFile(q.d, q.tag));
    }
  }

  /** An inode open as `d`'s lock file gets no other name. */
  lemma KeepsOpened(s: State, st: Step, i: Ino, d: Digest, n: Name)
    requires Enabled(s, st) && Names(Apply(s, st).dir, n, i)
    requires forall m :: Names(s.dir, m, i) ==> m == LockFile(d)
    requires exists b :: HasFile(PcOf(s, b)) && PcOf(s, b).i == i
    ensures Names(s.dir, n, i)
  {
    if !Names(s.dir, n, i) {
      NewBindings(s, st, n);
    }
  }

  /** The bytes of an inode change only under the writer that has it as its temporary file. */
  lemma KeepsData(s: State, st: Step, i: Ino)
    requires Enabled(s, st) && i in s.data
    requires !(st.CreateTemp? && st.ino == i)
    requires !(st.WriteSome? && PcOf(s, st.a).tmp == i)
    ensures i in Apply(s, st).data && Apply(s, st).data[i] == s.data[i]
  {
  }

  lemma DistinctTemps(s: State, a: Actor, b: Actor)
    requires Inv(s) && a != b && PcOf(s, a).Writing? && PcOf(s, b).Writing?
    ensures PcOf(s, a).tmp != PcOf(s, b).tmp
  {
    if PcOf(s, a).d == PcOf(s, b).d { OneHolder(s, a, b); }
    assert Grounded(s.dir, s.data, PcOf(s, a)) && Grounded(s.dir, s.data, PcOf(s, b));
  }

  lemma GroundedOthers(s: State, st: Step, b: Actor)
    requires Inv(s) && Enabled(s, st) && ActorOf(st) != Some(b)
    ensures Grounded(Apply(s, st).dir, Apply(s, st).data, PcOf(s, b))
  {
    var q, s' := PcOf(s, b), Apply(s, st);
    assert Grounded(s.dir, s.data, q);
    if q.Opened? || q.Locked? || q.Unlinked? {
      forall n | Names(s'.dir, n, q.i) ensures Names(s.dir, n, q.i) {
        KeepsOpened(s, st, q.i, q.d, n);
      }
    } else if HasKey(q) {
      Untouched(s, st, b);
      if q.Writing? {
        if st.WriteSome? { DistinctTemps(s, st.a, b); }
        KeepsData(s, st, q.tmp);
      }
    } else if q.Clearing? {
      if ActorOf(st).Some? { assert Compatible(b, q, st.a, PcOf(s, st.a)); }
      forall n | n in s'.dir ensures n in s.dir {
        if n in Target(s, st) { } else { OffTarget(s, st, n); }
      }
    }
  }

  /** What a holder's own unlink leaves: its inode has no name. */
  lemma UnlinksOwn(s: State, a: Actor, n: Name)
    requires Inv(s) && HasKey(PcOf(s, a)) && n in (s.dir - {LockFile(PcOf(s, a).d)})
    ensures s.dir[n] != PcOf(s, a).i
  {
    assert Grounded(s.dir, s.data, PcOf(s, a));
  }

  /** The steps of a key's holder, other than its unlink. */
  predicate HolderStep(st: Step) {
    st.CreateTemp? || st.WriteSome? || st.Rename? || st.Abort? || st.RemoveEntry? || st.RemoveTemp?
  }

  lemma GroundedHolder(s: State, st: Step)
    requires Inv(s) && Enabled(s, st) && HolderStep(st)
    ensures Grounded(Apply(s, st).dir, Apply(s, st).data, PcOf(Apply(s, st), st.a))
  {
    var p := PcOf(s, st.a);
    assert Grounded(s.dir, s.data, p) && RoleOk(st.a, p);
    OffTarget(s, st, LockFile(p.d));
    if st.WriteSome? {
      var w := p.written;
      assert p.bytes[..w] + p.bytes[w..w + st.count] == p.bytes[..w + st.count];
      OffTarget(s, st, TempFile(p.d, p.tag));
    }
  }

  lemma GroundedOpen(s: State, st: Step)
    requires Inv(s) && Enabled(s, st) && st.Open?
    ensures Grounded(Apply(s, st).dir, Apply(s, st).data, PcOf(Apply(s, st), st.a))
  {
    assert Injective(s.dir);
    var p', s' := PcOf(Apply(s, st), st.a), Apply(s, st);
    assert p' == Opened(st.d, s'.dir[LockFile(st.d)]);
  }

  lemma GroundedUnlink(s: State, st: Step)
    requires Inv(s) && Enabled(s, st) && st.Unlink?
    ensures Grounded(Apply(s, st).dir, Apply(s, st).data, PcOf(Apply(s, st), st.a))
  {
    var p, s' := PcOf(s, st.a), Apply(s, st);
    assert PcOf(s', st.a) == Unlinked(p.d, p.i);
    forall n ensures !Names(s'.dir, n, p.i) {
      if n in s'.dir { UnlinksOwn(s, st.a, n); }
    }
  }

  /** The other steps read the directory, or remove what they listed. */
  lemma GroundedOther(s: State, st: Step)
    requires Inv(s) && Enabled(s, st) && ActorOf(st).Some? && !HolderStep(st) && !st.Open? && !st.Unlink?
    ensures Grounded(Apply(s, st).dir, Apply(s, st).data, PcOf(Apply(s, st), st.a))
  {
    var p, s' := PcOf(s, st.a), Apply(s, st);
    var p' := PcOf(s', st.a);
    assert Grounded(s.dir, s.data, p);
    if st.ClearRemove? {
      assert p' == Clearing(p.todo - {st.name}) && s'.dir == s.dir - {st.name};
    } else {
      assert s'.dir == s.dir && s'.data == s.data;
      assert !p'.Opened? && !p'.Writing? && !p'.Unlinked?;
    }
  }

  lemma GroundedOwn(s: State, st: Step)
    requires Inv(s) && Enabled(s, st) && ActorOf(st).Some?
    ensures Grounded(Apply(s, st).dir, Apply(s, st).data, PcOf(Apply(s, st), st.a))
  {
    if HolderStep(st) {
      GroundedHolder(s, st);
    } else if st.Open? {
      GroundedOpen(s, st);
    } else if st.Unlink? {
      GroundedUnlink(s, st);
    } else {
      GroundedOther(s, st);
    }
  }

  lemma InjectiveStep(s: State, st: Step)
    requires Inv(s) && Enabled(s, st)
    ensures Injective(Apply(s, st).dir)
  {
    var s' := Apply(s, st);
    if ActorOf(st).Some? { assert Grounded(s.dir, s.data, PcOf(s, st.a)); }
    forall n, m | n in s'.dir && Names(s'.dir, m, s'.dir[n]) ensures n == m {
      var i := s'.dir[n];
      if !Names(s.dir, n, i) { NewBindings(s, st, n); }
      if !Names(s.dir, m, i) { NewBindings(s, st, m); }
    }
  }

  lemma EntriesStep(s: State, st: Step)
    requires Inv(s) && Enabled(s, st)
    ensures EntriesComplete(Apply(s, st))
  {
    var s' := Apply(s, st);
    if ActorOf(st).Some? { assert Grounded(s.dir, s.data, PcOf(s, st.a)); }
    forall d | EntryFile(d) in s'.dir
      ensures s'.dir[EntryFile(d)] in s'.data && (d, s'.data[s'.dir[EntryFile(d)]]) in s'.finished
    {
      var i := s'.dir[EntryFile(d)];
      if Names(s.dir, EntryFile(d), i) {
        assert st.WriteSome? ==> Names(s.dir, TempFile(PcOf(s, st.a).d, PcOf(s, st.a).tag), PcOf(s, st.a).tmp);
        KeepsData(s, st, i);
      } else {
        NewBindings(s, st, EntryFile(d));
        assert st.Rename? && PcOf(s, st.a).bytes[..PcOf(s, st.a).written] == PcOf(s, st.a).bytes;
      }
    }
  }

  lemma ReaderStep(s: State, st: Step, r: nat)
    requires Inv(s) && Enabled(s, st) && r in Apply(s, st).readers
    ensures ReaderOk(Apply(s, st), r)
  {
    var s' := Apply(s, st);
    var rd := s'.readers[r];
    if r in s.readers {
      assert ReaderOk(s, r);
      KeepsData(s, st, rd.i);
    } else {
      assert st.OpenRead? && Names(s.dir, EntryFile(rd.d), rd.i);
    }
    forall a | PcOf(s', a).Writing? ensures PcOf(s', a).tmp != rd.i {
      if ActorOf(st) != Some(a) { OnlyOwnPc(s, st, a); }
      assert Grounded(s.dir, s.data, PcOf(s, a));
    }
  }

  /** Every step keeps the invariant. */
  lemma InvStep(s: State, st: Step)
    requires Inv(s) && Enabled(s, st)
    ensures Inv(Apply(s, st))
  {
    var s' := Apply(s, st);
    ActorsStep(s, st);
    forall a ensures Grounded(s'.dir, s'.data, PcOf(s', a)) {
      if ActorOf(st) != Some(a) { OnlyOwnPc(s, st, a); GroundedOthers(s, st, a); }
      else { GroundedOwn(s, st); }
    }
    InjectiveStep(s, st);
    EntriesStep(s, st);
    forall r | r in s'.readers ensures ReaderOk(s', r) { ReaderStep(s, st, r); }
  }

  lemma {:induction false} InvRun(s: State, steps: seq<Step>)
    requires Inv(s) && Legal(s, steps)
    ensures Inv(Run(s, steps))
    decreases |steps|
  {
    if steps != [] {
      InvStep(s, steps[0]);
      InvRun(Apply(s, steps[0]), steps[1..]);
    }
  }

  /** Every reachable state satisfies the invariant. */
  lemma Reachable(steps: seq<Step>)
    requires Legal(INIT, steps)
    ensures Inv(Run(INIT, steps))
  {
    InvRun(INIT, steps);
  }
}
