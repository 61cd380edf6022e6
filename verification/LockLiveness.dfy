/** Lock files do not leak, retries are paid for, and some operation can always go on. */
module LockLiveness {
  import opened Common
  import opened LockProtocol
  import opened LockInvariant

  // ---- No leaked lock files ----

  /** Somebody who will still unlink it, or hand it to somebody who will, has inode `i` open. */
  predicate Keeps(p: Pc, d: Digest, i: Ino) {
    HasFile(p) && !p.Unlinked? && p.d == d && p.i == i
  }

  ghost predicate Attended(s: State, d: Digest) {
    LockFile(d) in s.dir ==> exists a :: Keeps(PcOf(s, a), d, s.dir[LockFile(d)])
  }

  /** Neither a crash nor an I/O error. */
  predicate Orderly(st: Step) {
    !st.Crash? && !st.IoError?
  }

  /** Whoever has locked the inode a lock path names opened it as that path's file. */
  lemma LockerKeeps(s: State, b: Actor, d: Digest)
    requires Inv(s) && LockFile(d) in s.dir && HasFlock(PcOf(s, b)) && PcOf(s, b).i == s.dir[LockFile(d)]
    ensures Keeps(PcOf(s, b), d, s.dir[LockFile(d)])
  {
    assert Grounded(s.dir, s.data, PcOf(s, b));
    assert Names(s.dir, LockFile(d), PcOf(s, b).i);
    assert Injective(s.dir);
  }

  /** The keeper of a lock file that stays keeps it, or a locker it lost to does. */
  lemma KeeperStep(s: State, st: Step, d: Digest, a: Actor)
    requires Inv(s) && Enabled(s, st) && Orderly(st)
    requires LockFile(d) in s.dir && LockFile(d) in Apply(s, st).dir
    requires Keeps(PcOf(s, a), d, s.dir[LockFile(d)])
    ensures Attended(Apply(s, st), d)
  {
    var s' := Apply(s, st);
    var i := s.dir[LockFile(d)];
    assert s'.dir[LockFile(d)] == i by {
      if !Names(s'.dir, LockFile(d), i) { NewBindings(s, st, LockFile(d)); }
    }
    if ActorOf(st) != Some(a) {
      OnlyOwnPc(s, st, a);
      assert Keeps(PcOf(s', a), d, i);
    } else if st.WouldBlock? {
      var b :| b != a && HasFlock(PcOf(s, b)) && PcOf(s, b).i == i;
      LockerKeeps(s, b, d);
      OnlyOwnPc(s, st, b);
      assert Keeps(PcOf(s', b), d, i);
    } else {
      assert RoleOk(a, PcOf(s, a));
      assert Keeps(PcOf(s', a), d, i);
    }
  }

  lemma AttendedStep(s: State, st: Step, d: Digest)
    requires Inv(s) && Enabled(s, st) && Orderly(st) && Attended(s, d)
    ensures Attended(Apply(s, st), d)
  {
    var s' := Apply(s, st);
    if LockFile(d) in s.dir && LockFile(d) in s'.dir {
      var a :| Keeps(PcOf(s, a), d, s.dir[LockFile(d)]);
      KeeperStep(s, st, d, a);
    } else if LockFile(d) in s'.dir {
      NewBindings(s, st, LockFile(d));
      assert Keeps(PcOf(s', st.a), d, s'.dir[LockFile(d)]);
    }
  }

  lemma {:induction false} AttendedRun(s: State, steps: seq<Step>, d: Digest)
    requires Inv(s) && Legal(s, steps) && Attended(s, d)
    requires forall k :: 0 <= k < |steps| ==> Orderly(steps[k])
    ensures Attended(Run(s, steps), d)
    decreases |steps|
  {
    if steps != [] {
      AttendedStep(s, steps[0], d);
      InvStep(s, steps[0]);
      AttendedRun(Apply(s, steps[0]), steps[1..], d);
    }
  }

  /** Without crashes and I/O errors, a lock path that names an inode has somebody acquiring or
      holding that inode; so once everybody is idle no lock file is left. */
  lemma {:induction false} NoLeakedLockFiles(steps: seq<Step>, d: Digest)
    requires Legal(INIT, steps)
    requires forall k :: 0 <= k < |steps| ==> Orderly(steps[k])
    ensures var s := Run(INIT, steps);
            && Attended(s, d)
            && ((forall a :: PcOf(s, a).Idle?) ==> LockFile(d) !in s.dir)
  {
    assert Attended(INIT, d);
    AttendedRun(INIT, steps, d);
  }

  /** A sweep that comes to the lock file of `d`: it is refused when somebody has the file
      locked, and otherwise takes the lock, finds the name its own, and removes it. */
  function Sweep(a: Actor, d: Digest, held: bool): seq<Step> {
    if held then [Open(a, d, 0), WouldBlock(a)] else [Open(a, d, 0), Flock(a), Check(a), Unlink(a), Close(a)]
  }

  /** A first step and a run from the state it leaves. */
  lemma {:induction false} RunCons(s: State, first: Step, next: State, rest: seq<Step>)
    requires Enabled(s, first) && next == Apply(s, first) && Legal(next, rest)
    ensures Legal(s, [first] + rest) && Run(s, [first] + rest) == Run(next, rest)
  {
    assert ([first] + rest)[1..] == rest;
  }

  /** One step after a run whose first step leaves `next`. */
  lemma {:induction false} AppendBehind(s: State, first: Step, next: State, rest: seq<Step>, x: Step)
    requires Enabled(s, first) && next == Apply(s, first) && Legal(next, rest + [x])
    ensures Legal(s, [first] + rest + [x]) && Run(s, [first] + rest + [x]) == Run(next, rest + [x])
  {
    RunCons(s, first, next, rest + [x]);
    assert [first] + rest + [x] == [first] + (rest + [x]);
  }

  lemma {:induction false} RunAppend(s: State, steps: seq<Step>, x: Step)
    requires Legal(s, steps) && Enabled(Run(s, steps), x)
    ensures Legal(s, steps + [x]) && Run(s, steps + [x]) == Apply(Run(s, steps), x)
    decreases |steps|
  {
    if steps == [] {
      RunCons(s, x, Apply(s, x), []);
      assert [x] + [] == [] + [x];
    } else {
      var first, rest, next := steps[0], steps[1..], Apply(s, steps[0]);
      RunAppend(next, rest, x);
      AppendBehind(s, first, next, rest, x);
      assert steps == [first] + rest;
    }
  }

  lemma SweepOpens(s: State, a: Actor, d: Digest)
    requires Inv(s) && PcOf(s, a).Pruning? && LockFile(d) in s.dir
    ensures a.Pruner?
    ensures Legal(s, [Open(a, d, 0)])
    ensures Run(s, [Open(a, d, 0)]) == s.(procs := s.procs[a := Opened(d, s.dir[LockFile(d)])])
    ensures var s1 := s.(procs := s.procs[a := Opened(d, s.dir[LockFile(d)])]);
            OthersLock(s1, a, s.dir[LockFile(d)]) <==> OthersLock(s, a, s.dir[LockFile(d)])
  {
    assert RoleOk(a, PcOf(s, a));
    RunAppend(s, [], Open(a, d, 0));
    assert [] + [Open(a, d, 0)] == [Open(a, d, 0)];
    var s1 := s.(procs := s.procs[a := Opened(d, s.dir[LockFile(d)])]);
    assert forall b :: b != a ==> PcOf(s1, b) == PcOf(s, b);
  }

  lemma SweepLocks(s: State, a: Actor, d: Digest)
    requires Inv(s) && PcOf(s, a).Pruning? && LockFile(d) in s.dir && !OthersLock(s, a, s.dir[LockFile(d)])
    ensures Legal(s, [Open(a, d, 0), Flock(a), Check(a)])
    ensures var s3 := Run(s, [Open(a, d, 0), Flock(a), Check(a)]);
            s3.dir == s.dir && PcOf(s3, a) == Holding(d, s.dir[LockFile(d)])
  {
    SweepOpens(s, a, d);
    RunAppend(s, [Open(a, d, 0)], Flock(a));
    assert [Open(a, d, 0)] + [Flock(a)] == [Open(a, d, 0), Flock(a)];
    RunAppend(s, [Open(a, d, 0), Flock(a)], Check(a));
    assert [Open(a, d, 0), Flock(a)] + [Check(a)] == [Open(a, d, 0), Flock(a), Check(a)];
  }

  lemma {:induction false} SweepUnlinks(s: State, a: Actor, d: Digest)
    requires Inv(s) && PcOf(s, a).Pruning? && LockFile(d) in s.dir && !OthersLock(s, a, s.dir[LockFile(d)])
    ensures Legal(s, Sweep(a, d, false))
    ensures var s5 := Run(s, Sweep(a, d, false)); PcOf(s5, a).Pruning? && s5.dir == s.dir - {LockFile(d)}
  {
    assert a.Pruner? by { SweepOpens(s, a, d); }
    SweepLocks(s, a, d);
    var three := [Open(a, d, 0), Flock(a), Check(a)];
    RunAppend(s, three, Unlink(a));
    RunAppend(s, three + [Unlink(a)], Close(a));
    assert three + [Unlink(a)] + [Close(a)] == Sweep(a, d, false);
  }

  /** The next sweep removes a lock file left by a crash, and never one that somebody has locked. */
  lemma SweepRemovesExactlyLeftovers(s: State, a: Actor, d: Digest)
    requires Inv(s) && PcOf(s, a).Pruning? && LockFile(d) in s.dir
    ensures var steps := Sweep(a, d, OthersLock(s, a, s.dir[LockFile(d)]));
            && Legal(s, steps)
            && PcOf(Run(s, steps), a).Pruning?
            && Run(s, steps).dir == (if OthersLock(s, a, s.dir[LockFile(d)]) then s.dir else s.dir - {LockFile(d)})
  {
    if OthersLock(s, a, s.dir[LockFile(d)]) {
      SweepOpens(s, a, d);
      RunAppend(s, [Open(a, d, 0)], WouldBlock(a));
      assert [Open(a, d, 0)] + [WouldBlock(a)] == Sweep(a, d, true);
    } else {
      SweepUnlinks(s, a, d);
    }
  }

  // ---- Bounded retry ----

  /** `a` has open a lock file that its path no longer names, so its check must fail. */
  predicate Doomed(s: State, a: Actor) {
    var p := PcOf(s, a);
    (p.Opened? || p.Locked?) && !Names(s.dir, LockFile(p.d), p.i)
  }

  /** A `lock_exclusive` of `a` that goes round its loop again. */
  predicate Retries(s: State, st: Step, a: Actor) {
    st == Check(a) && a.Main? && PcOf(s, a).Locked? && !Names(s.dir, LockFile(PcOf(s, a).d), PcOf(s, a).i)
  }

  /** An unlink, by another actor, of the lock path that `a` is between its open and its check of. */
  predicate UnlinkByOther(s: State, st: Step, a: Actor) {
    && (PcOf(s, a).Opened? || PcOf(s, a).Locked?)
    && st.Unlink? && st.a != a && HasKey(PcOf(s, st.a)) && PcOf(s, st.a).d == PcOf(s, a).d
  }

  ghost function CountRetries(s: State, steps: seq<Step>, a: Actor): nat
    requires Legal(s, steps)
    decreases |steps|
  {
    if steps == [] then 0
    else (if Retries(s, steps[0], a) then 1 else 0) + CountRetries(Apply(s, steps[0]), steps[1..], a)
  }

  /** Unlinks, by others, of the lock path of `a`, each between an open and the check after it. */
  ghost function CountUnlinks(s: State, steps: seq<Step>, a: Actor): nat
    requires Legal(s, steps)
    decreases |steps|
  {
    if steps == [] then 0
    else (if UnlinkByOther(s, steps[0], a) then 1 else 0) + CountUnlinks(Apply(s, steps[0]), steps[1..], a)
  }

  function Bit(b: bool): nat {
    if b then 1 else 0
  }

  lemma PaidStep(s: State, st: Step, a: Actor)
    requires Inv(s) && Enabled(s, st)
    ensures Bit(Retries(s, st, a)) + Bit(Doomed(Apply(s, st), a)) <= Bit(UnlinkByOther(s, st, a)) + Bit(Doomed(s, a))
  {
    var s', p := Apply(s, st), PcOf(s, a);
    if ActorOf(st) == Some(a) {
      assert Retries(s, st, a) ==> Doomed(s, a) && !Doomed(s', a);
      assert Doomed(s', a) ==> Doomed(s, a);
    } else {
      OnlyOwnPc(s, st, a);
      if Doomed(s', a) && !Doomed(s, a) {
        OnlyUnlinkDooms(s, st, a);
      }
    }
  }

  /** Only a holder's unlink takes the name away from a file that somebody is acquiring. */
  lemma OnlyUnlinkDooms(s: State, st: Step, a: Actor)
    requires Inv(s) && Enabled(s, st) && ActorOf(st) != Some(a)
    requires var p := PcOf(s, a); (p.Opened? || p.Locked?) && Names(s.dir, LockFile(p.d), p.i)
    requires !Names(Apply(s, st).dir, LockFile(PcOf(s, a).d), PcOf(s, a).i)
    ensures UnlinkByOther(s, st, a)
  {
    var p := PcOf(s, a);
    if LockFile(p.d) !in Target(s, st) { OffTarget(s, st, LockFile(p.d)); }
    assert Compatible(st.a, PcOf(s, st.a), a, p);
  }

  /** Over every run from a reachable state, the retries of `a` are at most the unlinks by others
      of the path it was acquiring; each retry has one between its open and its check. */
  lemma {:induction false} RetriesArePaidFor(s: State, steps: seq<Step>, a: Actor)
    requires Inv(s) && Legal(s, steps)
    ensures CountRetries(s, steps, a) + Bit(Doomed(Run(s, steps), a)) <= CountUnlinks(s, steps, a) + Bit(Doomed(s, a))
    decreases |steps|
  {
    if steps != [] {
      PaidStep(s, steps[0], a);
      InvStep(s, steps[0]);
      RetriesArePaidFor(Apply(s, steps[0]), steps[1..], a);
    }
  }

  // ---- Deadlock freedom ----

  /** A step of an operation in progress, other than a failure. */
  predicate Progress(st: Step) {
    ActorOf(st).Some? && Orderly(st) && !st.Abort? && !st.StartLock? && !st.StartPrune? && !st.StartClear?
  }

  ghost predicate CanStep(s: State, a: Actor) {
    exists st :: Progress(st) && st.a == a && Enabled(s, st)
  }

  /** Finitely many inodes are in use, so the system can always hand out another. */
  lemma FreshExists(s: State) returns (i: Ino)
    ensures Fresh(s, i)
  {
    var used := (set n | n in s.dir :: s.dir[n])
              + (set a | a in s.procs && HasFile(s.procs[a]) :: s.procs[a].i)
              + (set a | a in s.procs && s.procs[a].Writing? :: s.procs[a].tmp)
              + (set r | r in s.readers :: s.readers[r].i);
    i := Above(used);
    forall n | n in s.dir ensures s.dir[n] in used { }
    forall a | HasFile(PcOf(s, a)) ensures PcOf(s, a).i in used { }
    forall a | PcOf(s, a).Writing? ensures PcOf(s, a).tmp in used { }
    forall r | r in s.readers ensures s.readers[r].i in used { }
  }

  lemma Above(used: set<Ino>) returns (i: Ino)
    ensures forall j :: j in used ==> j < i
    decreases used
  {
    if used == {} {
      i := 0;
    } else {
      var x :| x in used;
      var rest := Above(used - {x});
      i := if rest <= x then x + 1 else rest;
      assert forall j :: j in used ==> j == x || j in used - {x};
    }
  }

  /** An actor at a program point where it waits for nobody can go on. */
  lemma Unblocked(s: State, a: Actor)
    requires Inv(s) && Free(s, a)
    requires var p := PcOf(s, a);
             !(p.Idle? || p.WantKey? || p.WantExclusive? || p.WantPruneShared? || p.WantPruneLock? || p.Opened?)
    ensures CanStep(s, a)
  {
    var p := PcOf(s, a);
    assert RoleOk(a, p);
    var st :=
      match p
      case Acquiring(d) => var i := FreshIno(s); Open(a, d, i)
      case Locked(_, _) => Check(a)
      case Holding(_, _) => Unlink(a)
      case Stored(_, _) => Unlink(a)
      case Writing(_, _, _, _, bytes, k) => if k == |bytes| then Rename(a) else WriteSome(a, 1)
      case Unlinked(_, _) => Close(a)
      case Leaving => Leave(a)
      case Pruning => EndPrune(a)
      case Clearing(todo) => if todo == {} then ClearEnd(a) else (var n :| n in todo; ClearRemove(a, n))
      case _ => Leave(a);
    assert Grounded(s.dir, s.data, p);
    assert Progress(st) && st.a == a && Enabled(s, st);
  }

  ghost function FreshIno(s: State): (i: Ino)
    ensures Fresh(s, i)
  {
    assert exists i :: Fresh(s, i) by { var i := FreshExists(s); }
    var i :| Fresh(s, i); i
  }

  /** The holder of `prune.lock` never waits. */
  lemma PruneHolderNeverWaits(s: State, a: Actor)
    requires Inv(s) && PruneLock(a, PcOf(s, a))
    ensures CanStep(s, a)
  {
    var p := PcOf(s, a);
    if p.Opened? {
      var st := if OthersLock(s, a, p.i) then WouldBlock(a) else Flock(a);
      assert Progress(st) && st.a == a && Enabled(s, st);
    } else {
      Unblocked(s, a);
    }
  }

  /** Clear never waits once it has the maintenance lock. */
  lemma ClearerSteps(s: State, b: Actor)
    requires Inv(s) && PcOf(s, b).Clearing?
    ensures CanStep(s, b)
  {
    assert RoleOk(b, PcOf(s, b));
    assert PcOf(s, Pruner(b.thread)).Idle? || PcOf(s, Main(b.thread)).Idle? || PcOf(s, Main(b.thread)).Holding?;
    Unblocked(s, b);
  }

  /** A prune in progress goes on, or whoever it waits for does. */
  lemma PrunerProgress(s: State, a: Actor) returns (c: Actor)
    requires Inv(s) && a.Pruner? && !PcOf(s, a).Idle?
    ensures CanStep(s, c)
  {
    var p := PcOf(s, a);
    assert RoleOk(a, p);
    c := a;
    if p.WantPruneShared? {
      if OthersClear(s, a) {
        c :| c != a && PcOf(s, c).Clearing?;
        ClearerSteps(s, c);
      } else {
        assert Enabled(s, TakeShared(a)) && Progress(TakeShared(a));
      }
    } else if p.WantPruneLock? {
      if OthersPrune(s, a) {
        c :| c != a && PruneLock(c, PcOf(s, c));
        PruneHolderNeverWaits(s, c);
      } else {
        assert Enabled(s, TakePrune(a)) && Progress(TakePrune(a));
      }
    } else if p.Leaving? {
      Unblocked(s, a);
    } else {
      PruneHolderNeverWaits(s, a);
    }
  }

  /** Somebody past the maintenance lock goes on, or whoever it waits for does. */
  lemma SharerProgress(s: State, a: Actor) returns (c: Actor)
    requires Inv(s) && Shared(PcOf(s, a))
    ensures CanStep(s, c)
  {
    var p := PcOf(s, a);
    if !Free(s, a) {
      c := PrunerProgress(s, Pruner(a.thread));
    } else if a.Pruner? {
      c := PrunerProgress(s, a);
    } else if p.Opened? && OthersLock(s, a, p.i) {
      c :| c != a && HasFlock(PcOf(s, c)) && PcOf(s, c).i == p.i;
      if Free(s, c) { Unblocked(s, c); } else { c := PrunerProgress(s, Pruner(c.thread)); }
    } else if p.Opened? {
      c := a;
      assert Enabled(s, Flock(a)) && Progress(Flock(a));
    } else {
      c := a;
      assert RoleOk(a, p);
      Unblocked(s, a);
    }
  }

  /** Deadlock freedom: in every reachable state in which an operation is in progress, some
      operation in progress can go on, without a crash or an error. */
  lemma {:induction false} DeadlockFree(steps: seq<Step>, a: Actor)
    requires Legal(INIT, steps) && !PcOf(Run(INIT, steps), a).Idle?
    ensures exists c :: CanStep(Run(INIT, steps), c)
  {
    Reachable(steps);
    var s := Run(INIT, steps);
    var p := PcOf(s, a);
    assert RoleOk(a, p);
    if a.Pruner? {
      var c := PrunerProgress(s, a);
    } else if Shared(p) {
      var c := SharerProgress(s, a);
    } else if p.Clearing? {
      ClearerSteps(s, a);
    } else if OthersClear(s, a) {
      var c :| c != a && PcOf(s, c).Clearing?;
      ClearerSteps(s, c);
    } else if p.WantExclusive? && OthersShare(s, a) {
      var b :| b != a && Shared(PcOf(s, b));
      var c := SharerProgress(s, b);
    } else {
      var st := if p.WantKey? then TakeShared(a) else TakeExclusive(a);
      assert Progress(st) && st.a == a && Enabled(s, st);
      assert CanStep(s, a);
    }
  }
}
