/** What the lock protocol promises over whole runs. */
module LockTheorems {
  import opened Common
  import opened LockProtocol
  import opened LockInvariant

  // ---- Exclusion and single writers ----

  /** In every run, with crashes and I/O errors anywhere, at most one actor holds a key. */
  lemma {:induction false} MutualExclusion(steps: seq<Step>, a: Actor, b: Actor)
    requires Legal(INIT, steps)
    requires var s := Run(INIT, steps);
             HasKey(PcOf(s, a)) && HasKey(PcOf(s, b)) && PcOf(s, a).d == PcOf(s, b).d
    ensures a == b
  {
    Reachable(steps);
    OneHolder(Run(INIT, steps), a, b);
  }

  /** A holder's drop finds its own inode at the path, and leaves that inode without a name. */
  lemma {:induction false} DropUnlinksOwnInode(steps: seq<Step>, a: Actor)
    requires Legal(INIT, steps) && Enabled(Run(INIT, steps), Unlink(a))
    ensures var s := Run(INIT, steps);
            var p := PcOf(s, a);
            && Names(s.dir, LockFile(p.d), p.i)
            && forall n :: !Names(Apply(s, Unlink(a)).dir, n, p.i)
  {
    Reachable(steps);
    var s := Run(INIT, steps);
    assert Grounded(s.dir, s.data, PcOf(s, a));
    GroundedUnlink(s, Unlink(a));
  }

  /** What a name shows: its inode, and that inode's bytes. */
  function View(s: State, n: Name): Option<(Ino, Option<Bytes>)> {
    if n !in s.dir then None
    else Some((s.dir[n], if s.dir[n] in s.data then Some(s.data[s.dir[n]]) else None))
  }

  /** The right to change the files of `d`: its lock, held by no one else; or the maintenance
      lock, while no one else holds or is acquiring any key. */
  ghost predicate Authorized(s: State, a: Actor, d: Digest) {
    || (&& HasKey(PcOf(s, a)) && PcOf(s, a).d == d
        && forall b :: b != a ==> !(HasKey(PcOf(s, b)) && PcOf(s, b).d == d))
    || (PcOf(s, a).Clearing? && forall b :: b != a ==> !Shared(PcOf(s, b)) && !PcOf(s, b).Clearing?)
  }

  lemma AuthorizedHolder(s: State, a: Actor)
    requires Inv(s) && HasKey(PcOf(s, a))
    ensures Authorized(s, a, PcOf(s, a).d)
  {
    forall b | HasKey(PcOf(s, b)) && PcOf(s, b).d == PcOf(s, a).d ensures b == a { OneHolder(s, a, b); }
  }

  lemma AuthorizedClear(s: State, a: Actor, d: Digest)
    requires Inv(s) && PcOf(s, a).Clearing?
    ensures Authorized(s, a, d)
  {
    assert forall b :: b != a ==> Compatible(a, PcOf(s, a), b, PcOf(s, b));
  }

  lemma ViewKept(s: State, st: Step, n: Name)
    requires Inv(s) && Enabled(s, st) && n !in Target(s, st)
    requires st.WriteSome? ==> n != TempFile(PcOf(s, st.a).d, PcOf(s, st.a).tag)
    ensures View(Apply(s, st), n) == View(s, n)
  {
    OffTarget(s, st, n);
    if n in s.dir {
      if st.WriteSome? { assert Grounded(s.dir, s.data, PcOf(s, st.a)); }
      if s.dir[n] in s.data { KeepsData(s, st, s.dir[n]); }
    }
  }

  /** Every change to an entry or temporary file, by anyone, in any run, is by an authorized actor. */
  lemma {:induction false} SingleWriter(steps: seq<Step>, st: Step, n: Name)
    requires Legal(INIT, steps) && Enabled(Run(INIT, steps), st) && !n.LockFile?
    requires View(Apply(Run(INIT, steps), st), n) != View(Run(INIT, steps), n)
    ensures ActorOf(st).Some? && Authorized(Run(INIT, steps), st.a, n.d)
  {
    Reachable(steps);
    var s := Run(INIT, steps);
    if n in Target(s, st) || st.WriteSome? {
      if HasKey(PcOf(s, st.a)) { AuthorizedHolder(s, st.a); } else { AuthorizedClear(s, st.a, n.d); }
    }
    if n !in Target(s, st) && !(st.WriteSome? && n == TempFile(PcOf(s, st.a).d, PcOf(s, st.a).tag)) {
      ViewKept(s, st, n);
    }
  }

  /** No step of another actor, a prune included, changes the files of a key somebody holds. */
  lemma {:induction false} HeldFilesAreSpared(steps: seq<Step>, st: Step, b: Actor, n: Name)
    requires Legal(INIT, steps) && Enabled(Run(INIT, steps), st) && ActorOf(st) != Some(b)
    requires var q := PcOf(Run(INIT, steps), b); HasKey(q) && !n.LockFile? && n.d == q.d
    ensures View(Apply(Run(INIT, steps), st), n) == View(Run(INIT, steps), n)
  {
    var s := Run(INIT, steps);
    assert HasKey(PcOf(s, b)) && Shared(PcOf(s, b));
    if View(Apply(s, st), n) != View(s, n) {
      SingleWriter(steps, st, n);
    }
  }

  // ---- Atomic stores ----

  /** Each entry path is absent or holds the complete bytes of one finished store. */
  lemma {:induction false} StoresAreAtomic(steps: seq<Step>, d: Digest)
    requires Legal(INIT, steps) && EntryFile(d) in Run(INIT, steps).dir
    ensures var s := Run(INIT, steps);
            exists bytes ::
              View(s, EntryFile(d)) == Some((s.dir[EntryFile(d)], Some(bytes))) && (d, bytes) in s.finished
  {
    Reachable(steps);
    var s := Run(INIT, steps);
    assert View(s, EntryFile(d)) == Some((s.dir[EntryFile(d)], Some(s.data[s.dir[EntryFile(d)]])));
  }

  /** A store is finished only by the rename of a temporary file that holds all its bytes. */
  lemma {:induction false} FinishedIsWritten(steps: seq<Step>, st: Step, d: Digest, bytes: Bytes)
    requires Legal(INIT, steps) && Enabled(Run(INIT, steps), st)
    requires (d, bytes) in Apply(Run(INIT, steps), st).finished && (d, bytes) !in Run(INIT, steps).finished
    ensures var s := Run(INIT, steps);
            && st.Rename? && PcOf(s, st.a).Writing? && PcOf(s, st.a).d == d && PcOf(s, st.a).bytes == bytes
            && View(s, TempFile(d, PcOf(s, st.a).tag)) == Some((PcOf(s, st.a).tmp, Some(bytes)))
            && View(Apply(s, st), EntryFile(d)) == Some((PcOf(s, st.a).tmp, Some(bytes)))
  {
    Reachable(steps);
    var s := Run(INIT, steps);
    var p := PcOf(s, st.a);
    assert Grounded(s.dir, s.data, p);
    assert p.bytes[..|p.bytes|] == p.bytes;
  }

  /** A reader that got to the end of the file it opened has the bytes of one finished store,
      whatever was renamed over or removed meanwhile. */
  lemma {:induction false} ReaderGetsOneStore(steps: seq<Step>, r: nat)
    requires Legal(INIT, steps) && r in Run(INIT, steps).readers
    ensures var s := Run(INIT, steps);
            var rd := s.readers[r];
            && rd.i in s.data && rd.got <= s.data[rd.i] && (rd.d, s.data[rd.i]) in s.finished
            && (|rd.got| == |s.data[rd.i]| ==> (rd.d, rd.got) in s.finished)
  {
    Reachable(steps);
    var s := Run(INIT, steps);
    assert ReaderOk(s, r);
    var rd := s.readers[r];
    if |rd.got| == |s.data[rd.i]| { assert rd.got == s.data[rd.i]; }
  }

  /** A clear that ends leaves no entry, no temporary file and no lock file. */
  lemma {:induction false} ClearEmptiesTheRoot(steps: seq<Step>, a: Actor)
    requires Legal(INIT, steps) && Enabled(Run(INIT, steps), ClearEnd(a))
    ensures Run(INIT, steps).dir == map[]
  {
    Reachable(steps);
    var s := Run(INIT, steps);
    assert Grounded(s.dir, s.data, PcOf(s, a));
    assert s.dir.Keys == {};
  }
}
