/**
 The lock files, entry files and temporary files of one cache root, shared by any number of
 threads, as a state machine over the file-system calls that the cache makes. A step is one such
 call; a run is any interleaving of them, with crashes and I/O errors anywhere.
 */
module LockProtocol {
  import opened Common

  datatype Digest = Digest(hex: string)

  /** An inode number. The system may reuse one that nothing names and nothing has open. */
  type Ino = nat

  datatype Name =
    | EntryFile(d: Digest)
    | TempFile(d: Digest, tag: nat)
    | LockFile(d: Digest)

  /** A thread takes key locks and clears as `Main`; a prune it calls, perhaps while it holds a
      key, runs as its `Pruner` with lock handles of its own. */
  datatype Actor = Main(thread: nat) | Pruner(thread: nat)

  datatype Pc =
    | Idle
    | WantKey(d: Digest)                  // `lock`: waits for the maintenance lock, shared
    | Acquiring(d: Digest)                // `lock_exclusive`: about to open the lock file
    | Opened(d: Digest, i: Ino)           // the lock file is open, its lock not taken
    | Locked(d: Digest, i: Ino)           // its lock is taken, its name not compared
    | Holding(d: Digest, i: Ino)          // a `Held` exists
    | Writing(d: Digest, i: Ino, tag: nat, tmp: Ino, bytes: Bytes, written: nat)
    | Stored(d: Digest, i: Ino)           // the store ended; the `Held` is about to drop
    | Unlinked(d: Digest, i: Ino)         // the name is removed; the file is still locked
    | Leaving                             // only the maintenance lock is left
    | WantPruneShared(wait: bool)
    | WantPruneLock(wait: bool)
    | Pruning                             // holds `prune.lock`, no key
    | WantExclusive
    | Clearing(todo: set<Name>)           // names listed by `clear` and not yet removed

  /** An unlocked read: the inode it opened under `d` and the bytes it has so far. */
  datatype Reader = Reader(d: Digest, i: Ino, got: Bytes)

  /** `finished` records every store that reached its rename, with its complete bytes. */
  datatype State = State(
    procs: map<Actor, Pc>,
    readers: map<nat, Reader>,
    dir: map<Name, Ino>,
    data: map<Ino, Bytes>,
    finished: set<(Digest, Bytes)>)

  const INIT := State(map[], map[], map[], map[], {})

  function PcOf(s: State, a: Actor): Pc {
    if a in s.procs then s.procs[a] else Idle
  }

  /** Has the maintenance lock shared. */
  predicate Shared(p: Pc) {
    !(p.Idle? || p.WantKey? || p.WantPruneShared? || p.WantExclusive? || p.Clearing?)
  }

  /** Has `prune.lock`. */
  predicate PruneLock(a: Actor, p: Pc) {
    a.Pruner? && (p.Pruning? || HasFile(p))
  }

  predicate HasKey(p: Pc) {
    p.Holding? || p.Writing? || p.Stored?
  }

  /** Has a lock file open. */
  predicate HasFile(p: Pc) {
    p.Opened? || HasFlock(p)
  }

  /** Has a lock file open and locked. */
  predicate HasFlock(p: Pc) {
    p.Locked? || HasKey(p) || p.Unlinked?
  }

  predicate Names(dir: map<Name, Ino>, n: Name, i: Ino) {
    n in dir && dir[n] == i
  }

  datatype Step =
    | StartLock(a: Actor, d: Digest)
    | StartPrune(a: Actor, wait: bool)
    | StartClear(a: Actor)
    | TakeShared(a: Actor)
    | RefuseShared(a: Actor)
    | TakePrune(a: Actor)
    | RefusePrune(a: Actor)
    | TakeExclusive(a: Actor)
    | Open(a: Actor, d: Digest, ino: Ino)
    | Flock(a: Actor)
    | WouldBlock(a: Actor)
    | Check(a: Actor)
    | CreateTemp(a: Actor, tag: nat, ino: Ino, bytes: Bytes)
    | WriteSome(a: Actor, count: nat)
    | Rename(a: Actor)
    | Abort(a: Actor)
    | RemoveEntry(a: Actor)
    | RemoveTemp(a: Actor, tag: nat)
    | Unlink(a: Actor)
    | Close(a: Actor)
    | EndPrune(a: Actor)
    | Leave(a: Actor)
    | ClearRemove(a: Actor, name: Name)
    | ClearEnd(a: Actor)
    | IoError(a: Actor)
    | Crash(a: Actor)
    | OpenRead(r: nat, rd: Digest)
    | ReadSome(r: nat, count: nat)
    | CloseRead(r: nat)

  /** A thread inside a prune runs nothing else until that prune returns. */
  ghost predicate Free(s: State, a: Actor) {
    a.Main? ==> PcOf(s, Pruner(a.thread)).Idle?
  }

  /** What the system may hand out as a new inode: anything neither named nor open. */
  ghost predicate Fresh(s: State, i: Ino) {
    && (forall n :: n in s.dir ==> s.dir[n] != i)
    && (forall a :: HasFile(PcOf(s, a)) ==> PcOf(s, a).i != i)
    && (forall a :: PcOf(s, a).Writing? ==> PcOf(s, a).tmp != i)
    && (forall r :: r in s.readers ==> s.readers[r].i != i)
  }

  ghost predicate OthersLock(s: State, a: Actor, i: Ino) {
    exists b :: b != a && HasFlock(PcOf(s, b)) && PcOf(s, b).i == i
  }

  ghost predicate OthersPrune(s: State, a: Actor) {
    exists b :: b != a && PruneLock(b, PcOf(s, b))
  }

  ghost predicate OthersClear(s: State, a: Actor) {
    exists b :: b != a && PcOf(s, b).Clearing?
  }

  ghost predicate OthersShare(s: State, a: Actor) {
    exists b :: b != a && Shared(PcOf(s, b))
  }

  ghost predicate Enabled(s: State, st: Step) {
    match st
    case StartLock(a, d) => a.Main? && Free(s, a) && PcOf(s, a).Idle?
    case StartClear(a) => a.Main? && Free(s, a) && PcOf(s, a).Idle?
    case StartPrune(a, _) =>
      a.Pruner? && PcOf(s, a).Idle? && (PcOf(s, Main(a.thread)).Idle? || PcOf(s, Main(a.thread)).Holding?)
    case TakeShared(a) => (PcOf(s, a).WantKey? || PcOf(s, a).WantPruneShared?) && !OthersClear(s, a)
    case RefuseShared(a) => PcOf(s, a) == WantPruneShared(false) && OthersClear(s, a)
    case TakePrune(a) => PcOf(s, a).WantPruneLock? && !OthersPrune(s, a)
    case RefusePrune(a) => PcOf(s, a) == WantPruneLock(false) && OthersPrune(s, a)
    case TakeExclusive(a) => PcOf(s, a).WantExclusive? && !OthersClear(s, a) && !OthersShare(s, a)
    case Open(a, d, ino) =>
      (PcOf(s, a) == Acquiring(d) || PcOf(s, a).Pruning?) && (LockFile(d) in s.dir || Fresh(s, ino))
    case Flock(a) => PcOf(s, a).Opened? && !OthersLock(s, a, PcOf(s, a).i)
    case WouldBlock(a) => a.Pruner? && PcOf(s, a).Opened? && OthersLock(s, a, PcOf(s, a).i)
    case Check(a) => PcOf(s, a).Locked?
    case CreateTemp(a, tag, ino, bytes) =>
      a.Main? && Free(s, a) && PcOf(s, a).Holding? && TempFile(PcOf(s, a).d, tag) !in s.dir && Fresh(s, ino)
    case WriteSome(a, n) => PcOf(s, a).Writing? && n > 0 && PcOf(s, a).written + n <= |PcOf(s, a).bytes|
    case Rename(a) => PcOf(s, a).Writing? && PcOf(s, a).written == |PcOf(s, a).bytes|
    case Abort(a) => PcOf(s, a).Writing?
    case RemoveEntry(a) => Free(s, a) && PcOf(s, a).Holding?
    case RemoveTemp(a, tag) => a.Pruner? && PcOf(s, a).Holding?
    case Unlink(a) => Free(s, a) && (PcOf(s, a).Holding? || PcOf(s, a).Stored?)
    case Close(a) => PcOf(s, a).Unlinked?
    case EndPrune(a) => PcOf(s, a).Pruning?
    case Leave(a) => PcOf(s, a).Leaving?
    case ClearRemove(a, n) => PcOf(s, a).Clearing? && n in PcOf(s, a).todo
    case ClearEnd(a) => PcOf(s, a) == Clearing({})
    case IoError(a) =>
      var p := PcOf(s, a);
      p.Acquiring? || p.Opened? || p.Locked? || p.Clearing? || p.Writing? || (Free(s, a) && (p.Holding? || p.Stored?))
    case Crash(_) => true
    case OpenRead(r, d) => r !in s.readers && EntryFile(d) in s.dir && s.dir[EntryFile(d)] in s.data
    case ReadSome(r, n) =>
      && r in s.readers && s.readers[r].i in s.data
      && 0 < n && |s.readers[r].got| + n <= |s.data[s.readers[r].i]|
    case CloseRead(r) => r in s.readers
  }

  /** The actor of a step; readers have none. */
  function ActorOf(st: Step): Option<Actor> {
    if st.OpenRead? || st.ReadSome? || st.CloseRead? then None else Some(st.a)
  }

  /** Where an actor goes once it has closed its lock file without a key. */
  function Resume(a: Actor): Pc {
    if a.Main? then Leaving else Pruning
  }

  /** Where a step takes its actor. */
  ghost function PcAfter(s: State, st: Step): Pc
    requires Enabled(s, st) && ActorOf(st).Some?
  {
    var p := PcOf(s, st.a);
    match st
    case StartLock(_, d) => WantKey(d)
    case StartClear(_) => WantExclusive
    case StartPrune(_, wait) => WantPruneShared(wait)
    case TakeShared(_) => if p.WantKey? then Acquiring(p.d) else WantPruneLock(p.wait)
    case RefuseShared(_) => Idle
    case TakePrune(_) => Pruning
    case RefusePrune(_) => Leaving
    case TakeExclusive(_) => Clearing(s.dir.Keys)
    case Open(_, d, ino) => Opened(d, if LockFile(d) in s.dir then s.dir[LockFile(d)] else ino)
    case Flock(_) => Locked(p.d, p.i)
    case WouldBlock(_) => Pruning
    case Check(a) =>
      if Names(s.dir, LockFile(p.d), p.i) then Holding(p.d, p.i)
      else if a.Main? then Acquiring(p.d) else Pruning
    case CreateTemp(_, tag, ino, bytes) => Writing(p.d, p.i, tag, ino, bytes, 0)
    case WriteSome(_, n) => p.(written := p.written + n)
    case Rename(_) => Stored(p.d, p.i)
    case Abort(_) => Stored(p.d, p.i)
    case RemoveEntry(_) => p
    case RemoveTemp(_, _) => p
    case Unlink(_) => Unlinked(p.d, p.i)
    case Close(a) => Resume(a)
    case EndPrune(_) => Leaving
    case Leave(_) => Idle
    case ClearRemove(_, n) => Clearing(p.todo - {n})
    case ClearEnd(_) => Idle
    // A failed write may fail to remove its temporary file; a drop that fails to unlink still
    // closes its file, and nobody hears of it.
    case IoError(a) =>
      if p.Clearing? then Idle
      else if p.Writing? then Stored(p.d, p.i)
      else if HasKey(p) then Resume(a)
      else Leaving
    case Crash(_) => Idle
  }

  /** `rename(2)` of the temporary file over the entry. Whatever the temporary name names moves. */
  function MoveTemp(dir: map<Name, Ino>, d: Digest, tag: nat): map<Name, Ino> {
    if TempFile(d, tag) in dir
    then (dir - {TempFile(d, tag)})[EntryFile(d) := dir[TempFile(d, tag)]]
    else dir
  }

  /** What the directory names after a step. */
  ghost function DirAfter(s: State, st: Step): map<Name, Ino>
    requires Enabled(s, st)
  {
    match st
    case Open(_, d, ino) => if LockFile(d) in s.dir then s.dir else s.dir[LockFile(d) := ino]
    case CreateTemp(a, tag, ino, _) => s.dir[TempFile(PcOf(s, a).d, tag) := ino]
    case Rename(a) => MoveTemp(s.dir, PcOf(s, a).d, PcOf(s, a).tag)
    case Abort(a) => s.dir - {TempFile(PcOf(s, a).d, PcOf(s, a).tag)}
    case RemoveEntry(a) => s.dir - {EntryFile(PcOf(s, a).d)}
    case RemoveTemp(a, tag) => s.dir - {TempFile(PcOf(s, a).d, tag)}
    case Unlink(a) => s.dir - {LockFile(PcOf(s, a).d)}
    case ClearRemove(_, n) => s.dir - {n}
    case _ => s.dir
  }

  /** What the inodes hold after a step. */
  ghost function DataAfter(s: State, st: Step): map<Ino, Bytes>
    requires Enabled(s, st)
  {
    match st
    case CreateTemp(_, _, ino, _) => s.data[ino := ""]
    case WriteSome(a, n) =>
      var p := PcOf(s, a);
      var sofar := if p.tmp in s.data then s.data[p.tmp] else "";
      s.data[p.tmp := sofar + p.bytes[p.written..p.written + n]]
    case _ => s.data
  }

  ghost function ReadersAfter(s: State, st: Step): map<nat, Reader>
    requires Enabled(s, st)
  {
    match st
    case OpenRead(r, d) => s.readers[r := Reader(d, s.dir[EntryFile(d)], "")]
    case ReadSome(r, n) =>
      var rd := s.readers[r];
      s.readers[r := rd.(got := rd.got + s.data[rd.i][|rd.got|..|rd.got| + n])]
    case CloseRead(r) => s.readers - {r}
    case _ => s.readers
  }

  ghost function Apply(s: State, st: Step): State
    requires Enabled(s, st)
  {
    State(
      if ActorOf(st).Some? then s.procs[st.a := PcAfter(s, st)] else s.procs,
      ReadersAfter(s, st),
      DirAfter(s, st),
      DataAfter(s, st),
      if st.Rename? then s.finished + {(PcOf(s, st.a).d, PcOf(s, st.a).bytes)} else s.finished)
  }

  /** Every step of `steps` is enabled in its turn. */
  ghost predicate Legal(s: State, steps: seq<Step>)
    decreases |steps|
  {
    steps == [] || (Enabled(s, steps[0]) && Legal(Apply(s, steps[0]), steps[1..]))
  }

  ghost function Run(s: State, steps: seq<Step>): State
    requires Legal(s, steps)
    decreases |steps|
  {
    if steps == [] then s else Run(Apply(s, steps[0]), steps[1..])
  }
}
