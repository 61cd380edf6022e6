/** The operations of one process on its cache, and the directory that a run of them leaves. */
module CacheRuns {
  import opened Common
  import opened EntryFormat
  import opened FileNames
  import opened Lookup
  import opened PruneSpec

  /** What a cache is opened with. */
  datatype Setup = Setup(schema: nat, limits: Limits)

  /** The entries, and the time of the last prune as `prune.lock` records it. */
  datatype World = World(entries: Dir, prunedAt: nat)

  /** The clock samples that one store takes, in turn: for its header, for its file, for the sweep
      check and for the prune. */
  datatype Clock = Clock(header: nat, file: nat, sweep: nat, prune: nat)

  datatype StoreCall = StoreCall(key: Key, value: ValueText, policy: Policy, clock: Clock)

  /** The serialized entry. */
  function EntryBytes(setup: Setup, call: StoreCall): Bytes {
    Print(HeaderFor(call.key, setup.schema, call.clock.header, call.policy), call.value)
  }

  predicate TooBig(setup: Setup, call: StoreCall) {
    |EntryBytes(setup, call)| > setup.limits.maxEntryBytes
  }

  /** The directory in the middle of a store: the entry is in place and nothing is pruned. */
  function Written(setup: Setup, files: Dir, call: StoreCall): Dir {
    files[EntryName(call.key.digest) := Regular(EntryBytes(setup, call), call.clock.file)]
  }

  /** Whether a prune is due after the write. */
  ghost predicate Due(setup: Setup, w: World, call: StoreCall) {
    || Over(UsageOf(Written(setup, w.entries, call)), setup.limits)
    || SatSub(call.clock.sweep, w.prunedAt) > setup.limits.sweepEvery
  }

  /** What a store leaves, with the keys `held` by others; `free` says whether a prune could take
      its locks. */
  ghost function AfterStore(setup: Setup, w: World, call: StoreCall, held: set<string>, free: bool): World {
    var written := Written(setup, w.entries, call);
    if TooBig(setup, call) then w
    else if Due(setup, w, call) && free
    then World(Pruned(written, Context(held, call.clock.prune, setup.limits)), call.clock.prune)
    else World(written, w.prunedAt)
  }

  function EntryOf(files: Dir, key: Key): Option<File> {
    if EntryName(key.digest) in files then Some(files[EntryName(key.digest)]) else None
  }

  /** The directory after a read with this effect. */
  function Visited(files: Dir, key: Key, effect: Effect, locked: bool, now: nat): Dir {
    match AfterRead(EntryOf(files, key), effect, locked, now)
    case None => files - {EntryName(key.digest)}
    case Some(file) => files[EntryName(key.digest) := file]
  }

  // ---- Runs ----

  datatype Op =
    | Store(call: StoreCall)
    | Get(key: Key, locked: bool, now: nat, decode: Bytes -> Option<Bytes>)
    | Prune(at: nat)

  /** The longest byte vector: `isize::MAX` on a 64-bit system. */
  const VEC_MAX: nat := 0x7fff_ffff_ffff_ffff

  /** A key's digest is 64 hex digits, the clock has 64 bits, and the serialized entry exists. */
  predicate OpOk(setup: Setup, op: Op) {
    op.Store? ==>
      && IsDigest(op.call.key.digest)
      && op.call.clock.header <= U64_MAX
      && |EntryBytes(setup, op.call)| <= VEC_MAX
  }

  predicate OpsOk(setup: Setup, ops: seq<Op>) {
    forall k :: 0 <= k < |ops| ==> OpOk(setup, ops[k])
  }

  /** One operation, with no key held and no lock taken by anyone else. */
  ghost function Step(setup: Setup, w: World, op: Op): World {
    match op
    case Store(call) => AfterStore(setup, w, call, {}, true)
    case Get(key, locked, now, decode) =>
      var effect := Read(EntryOf(w.entries, key), key, setup.schema, setup.limits, now, decode).1;
      World(Visited(w.entries, key, effect, locked, now), w.prunedAt)
    case Prune(at) => World(Pruned(w.entries, Context({}, at, setup.limits)), at)
  }

  ghost function Run(setup: Setup, w: World, ops: seq<Op>): World
    decreases |ops|
  {
    if ops == [] then w else Step(setup, Run(setup, w, ops[..|ops| - 1]), ops[|ops| - 1])
  }

  /** What a read does to its file depends on whether the value decodes, not on its type. */
  function Untyped<V>(decode: Bytes -> Option<V>): Bytes -> Option<Bytes> {
    (bytes: Bytes) => if decode(bytes).Some? then Some(bytes) else None
  }

  lemma EffectIsUntyped<V>(
      file: Option<File>, key: Key, schema: nat, limits: Limits, now: nat, decode: Bytes -> Option<V>)
    ensures Read(file, key, schema, limits, now, decode).1 == Read(file, key, schema, limits, now, Untyped(decode)).1
  {
  }
}
