/** The bound over whole runs: one process, no key held by anyone else, from an empty directory. */
module Bound {
  import opened Common
  import opened EntryFormat
  import opened FileNames
  import opened Lookup
  import opened PruneSpec
  import opened PruneTheorems
  import opened CacheRuns
  import opened EntrySizes

  /** Within both hard caps, by the true total. */
  ghost predicate Within(files: Dir, limits: Limits) {
    |Counted(files)| <= limits.hardEntries && Sum(files, Counted(files)) <= limits.hardBytes
  }

  /** The longest entry that a store can write. */
  function Ceiling(setup: Setup): nat {
    Min(setup.limits.maxEntryBytes, VEC_MAX)
  }

  /** The limits under which the saturated byte count can hide an overrun. A byte cap of 2^64 - 1
      is never seen to be crossed, so only the entry cap is left to bound the bytes. Below that, a
      prune that counts from 2^64 - 1 stops once it has freed the distance to its target, and must
      free at least one shortest entry; it stops too early if a ceiling's worth of new bytes can be
      more than it freed, beside the fewest old entries that the new one takes over the cap. */
  predicate Cracks(setup: Setup) {
    var l, c, p := setup.limits, Ceiling(setup), Shortest(setup);
    && p <= c
    && if l.hardBytes >= U64_MAX then l.hardBytes < l.hardEntries * c
       else
         var freed := Max(p, U64_MAX - Min(l.targetBytes, l.hardBytes));
         && freed < c
         && l.hardBytes / c + 1 <= Min(l.targetEntries, l.hardEntries)
         && l.hardBytes / c * p + freed <= l.hardBytes
  }

  predicate Room(setup: Setup) {
    !Cracks(setup)
  }

  // ---- Sizes ----

  lemma Scale(a: nat, b: nat, c: nat)
    requires a <= b
    ensures a * c <= b * c
  {
  }

  lemma OneMore(k: nat, c: nat)
    ensures (k + 1) * c == k * c + c
  {
  }

  lemma {:induction false} SumBounds(files: Dir, names: set<string>, lo: nat, hi: nat)
    requires forall n :: n in names ==> lo <= SizeOf(files, n) <= hi
    ensures |names| * lo <= Sum(files, names) <= |names| * hi
    decreases names
  {
    if names != {} {
      var n :| n in names;
      var rest := names - {n};
      SumBounds(files, rest, lo, hi);
      SumAdd(files, rest, n);
      assert names == rest + {n};
      OneMore(|rest|, lo);
      OneMore(|rest|, hi);
    }
  }

  /** Every entry has a length that a store can write. */
  ghost predicate Sized(setup: Setup, files: Dir) {
    forall n :: n in Counted(files) ==> Shortest(setup) <= SizeOf(files, n) <= Ceiling(setup)
  }

  ghost predicate Stocked(setup: Setup, files: Dir) {
    Sized(setup, files) && Within(files, setup.limits)
  }

  /** Fewer entries, each as long as before. */
  ghost predicate Fewer(files: Dir, others: Dir) {
    Counted(others) <= Counted(files) && forall n :: n in Counted(others) ==> SizeOf(others, n) == SizeOf(files, n)
  }

  lemma FewerSum(files: Dir, others: Dir)
    requires Fewer(files, others)
    ensures |Counted(others)| <= |Counted(files)|
    ensures Sum(others, Counted(others)) == Sum(files, Counted(others)) <= Sum(files, Counted(files))
  {
    SumSame(others, files, Counted(others));
    SubsetSum(files, Counted(files), Counted(others));
  }

  lemma FewerStocked(setup: Setup, files: Dir, others: Dir)
    requires Stocked(setup, files) && Fewer(files, others)
    ensures Stocked(setup, others)
  {
    FewerSum(files, others);
  }

  lemma PruneShrinks(files: Dir, c: Context)
    ensures Fewer(files, Pruned(files, c))
  {
  }

  lemma VisitShrinks(files: Dir, key: Key, effect: Effect, locked: bool, now: nat)
    ensures Fewer(files, Visited(files, key, effect, locked, now))
  {
  }

  // ---- A store's write ----

  lemma WrittenSize(setup: Setup, call: StoreCall)
    requires OpOk(setup, Store(call)) && !TooBig(setup, call)
    ensures Shortest(setup) <= |EntryBytes(setup, call)| <= Ceiling(setup)
  {
    ShortestIsLeast(setup, call);
  }

  function Others(files: Dir, call: StoreCall): set<string> {
    Counted(files) - {EntryName(call.key.digest)}
  }

  /** What a write adds to the entries of other keys. */
  lemma WrittenCounts(setup: Setup, files: Dir, call: StoreCall)
    requires IsDigest(call.key.digest)
    ensures var w, name := Written(setup, files, call), EntryName(call.key.digest);
            && Counted(w) == Others(files, call) + {name}
            && SizeOf(w, name) == |EntryBytes(setup, call)|
            && (forall n :: n in Others(files, call) ==> SizeOf(w, n) == SizeOf(files, n))
            && Sum(w, Others(files, call)) == Sum(files, Others(files, call)) <= Sum(files, Counted(files))
            && Sum(w, Counted(w)) == Sum(w, Others(files, call)) + |EntryBytes(setup, call)|
            && |Counted(w)| == |Others(files, call)| + 1
            && |Others(files, call)| <= |Counted(files)|
  {
    var w, name := Written(setup, files, call), EntryName(call.key.digest);
    EntryNames(name, call.key.digest);
    assert Counted(w) == Others(files, call) + {name};
    SumAdd(w, Others(files, call), name);
    SumSame(w, files, Others(files, call));
    SubsetSum(files, Counted(files), Others(files, call));
  }

  /** Between its write and its prune a store is over by at most one entry and one entry's bytes. */
  lemma WrittenBound(setup: Setup, files: Dir, call: StoreCall)
    requires OpOk(setup, Store(call)) && !TooBig(setup, call) && Within(files, setup.limits)
    ensures var w := Written(setup, files, call);
            && |Counted(w)| <= setup.limits.hardEntries + 1
            && Sum(w, Counted(w)) <= setup.limits.hardBytes + setup.limits.maxEntryBytes
  {
    WrittenCounts(setup, files, call);
  }

  // ---- The prune that follows ----

  /** A prune of a cache over a hard cap leaves nothing, or a set of entries that its count, which
      starts no higher than 2^64 - 1, takes to meet both targets. */
  ghost predicate Left(files: Dir, limits: Limits, left: set<string>) {
    var total := Sum(files, Counted(files));
    left <= Counted(files) && (left != {} ==> LeftOk(limits, |left|, total, Sum(files, left)))
  }

  predicate LeftOk(limits: Limits, entries: nat, total: nat, bytes: nat) {
    && entries <= Min(limits.targetEntries, limits.hardEntries)
    && bytes <= total
    && SatSub(Min(total, U64_MAX), total - bytes) <= Min(limits.targetBytes, limits.hardBytes)
  }

  lemma LessTotal(total: nat, dead: nat, gone: nat, after: nat)
    requires total == after + dead + gone
    ensures SatSub(SatSub(Min(total, U64_MAX), dead), gone) == SatSub(Min(total, U64_MAX), total - after)
  {
  }

  lemma LeftIs(files: Dir, c: Context)
    ensures var total, after := Sum(files, Counted(files)), Sum(files, Counted(Pruned(files, c)));
            && after <= total
            && LeftAfter(files, c).bytes == SatSub(Min(total, U64_MAX), total - after)
  {
    PrunedIsStage(files, c);
    var j := Goes(files, c);
    StageCounts(files, c, j);
    LessTotal(Sum(files, Counted(files)), Sum(files, Dead(FatesOf(files, c))),
              SizesOf(Queue(files, FatesOf(files, c))[..j]), Sum(files, Counted(Pruned(files, c))));
  }

  lemma PruneEnds(files: Dir, c: Context)
    requires c.held == {} && Over(UsageOf(files), c.limits)
    ensures Counted(Pruned(files, c)) == {} || Met(LeftAfter(files, c), c.limits)
  {
    EvictionIsShortestPrefix(files, c);
    if Goes(files, c) == |Queue(files, FatesOf(files, c))| { NothingCounted(files, c); }
  }

  lemma PruneLeaves(files: Dir, c: Context)
    requires c.held == {} && Over(UsageOf(files), c.limits)
    ensures Left(files, c.limits, Counted(Pruned(files, c)))
  {
    PruneShrinks(files, c);
    PruneEnds(files, c);
    LeftIs(files, c);
    EntriesConserved(files, c);
  }

  /** The numbers of an overrun: `kept` old entries of `bytes` bytes and a new one of `size`. */
  lemma Overrun(setup: Setup, kept: nat, bytes: nat, removed: nat, size: nat)
    requires Shortest(setup) <= size <= Ceiling(setup) && setup.limits.hardBytes < U64_MAX
    requires kept * Shortest(setup) <= bytes <= kept * Ceiling(setup) && (removed > 0 ==> removed >= Shortest(setup))
    requires bytes + removed <= setup.limits.hardBytes < bytes + size
    requires var l := setup.limits;
             && SatSub(Min(bytes + removed + size, U64_MAX), removed) <= Min(l.targetBytes, l.hardBytes)
             && kept + 1 <= Min(l.targetEntries, l.hardEntries)
    ensures Cracks(setup)
  {
    var l, c, p := setup.limits, Ceiling(setup), Shortest(setup);
    var freed := Max(p, U64_MAX - Min(l.targetBytes, l.hardBytes));
    assert bytes + removed + size > U64_MAX;
    assert freed <= removed < c;
    QuotientBelow(l.hardBytes, c, kept);
    Scale(l.hardBytes / c, kept, p);
  }

  lemma QuotientBelow(x: nat, c: nat, k: nat)
    requires c > 0 && x < k * c + c
    ensures x / c <= k
  {
    if x / c > k { Scale(k + 1, x / c, c); }
  }

  /** The new entry, and those it leaves beside it, in numbers. */
  lemma KeptBytes(setup: Setup, files: Dir, call: StoreCall, kept: set<string>)
    requires IsDigest(call.key.digest) && kept <= Others(files, call)
    ensures var w, name, others := Written(setup, files, call), EntryName(call.key.digest), Others(files, call);
            && |kept + {name}| == |kept| + 1
            && Sum(w, kept + {name}) == Sum(w, kept) + |EntryBytes(setup, call)|
            && Sum(w, Counted(w)) - Sum(w, kept + {name}) == Sum(w, others - kept)
            && Sum(w, kept) + Sum(w, others - kept) <= Sum(files, Counted(files))
  {
    WrittenCounts(setup, files, call);
    var w, name, others := Written(setup, files, call), EntryName(call.key.digest), Others(files, call);
    SumAdd(w, kept, name);
    SubsetSum(w, others, kept);
  }

  lemma KeptBounds(setup: Setup, files: Dir, call: StoreCall, names: set<string>)
    requires Sized(setup, files) && IsDigest(call.key.digest) && names <= Others(files, call)
    ensures var bytes := Sum(Written(setup, files, call), names);
            && |names| * Shortest(setup) <= bytes <= |names| * Ceiling(setup)
            && (bytes > 0 ==> bytes >= Shortest(setup))
  {
    WrittenCounts(setup, files, call);
    SumBounds(Written(setup, files, call), names, Shortest(setup), Ceiling(setup));
    if names != {} { Scale(1, |names|, Shortest(setup)); }
  }

  /** `kept` old entries of `bytes` bytes beside a new one of `size`, with `removed` bytes gone. */
  predicate Beside(setup: Setup, kept: nat, bytes: nat, removed: nat, size: nat) {
    && Shortest(setup) <= size <= Ceiling(setup)
    && kept * Shortest(setup) <= bytes <= kept * Ceiling(setup)
    && (removed > 0 ==> removed >= Shortest(setup))
    && bytes + removed <= setup.limits.hardBytes
  }

  /** With room, the numbers of an overrun do not come about. */
  lemma NoOverrun(setup: Setup, kept: nat, bytes: nat, removed: nat, size: nat)
    requires Room(setup) && setup.limits.hardBytes < U64_MAX && Beside(setup, kept, bytes, removed, size)
    requires LeftOk(setup.limits, kept + 1, bytes + removed + size, bytes + size)
    ensures bytes + size <= setup.limits.hardBytes
  {
    if bytes + size > setup.limits.hardBytes { Overrun(setup, kept, bytes, removed, size); }
  }

  lemma KeptBeside(setup: Setup, files: Dir, call: StoreCall, kept: set<string>)
    requires Stocked(setup, files) && OpOk(setup, Store(call)) && !TooBig(setup, call) && kept <= Others(files, call)
    ensures var w, rest := Written(setup, files, call), Others(files, call) - kept;
            Beside(setup, |kept|, Sum(w, kept), Sum(w, rest), |EntryBytes(setup, call)|)
  {
    KeptBytes(setup, files, call, kept);
    KeptBounds(setup, files, call, kept);
    KeptBounds(setup, files, call, Others(files, call) - kept);
    WrittenSize(setup, call);
  }

  lemma NewLeft(setup: Setup, files: Dir, call: StoreCall, kept: set<string>)
    requires IsDigest(call.key.digest) && kept <= Others(files, call)
    requires Left(Written(setup, files, call), setup.limits, kept + {EntryName(call.key.digest)})
    ensures var w, size := Written(setup, files, call), |EntryBytes(setup, call)|;
            var bytes, removed := Sum(w, kept), Sum(w, Others(files, call) - kept);
            LeftOk(setup.limits, |kept| + 1, bytes + removed + size, bytes + size)
  {
    KeptBytes(setup, files, call, kept);
  }

  lemma NewStays(setup: Setup, files: Dir, call: StoreCall, kept: set<string>)
    requires Stocked(setup, files) && OpOk(setup, Store(call)) && !TooBig(setup, call)
    requires setup.limits.hardBytes < U64_MAX && Room(setup) && kept <= Others(files, call)
    requires Left(Written(setup, files, call), setup.limits, kept + {EntryName(call.key.digest)})
    ensures Sum(Written(setup, files, call), kept) + |EntryBytes(setup, call)| <= setup.limits.hardBytes
  {
    var w, rest := Written(setup, files, call), Others(files, call) - kept;
    NewLeft(setup, files, call, kept);
    KeptBeside(setup, files, call, kept);
    NoOverrun(setup, |kept|, Sum(w, kept), Sum(w, rest), |EntryBytes(setup, call)|);
  }

  lemma NewGoes(setup: Setup, files: Dir, call: StoreCall, left: set<string>)
    requires Within(files, setup.limits) && IsDigest(call.key.digest)
    requires left <= Counted(Written(setup, files, call)) && EntryName(call.key.digest) !in left
    ensures Sum(Written(setup, files, call), left) <= setup.limits.hardBytes
  {
    WrittenCounts(setup, files, call);
    SubsetSum(Written(setup, files, call), Others(files, call), left);
  }

  lemma LeftBytes(setup: Setup, files: Dir, call: StoreCall, left: set<string>)
    requires Stocked(setup, files) && OpOk(setup, Store(call)) && !TooBig(setup, call)
    requires setup.limits.hardBytes < U64_MAX && Room(setup) && Left(Written(setup, files, call), setup.limits, left)
    ensures Sum(Written(setup, files, call), left) <= setup.limits.hardBytes
  {
    if EntryName(call.key.digest) in left {
      var kept := left - {EntryName(call.key.digest)};
      assert left == kept + {EntryName(call.key.digest)};
      assert kept <= Others(files, call) by { WrittenCounts(setup, files, call); }
      NewStays(setup, files, call, kept);
      KeptBytes(setup, files, call, kept);
    } else {
      NewGoes(setup, files, call, left);
    }
  }

  /** A prune after a store leaves no overrun that the limits do not allow. */
  lemma StorePruned(setup: Setup, files: Dir, call: StoreCall, c: Context)
    requires Stocked(setup, files) && OpOk(setup, Store(call)) && !TooBig(setup, call)
    requires c.held == {} && c.limits == setup.limits && setup.limits.hardBytes < U64_MAX && Room(setup)
    requires Over(UsageOf(Written(setup, files, call)), setup.limits)
    ensures Within(Pruned(Written(setup, files, call), c), setup.limits)
  {
    var w := Written(setup, files, call);
    PruneLeaves(w, c);
    LeftBytes(setup, files, call, Counted(Pruned(w, c)));
    PruneShrinks(w, c);
    FewerSum(w, Pruned(w, c));
  }

  // ---- Runs ----

  /** Where only the entry cap bounds the bytes, it does. */
  lemma CountedBytes(setup: Setup, files: Dir)
    requires Room(setup) && setup.limits.hardBytes >= U64_MAX && Sized(setup, files)
    requires |Counted(files)| <= setup.limits.hardEntries
    ensures Within(files, setup.limits)
  {
    SumBounds(files, Counted(files), Shortest(setup), Ceiling(setup));
    if n :| n in Counted(files) {
      Scale(|Counted(files)|, setup.limits.hardEntries, Ceiling(setup));
    }
  }

  lemma WrittenSized(setup: Setup, files: Dir, call: StoreCall)
    requires Sized(setup, files) && OpOk(setup, Store(call)) && !TooBig(setup, call)
    ensures Sized(setup, Written(setup, files, call))
  {
    WrittenCounts(setup, files, call);
    WrittenSize(setup, call);
  }

  lemma StoreWithin(setup: Setup, w: World, call: StoreCall)
    requires Room(setup) && OpOk(setup, Store(call)) && !TooBig(setup, call) && Stocked(setup, w.entries)
    ensures Stocked(setup, AfterStore(setup, w, call, {}, true).entries)
  {
    var written, after := Written(setup, w.entries, call), AfterStore(setup, w, call, {}, true).entries;
    var c := Context({}, call.clock.prune, setup.limits);
    WrittenSized(setup, w.entries, call);
    PruneShrinks(written, c);
    FewerSum(written, Pruned(written, c));
    if Over(UsageOf(written), setup.limits) { PruneMeetsTargets(written, c); }
    if setup.limits.hardBytes >= U64_MAX {
      CountedBytes(setup, after);
    } else if Over(UsageOf(written), setup.limits) {
      StorePruned(setup, w.entries, call, c);
    }
  }

  lemma StepWithin(setup: Setup, w: World, op: Op)
    requires Room(setup) && OpOk(setup, op) && Stocked(setup, w.entries)
    ensures Stocked(setup, Step(setup, w, op).entries)
  {
    match op
    case Store(call) => if !TooBig(setup, call) { StoreWithin(setup, w, call); }
    case Get(key, locked, now, decode) =>
      var effect := Read(EntryOf(w.entries, key), key, setup.schema, setup.limits, now, decode).1;
      VisitShrinks(w.entries, key, effect, locked, now);
      FewerStocked(setup, w.entries, Visited(w.entries, key, effect, locked, now));
    case Prune(at) =>
      PruneShrinks(w.entries, Context({}, at, setup.limits));
      FewerStocked(setup, w.entries, Pruned(w.entries, Context({}, at, setup.limits)));
  }

  lemma {:induction false} RunWithin(setup: Setup, prunedAt: nat, ops: seq<Op>)
    requires Room(setup) && OpsOk(setup, ops)
    ensures Stocked(setup, Run(setup, World(map[], prunedAt), ops).entries)
    decreases |ops|
  {
    var w := World(map[], prunedAt);
    if ops == [] {
      assert Counted(map[]) == {};
    } else {
      RunWithin(setup, prunedAt, ops[..|ops| - 1]);
      StepWithin(setup, Run(setup, w, ops[..|ops| - 1]), ops[|ops| - 1]);
    }
  }

  /** With room, whatever the clock does: after every operation of a run the usage is within both
      hard caps, and while a store is between its write and its prune, it is over by at most one
      entry and one entry's bytes. */
  lemma BoundHolds(setup: Setup, prunedAt: nat, ops: seq<Op>, k: nat)
    requires Room(setup) && OpsOk(setup, ops) && k <= |ops|
    ensures var w := Run(setup, World(map[], prunedAt), ops[..k]);
            && Within(w.entries, setup.limits)
            && (k < |ops| && ops[k].Store? && !TooBig(setup, ops[k].call) ==>
                  var written := Written(setup, w.entries, ops[k].call);
                  && |Counted(written)| <= setup.limits.hardEntries + 1
                  && Sum(written, Counted(written)) <= setup.limits.hardBytes + setup.limits.maxEntryBytes)
  {
    RunWithin(setup, prunedAt, ops[..k]);
    var w := Run(setup, World(map[], prunedAt), ops[..k]);
    if k < |ops| && ops[k].Store? && !TooBig(setup, ops[k].call) {
      assert OpOk(setup, ops[k]);
      WrittenBound(setup, w.entries, ops[k].call);
    }
  }
}
