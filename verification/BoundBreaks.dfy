/** Without room the bound breaks: for all such limits, a run of stores that leaves the cache over
    its byte cap. So the condition of the bound is exact. */
module BoundBreaks {
  import opened Common
  import opened EntryFormat
  import opened FileNames
  import opened Lookup
  import opened PruneSpec
  import opened PruneTheorems
  import opened CacheRuns
  import opened EntrySizes
  import opened Bound

  /** The ranges of the Rust fields. */
  predicate U64Fields(l: Limits) {
    && l.maxEntryBytes <= U64_MAX && l.hardEntries <= U64_MAX && l.hardBytes <= U64_MAX
    && l.targetEntries <= U64_MAX && l.targetBytes <= U64_MAX
    && l.unusedAfter <= U64_MAX && l.sweepEvery <= U64_MAX && l.touchAfter <= U64_MAX
  }

  lemma Snoc<T>(s: seq<T>)
    requires s != []
    ensures s == s[..|s| - 1] + [s[|s| - 1]]
  {
  }

  // ---- A shelf of entries, each of its own key ----

  function NameAt(k: nat): string {
    EntryName(Nth(k))
  }

  lemma NamesDiffer(j: nat, k: nat)
    requires j < k <= U64_MAX
    ensures NameAt(j) != NameAt(k)
  {
    NthInjective(j, k);
    EntryNames(NameAt(j), Nth(j));
    EntryNames(NameAt(k), Nth(k));
  }

  lemma NameAtIsEntry(k: nat)
    ensures EntryDigest(NameAt(k)) == Some(Nth(k))
  {
    EntryNames(NameAt(k), Nth(k));
  }

  /** The first entry is of time 0, the others of time 1. */
  function TimeAt(k: nat): nat {
    if k == 0 then 0 else 1
  }

  function Shelf(contents: seq<Bytes>): Dir {
    if contents == [] then map[]
    else var n := |contents| - 1; Shelf(contents[..n])[NameAt(n) := Regular(contents[n], TimeAt(n))]
  }

  function Bulk(contents: seq<Bytes>): nat {
    if contents == [] then 0 else Bulk(contents[..|contents| - 1]) + |contents[|contents| - 1]|
  }

  /** `files` are these entries and nothing else. */
  ghost predicate Shelved(contents: seq<Bytes>, files: Dir) {
    && (forall n :: n in files ==> exists k :: 0 <= k < |contents| && n == NameAt(k))
    && (forall k :: 0 <= k < |contents| ==>
          NameAt(k) in files && files[NameAt(k)] == Regular(contents[k], TimeAt(k)))
  }

  lemma NameIsNew(contents: seq<Bytes>, files: Dir)
    requires Shelved(contents, files) && |contents| <= U64_MAX
    ensures NameAt(|contents|) !in files
    ensures forall k :: 0 <= k < |contents| ==> NameAt(k) != NameAt(|contents|)
  {
    forall k | 0 <= k < |contents| ensures NameAt(k) != NameAt(|contents|) { NamesDiffer(k, |contents|); }
  }

  lemma NamedNext(contents: seq<Bytes>, files: Dir, more: Bytes, n: string)
    requires Shelved(contents, files) && n in files[NameAt(|contents|) := Regular(more, TimeAt(|contents|))]
    ensures exists k :: 0 <= k <= |contents| && n == NameAt(k)
  {
    if n != NameAt(|contents|) {
      var k :| 0 <= k < |contents| && n == NameAt(k);
    }
  }

  lemma ShelfNext(contents: seq<Bytes>, more: Bytes, all: seq<Bytes>, files: Dir)
    requires Shelved(contents, files) && |contents| <= U64_MAX && all == contents + [more]
    ensures Shelved(all, files[NameAt(|contents|) := Regular(more, TimeAt(|contents|))])
  {
    NameIsNew(contents, files);
    var next := files[NameAt(|contents|) := Regular(more, TimeAt(|contents|))];
    forall n | n in next ensures exists k :: 0 <= k < |all| && n == NameAt(k) {
      NamedNext(contents, files, more, n);
    }
    forall k | 0 <= k < |all| ensures NameAt(k) in next && next[NameAt(k)] == Regular(all[k], TimeAt(k)) {
      if k < |contents| { assert all[k] == contents[k]; }
    }
  }

  lemma {:induction false} ShelfHolds(contents: seq<Bytes>)
    requires |contents| <= U64_MAX + 1
    ensures Shelved(contents, Shelf(contents))
  {
    if contents != [] {
      var front, last := contents[..|contents| - 1], contents[|contents| - 1];
      Snoc(contents);
      ShelfHolds(front);
      ShelfSnoc(front, last, contents);
      ShelfNext(front, last, contents, Shelf(front));
    }
  }

  lemma CountsNext(files: Dir, k: nat, bytes: Bytes, t: nat)
    requires NameAt(k) !in files
    ensures var w := files[NameAt(k) := Regular(bytes, t)];
            |Counted(w)| == |Counted(files)| + 1 && Sum(w, Counted(w)) == Sum(files, Counted(files)) + |bytes|
  {
    var w := files[NameAt(k) := Regular(bytes, t)];
    NameAtIsEntry(k);
    assert Counted(w) == Counted(files) + {NameAt(k)};
    SumAdd(w, Counted(files), NameAt(k));
    SumSame(w, files, Counted(files));
  }

  lemma ShelfCountsNext(contents: seq<Bytes>, more: Bytes, all: seq<Bytes>)
    requires |contents| <= U64_MAX && all == contents + [more]
    ensures var files, next := Shelf(contents), Shelf(all);
            |Counted(next)| == |Counted(files)| + 1 && Sum(next, Counted(next)) == Sum(files, Counted(files)) + |more|
  {
    ShelfHolds(contents);
    NameIsNew(contents, Shelf(contents));
    assert all[..|all| - 1] == contents;
    CountsNext(Shelf(contents), |contents|, more, TimeAt(|contents|));
  }

  lemma {:induction false} ShelfCounts(contents: seq<Bytes>)
    requires |contents| <= U64_MAX + 1
    ensures |Counted(Shelf(contents))| == |contents|
    ensures Sum(Shelf(contents), Counted(Shelf(contents))) == Bulk(contents)
  {
    if contents == [] {
      assert Counted(map[]) == {};
    } else {
      var front, last := contents[..|contents| - 1], contents[|contents| - 1];
      Snoc(contents);
      ShelfCounts(front);
      ShelfCountsNext(front, last, contents);
    }
  }

  // ---- A run of stores ----

  function Stores(calls: seq<StoreCall>): seq<Op> {
    seq(|calls|, k requires 0 <= k < |calls| => Store(calls[k]))
  }

  function Contents(setup: Setup, calls: seq<StoreCall>): seq<Bytes> {
    seq(|calls|, k requires 0 <= k < |calls| => EntryBytes(setup, calls[k]))
  }

  /** Calls that fill a shelf, no sweep being due for any. */
  predicate Fills(setup: Setup, calls: seq<StoreCall>) {
    forall k :: 0 <= k < |calls| ==>
      && calls[k].key.digest == Nth(k) && calls[k].clock.file == TimeAt(k) && calls[k].clock.sweep == 0
      && OpOk(setup, Store(calls[k])) && !TooBig(setup, calls[k])
  }

  lemma ShelfSnoc(contents: seq<Bytes>, more: Bytes, all: seq<Bytes>)
    requires all == contents + [more]
    ensures Shelf(all) == Shelf(contents)[NameAt(|contents|) := Regular(more, TimeAt(|contents|))]
  {
    assert all[..|all| - 1] == contents;
  }

  lemma BulkSnoc(contents: seq<Bytes>, more: Bytes, all: seq<Bytes>)
    requires all == contents + [more]
    ensures Bulk(all) == Bulk(contents) + |more|
  {
    assert all[..|all| - 1] == contents;
  }

  lemma FillsFront(setup: Setup, calls: seq<StoreCall>, call: StoreCall, all: seq<StoreCall>)
    requires Fills(setup, all) && all == calls + [call]
    ensures Fills(setup, calls) && OpOk(setup, Store(call)) && !TooBig(setup, call)
    ensures call.key.digest == Nth(|calls|) && call.clock.file == TimeAt(|calls|) && call.clock.sweep == 0
  {
    assert forall k :: 0 <= k < |calls| ==> calls[k] == all[k];
    assert all[|calls|] == call;
  }

  lemma StoresSnoc(setup: Setup, calls: seq<StoreCall>, call: StoreCall, all: seq<StoreCall>)
    requires all == calls + [call]
    ensures Stores(all) == Stores(calls) + [Store(call)]
    ensures Contents(setup, all) == Contents(setup, calls) + [EntryBytes(setup, call)]
  {
  }

  /** The next store writes the next entry of the shelf. */
  lemma WritesNext(setup: Setup, calls: seq<StoreCall>, call: StoreCall, all: seq<StoreCall>)
    requires Fills(setup, all) && all == calls + [call]
    ensures Written(setup, Shelf(Contents(setup, calls)), call) == Shelf(Contents(setup, all))
    ensures Bulk(Contents(setup, all)) == Bulk(Contents(setup, calls)) + |EntryBytes(setup, call)|
  {
    FillsFront(setup, calls, call, all);
    StoresSnoc(setup, calls, call, all);
    ShelfSnoc(Contents(setup, calls), EntryBytes(setup, call), Contents(setup, all));
    BulkSnoc(Contents(setup, calls), EntryBytes(setup, call), Contents(setup, all));
  }

  lemma StoresRunNext(setup: Setup, prunedAt: nat, calls: seq<StoreCall>, call: StoreCall, all: seq<StoreCall>)
    requires Fills(setup, all) && all == calls + [call]
    requires |all| <= U64_MAX && |all| <= setup.limits.hardEntries
    requires Min(Bulk(Contents(setup, all)), U64_MAX) <= setup.limits.hardBytes
    requires Run(setup, World(map[], prunedAt), Stores(calls)) == World(Shelf(Contents(setup, calls)), prunedAt)
    ensures Run(setup, World(map[], prunedAt), Stores(all)) == World(Shelf(Contents(setup, all)), prunedAt)
  {
    FillsFront(setup, calls, call, all);
    WritesNext(setup, calls, call, all);
    ShelfCounts(Contents(setup, all));
    StoreIsWritten(setup, World(Shelf(Contents(setup, calls)), prunedAt), call);
    StoresSnoc(setup, calls, call, all);
    RunSnoc(setup, World(map[], prunedAt), Stores(calls), Store(call));
  }

  /** Below both caps, by the saturated count, every store is just written. */
  lemma {:induction false} StoresRun(setup: Setup, prunedAt: nat, calls: seq<StoreCall>)
    requires Fills(setup, calls) && |calls| <= U64_MAX && |calls| <= setup.limits.hardEntries
    requires Min(Bulk(Contents(setup, calls)), U64_MAX) <= setup.limits.hardBytes
    ensures Run(setup, World(map[], prunedAt), Stores(calls)) == World(Shelf(Contents(setup, calls)), prunedAt)
  {
    if calls != [] {
      var front, call := calls[..|calls| - 1], calls[|calls| - 1];
      Snoc(calls);
      FillsFront(setup, front, call, calls);
      WritesNext(setup, front, call, calls);
      StoresRun(setup, prunedAt, front);
      StoresRunNext(setup, prunedAt, front, call, calls);
    }
  }

  lemma StoreIsWritten(setup: Setup, w: World, call: StoreCall)
    requires !TooBig(setup, call) && call.clock.sweep == 0
    requires !Over(UsageOf(Written(setup, w.entries, call)), setup.limits)
    ensures Step(setup, w, Store(call)) == World(Written(setup, w.entries, call), w.prunedAt)
  {
  }

  // ---- Stores of given sizes ----

  predicate Writable(setup: Setup, sizes: seq<nat>) {
    forall k :: 0 <= k < |sizes| ==> Shortest(setup) <= sizes[k] <= Ceiling(setup)
  }

  /** The first entry is stale after time 0, the others after time 1. */
  function CallAt(setup: Setup, k: nat, size: nat): StoreCall
    requires Shortest(setup) <= size
  {
    SizedCall(setup, k, size, TimeAt(k))
  }

  function Calls(setup: Setup, sizes: seq<nat>): seq<StoreCall>
    requires Writable(setup, sizes)
  {
    seq(|sizes|, k requires 0 <= k < |sizes| => CallAt(setup, k, sizes[k]))
  }

  function Total(sizes: seq<nat>): nat {
    if sizes == [] then 0 else Total(sizes[..|sizes| - 1]) + sizes[|sizes| - 1]
  }

  lemma {:induction false} BulkIsTotal(contents: seq<Bytes>, sizes: seq<nat>)
    requires |contents| == |sizes| && forall k :: 0 <= k < |sizes| ==> |contents[k]| == sizes[k]
    ensures Bulk(contents) == Total(sizes)
  {
    if sizes != [] { BulkIsTotal(contents[..|sizes| - 1], sizes[..|sizes| - 1]); }
  }

  lemma CallAtOk(setup: Setup, k: nat, size: nat)
    requires Shortest(setup) <= size <= Ceiling(setup)
    ensures var call := CallAt(setup, k, size);
            && |EntryBytes(setup, call)| == size && OpOk(setup, Store(call)) && !TooBig(setup, call)
            && call.key.digest == Nth(k) && call.clock.file == TimeAt(k) && call.clock.sweep == 0
  {
    SizedCallHasSize(setup, k, size, TimeAt(k));
  }

  lemma CallsFill(setup: Setup, sizes: seq<nat>)
    requires Writable(setup, sizes)
    ensures Fills(setup, Calls(setup, sizes)) && OpsOk(setup, Stores(Calls(setup, sizes)))
  {
    var calls := Calls(setup, sizes);
    forall k | 0 <= k < |sizes|
      ensures calls[k] == CallAt(setup, k, sizes[k]) && OpOk(setup, Store(calls[k])) && !TooBig(setup, calls[k])
    {
      CallAtOk(setup, k, sizes[k]);
    }
  }

  lemma CallsBulk(setup: Setup, sizes: seq<nat>)
    requires Writable(setup, sizes)
    ensures Bulk(Contents(setup, Calls(setup, sizes))) == Total(sizes)
  {
    var contents := Contents(setup, Calls(setup, sizes));
    forall k | 0 <= k < |sizes| ensures |contents[k]| == sizes[k] { CallAtOk(setup, k, sizes[k]); }
    BulkIsTotal(contents, sizes);
  }

  /** The entries that a list of sizes leaves. */
  function Entries(setup: Setup, sizes: seq<nat>): Dir
    requires Writable(setup, sizes)
  {
    Shelf(Contents(setup, Calls(setup, sizes)))
  }

  lemma EntriesCount(setup: Setup, sizes: seq<nat>)
    requires Writable(setup, sizes) && |sizes| <= U64_MAX + 1
    ensures |Counted(Entries(setup, sizes))| == |sizes|
    ensures Sum(Entries(setup, sizes), Counted(Entries(setup, sizes))) == Total(sizes)
  {
    CallsBulk(setup, sizes);
    ShelfCounts(Contents(setup, Calls(setup, sizes)));
  }

  lemma SizesRun(setup: Setup, prunedAt: nat, sizes: seq<nat>)
    requires Writable(setup, sizes) && |sizes| <= U64_MAX && |sizes| <= setup.limits.hardEntries
    requires Min(Total(sizes), U64_MAX) <= setup.limits.hardBytes
    ensures OpsOk(setup, Stores(Calls(setup, sizes)))
    ensures Run(setup, World(map[], prunedAt), Stores(Calls(setup, sizes)))
         == World(Entries(setup, sizes), prunedAt)
  {
    CallsFill(setup, sizes);
    CallsBulk(setup, sizes);
    StoresRun(setup, prunedAt, Calls(setup, sizes));
  }

  lemma RunSnoc(setup: Setup, w: World, ops: seq<Op>, op: Op)
    ensures Run(setup, w, ops + [op]) == Step(setup, Run(setup, w, ops), op)
  {
    assert (ops + [op])[..|ops|] == ops;
  }

  // ---- A byte cap that is never seen to be crossed ----

  lemma {:induction false} TotalOfSame(n: nat, c: nat)
    ensures Total(seq(n, _ => c)) == n * c
  {
    if n > 0 {
      assert seq(n, _ => c)[..n - 1] == seq(n - 1, _ => c);
      TotalOfSame(n - 1, c);
      OneMore(n - 1, c);
    }
  }

  lemma QuotientAbove(x: nat, c: nat)
    requires c > 0
    ensures x / c * c <= x < (x / c + 1) * c
  {
    OneMore(x / c, c);
  }

  lemma UnseenCap(setup: Setup, prunedAt: nat) returns (ops: seq<Op>)
    requires Cracks(setup) && U64Fields(setup.limits) && setup.limits.hardBytes == U64_MAX
    ensures OpsOk(setup, ops) && !Within(Run(setup, World(map[], prunedAt), ops).entries, setup.limits)
  {
    var c, l := Ceiling(setup), setup.limits;
    var n := l.hardBytes / c + 1;
    QuotientAbove(l.hardBytes, c);
    if n > l.hardEntries { Scale(l.hardEntries, n - 1, c); }
    var sizes := seq(n, _ => c);
    TotalOfSame(n, c);
    SizesRun(setup, prunedAt, sizes);
    EntriesCount(setup, sizes);
    ops := Stores(Calls(setup, sizes));
  }

  // ---- A prune that stops too early ----

  /** The last of `n` sizes from `lo` to `hi` that add up to `total`. */
  function LastOf(n: nat, total: nat, lo: nat, hi: nat): (last: nat)
    requires n > 0 && lo <= hi && n * lo <= total <= n * hi
    ensures lo <= last <= hi && last <= total && (n - 1) * lo <= total - last <= (n - 1) * hi
  {
    OneMore(n - 1, lo);
    OneMore(n - 1, hi);
    TimesOrder(n - 1, lo, hi);
    Min(hi, total - (n - 1) * lo)
  }

  /** `n` sizes from `lo` to `hi` that add up to `total`. */
  function Spread(n: nat, total: nat, lo: nat, hi: nat): (sizes: seq<nat>)
    requires lo <= hi && n * lo <= total <= n * hi
    ensures |sizes| == n
  {
    if n == 0 then []
    else
      var last := LastOf(n, total, lo, hi);
      Spread(n - 1, total - last, lo, hi) + [last]
  }

  lemma {:induction false} SpreadIs(n: nat, total: nat, lo: nat, hi: nat)
    requires lo <= hi && n * lo <= total <= n * hi
    ensures Total(Spread(n, total, lo, hi)) == total
    ensures forall k :: 0 <= k < n ==> lo <= Spread(n, total, lo, hi)[k] <= hi
  {
    if n > 0 {
      var last := LastOf(n, total, lo, hi);
      SpreadIs(n - 1, total - last, lo, hi);
      TotalSnoc(Spread(n - 1, total - last, lo, hi), last);
    }
  }

  lemma {:induction false} TotalCons(first: nat, rest: seq<nat>)
    ensures Total([first] + rest) == first + Total(rest)
  {
    if rest != [] {
      var n := |rest| - 1;
      TotalCons(first, rest[..n]);
      assert ([first] + rest)[..n + 1] == [first] + rest[..n];
    } else {
      assert [first][..0] == [];
    }
  }

  lemma TotalSnoc(front: seq<nat>, last: nat)
    ensures Total(front + [last]) == Total(front) + last
  {
    assert (front + [last])[..|front|] == front;
  }

  /** At time 1 the entry stored at time 0 has expired, and those stored at time 1 are candidates. */
  lemma FateAt(setup: Setup, k: nat, size: nat, c: Context)
    requires Shortest(setup) <= size <= Ceiling(setup) && setup.schema <= U32_MAX
    requires c == Context({}, 1, setup.limits)
    ensures FateOf(NameAt(k), Regular(EntryBytes(setup, CallAt(setup, k, size)), TimeAt(k)), c.held, c.now, c.limits)
         == if k == 0 then Expired else Candidate
  {
    var call := CallAt(setup, k, size);
    var h := HeaderFor(call.key, setup.schema, call.clock.header, call.policy);
    NameAtIsEntry(k);
    NotBoth(NameAt(k));
    SizedCallHasSize(setup, k, size, TimeAt(k));
    StoredHeadersAreConsistent(call.key, setup.schema, TimeAt(k), call.policy);
    ExpiredExactlyWhenOutlived(NameAt(k), h, call.value, TimeAt(k), c);
  }

  lemma ShelfFate(setup: Setup, sizes: seq<nat>, files: Dir, c: Context, n: string)
    requires Writable(setup, sizes) && |sizes| <= U64_MAX + 1 && setup.schema <= U32_MAX
    requires Shelved(Contents(setup, Calls(setup, sizes)), files) && c == Context({}, 1, setup.limits) && n in files
    ensures FatesOf(files, c)[n] == if n == NameAt(0) then Expired else Candidate
  {
    var k :| 0 <= k < |sizes| && n == NameAt(k);
    FateAt(setup, k, sizes[k], c);
    if k > 0 { NamesDiffer(0, k); }
  }

  lemma DeadIs(fates: Fates, n: string)
    requires n in fates && forall m :: m in fates ==> fates[m] == if m == n then Expired else Candidate
    ensures Dead(fates) == {n}
  {
  }

  /** Only the first of the shelf is dead. */
  lemma ShelfDead(setup: Setup, sizes: seq<nat>, c: Context)
    requires Writable(setup, sizes) && 0 < |sizes| <= U64_MAX + 1 && setup.schema <= U32_MAX
    requires c == Context({}, 1, setup.limits)
    ensures var files := Entries(setup, sizes);
            Dead(FatesOf(files, c)) == {NameAt(0)} && Sum(files, {NameAt(0)}) == sizes[0]
  {
    var contents := Contents(setup, Calls(setup, sizes));
    var files := Entries(setup, sizes);
    ShelfHolds(contents);
    forall n | n in files ensures FatesOf(files, c)[n] == if n == NameAt(0) then Expired else Candidate {
      ShelfFate(setup, sizes, files, c, n);
    }
    assert NameAt(0) in files && files[NameAt(0)] == Regular(contents[0], TimeAt(0));
    DeadIs(FatesOf(files, c), NameAt(0));
    SizedCallHasSize(setup, 0, sizes[0], TimeAt(0));
    SumOfOne(files, NameAt(0));
  }

  /** A prune that has met its targets after the first pass leaves the rest, whatever its true size. */
  lemma SweepIsAll(files: Dir, c: Context)
    requires Met(AfterSweep(files, FatesOf(files, c)), c.limits)
    ensures var after := Pruned(files, c);
            Sum(after, Counted(after)) == Sum(files, Counted(files)) - Sum(files, Dead(FatesOf(files, c)))
  {
    assert Goes(files, c) == 0;
    PrunedIsStage(files, c);
    StageCounts(files, c, 0);
    assert Queue(files, FatesOf(files, c))[..0] == [];
  }

  lemma SumOfOne(files: Dir, n: string)
    ensures Sum(files, {n}) == SizeOf(files, n)
  {
    SumAdd(files, {}, n);
    assert {} + {n} == {n};
  }

  /** A shelf whose first entry is enough for the count, but not for the bytes. */
  ghost predicate Hides(setup: Setup, sizes: seq<nat>) {
    var l := setup.limits;
    && Writable(setup, sizes) && 0 < |sizes| <= U64_MAX && |sizes| <= Min(l.targetEntries, l.hardEntries)
    && Total(sizes) <= l.hardBytes < U64_MAX
    && U64_MAX - sizes[0] <= Min(l.targetBytes, l.hardBytes)
    && Shortest(setup) <= Ceiling(setup) && Total(sizes) - sizes[0] + Ceiling(setup) > l.hardBytes
  }

  /** The last store: the longest entry, beside all of them. */
  function LastCall(setup: Setup, sizes: seq<nat>): StoreCall
    requires Hides(setup, sizes)
  {
    CallAt(setup, |sizes|, Ceiling(setup))
  }

  function AllSizes(setup: Setup, sizes: seq<nat>): (all: seq<nat>)
    requires Hides(setup, sizes)
    ensures Writable(setup, all)
  {
    sizes + [Ceiling(setup)]
  }

  lemma CallsAt(setup: Setup, sizes: seq<nat>, k: nat)
    requires Writable(setup, sizes) && k < |sizes|
    ensures Calls(setup, sizes)[k] == CallAt(setup, k, sizes[k])
  {
  }

  lemma SnocIs<T>(s: seq<T>, last: T, all: seq<T>)
    requires |all| == |s| + 1 && all[|s|] == last && forall k :: 0 <= k < |s| ==> all[k] == s[k]
    ensures all == s + [last]
  {
  }

  lemma CallsSnoc(setup: Setup, sizes: seq<nat>, size: nat, all: seq<nat>)
    requires Writable(setup, sizes) && Writable(setup, all) && all == sizes + [size] && Shortest(setup) <= size
    ensures Calls(setup, all) == Calls(setup, sizes) + [CallAt(setup, |sizes|, size)]
  {
    forall k | 0 <= k < |sizes| ensures Calls(setup, all)[k] == Calls(setup, sizes)[k] {
      CallsAt(setup, all, k);
      CallsAt(setup, sizes, k);
    }
    CallsAt(setup, all, |sizes|);
    SnocIs(Calls(setup, sizes), CallAt(setup, |sizes|, size), Calls(setup, all));
  }

  lemma LastWrite(setup: Setup, sizes: seq<nat>)
    requires Hides(setup, sizes)
    ensures Written(setup, Entries(setup, sizes), LastCall(setup, sizes)) == Entries(setup, AllSizes(setup, sizes))
  {
    var all := AllSizes(setup, sizes);
    CallsFill(setup, all);
    CallsSnoc(setup, sizes, Ceiling(setup), all);
    WritesNext(setup, Calls(setup, sizes), LastCall(setup, sizes), Calls(setup, all));
  }

  lemma LastIsOver(setup: Setup, sizes: seq<nat>)
    requires Hides(setup, sizes)
    ensures Total(AllSizes(setup, sizes)) == Total(sizes) + Ceiling(setup) > U64_MAX
    ensures Over(UsageOf(Entries(setup, AllSizes(setup, sizes))), setup.limits)
  {
    EntriesCount(setup, AllSizes(setup, sizes));
    TotalSnoc(sizes, Ceiling(setup));
  }

  /** It is over the byte cap, and prunes at time 1. */
  lemma LastStore(setup: Setup, prunedAt: nat, sizes: seq<nat>) returns (ops: seq<Op>)
    requires Hides(setup, sizes)
    ensures OpsOk(setup, ops)
    ensures Run(setup, World(map[], prunedAt), ops).entries
         == Pruned(Entries(setup, AllSizes(setup, sizes)), Context({}, 1, setup.limits))
  {
    var call := LastCall(setup, sizes);
    SizesRun(setup, prunedAt, sizes);
    CallAtOk(setup, |sizes|, Ceiling(setup));
    LastWrite(setup, sizes);
    LastIsOver(setup, sizes);
    StorePrunes(setup, World(Entries(setup, sizes), prunedAt), call);
    ops := Stores(Calls(setup, sizes)) + [Store(call)];
    RunSnoc(setup, World(map[], prunedAt), Stores(Calls(setup, sizes)), Store(call));
  }

  lemma StorePrunes(setup: Setup, w: World, call: StoreCall)
    requires !TooBig(setup, call) && Over(UsageOf(Written(setup, w.entries, call)), setup.limits)
    ensures Step(setup, w, Store(call)).entries
         == Pruned(Written(setup, w.entries, call), Context({}, call.clock.prune, setup.limits))
  {
  }

  /** That prune drops the first entry, counts itself done, and leaves too much. */
  lemma LeavesTooMuch(setup: Setup, sizes: seq<nat>)
    requires Hides(setup, sizes) && setup.schema <= U32_MAX
    ensures !Within(Pruned(Entries(setup, AllSizes(setup, sizes)), Context({}, 1, setup.limits)), setup.limits)
  {
    var all, c := AllSizes(setup, sizes), Context({}, 1, setup.limits);
    EntriesCount(setup, all);
    LastIsOver(setup, sizes);
    ShelfDead(setup, all, c);
    SweepIsAll(Entries(setup, all), c);
  }

  /** The sizes of such a shelf: what the count must see freed, then the fewest old entries that a
      longest new one takes over the byte cap. */
  lemma EarlyNumbers(setup: Setup) returns (freed: nat, r: nat, rest: nat)
    requires Cracks(setup) && setup.limits.hardBytes < U64_MAX
    ensures var l, c, p := setup.limits, Ceiling(setup), Shortest(setup);
            && p <= freed < c && U64_MAX - freed <= Min(l.targetBytes, l.hardBytes)
            && r + 1 <= Min(l.targetEntries, l.hardEntries)
            && r * p <= rest <= r * c && rest + freed <= l.hardBytes < rest + c
  {
    var l, c, p := setup.limits, Ceiling(setup), Shortest(setup);
    freed, r := Max(p, U64_MAX - Min(l.targetBytes, l.hardBytes)), l.hardBytes / c;
    rest := SpreadTotal(l.hardBytes, p, freed, c);
  }

  lemma SpreadTotal(cap: nat, p: nat, freed: nat, c: nat) returns (rest: nat)
    requires p <= freed < c && cap / c * p + freed <= cap
    ensures cap / c * p <= rest <= cap / c * c && rest + freed <= cap < rest + c
  {
    QuotientAbove(cap, c);
    OneMore(cap / c, c);
    TimesOrder(cap / c, p, c);
    rest := Max(cap / c * p, SatSub(cap + 1, c));
  }

  lemma TimesOrder(k: nat, a: nat, b: nat)
    requires a <= b
    ensures k * a <= k * b
  {
  }

  lemma WritableCons(setup: Setup, first: nat, rest: seq<nat>, all: seq<nat>)
    requires Writable(setup, rest) && Shortest(setup) <= first <= Ceiling(setup) && all == [first] + rest
    ensures Writable(setup, all)
  {
    forall k | 0 <= k < |all| ensures Shortest(setup) <= all[k] <= Ceiling(setup) {
      if k > 0 { assert all[k] == rest[k - 1]; }
    }
  }

  lemma EarlyStop(setup: Setup, prunedAt: nat) returns (ops: seq<Op>)
    requires Cracks(setup) && U64Fields(setup.limits) && setup.limits.hardBytes < U64_MAX
    requires setup.schema <= U32_MAX
    ensures OpsOk(setup, ops) && !Within(Run(setup, World(map[], prunedAt), ops).entries, setup.limits)
  {
    var freed, r, rest := EarlyNumbers(setup);
    var others := Spread(r, rest, Shortest(setup), Ceiling(setup));
    SpreadIs(r, rest, Shortest(setup), Ceiling(setup));
    TotalCons(freed, others);
    var sizes := [freed] + others;
    WritableCons(setup, freed, others, sizes);
    ops := LastStore(setup, prunedAt, sizes);
    LeavesTooMuch(setup, sizes);
  }

  /** Without room, some run of stores, from whatever time of the last prune, breaks the bound. */
  lemma NoRoomNoBound(setup: Setup, prunedAt: nat) returns (ops: seq<Op>)
    requires !Room(setup) && U64Fields(setup.limits) && setup.schema <= U32_MAX
    ensures OpsOk(setup, ops) && !Within(Run(setup, World(map[], prunedAt), ops).entries, setup.limits)
  {
    if setup.limits.hardBytes == U64_MAX {
      ops := UnseenCap(setup, prunedAt);
    } else {
      ops := EarlyStop(setup, prunedAt);
    }
  }

  /** The bound holds over every run if and only if the limits have room. */
  lemma BoundIsExact(setup: Setup, prunedAt: nat)
    requires U64Fields(setup.limits) && setup.schema <= U32_MAX
    ensures Room(setup) <==> forall ops :: OpsOk(setup, ops) ==>
                               Within(Run(setup, World(map[], prunedAt), ops).entries, setup.limits)
  {
    if Room(setup) {
      forall ops | OpsOk(setup, ops) ensures Within(Run(setup, World(map[], prunedAt), ops).entries, setup.limits) {
        RunWithin(setup, prunedAt, ops);
      }
    } else {
      var ops := NoRoomNoBound(setup, prunedAt);
    }
  }

  /** Two plain ways to have room: caps and ceiling that add up to less than 2^64, or a target that
      leaves a ceiling's distance to it. */
  lemma PlainRoom(setup: Setup)
    requires var l := setup.limits;
             || l.hardBytes + l.maxEntryBytes <= U64_MAX
             || (l.hardBytes < U64_MAX && Min(l.targetBytes, l.hardBytes) + l.maxEntryBytes <= U64_MAX)
    ensures Room(setup)
  {
    PrintLength(HeaderFor(Key("", Nth(0)), setup.schema, 0, Policy(0, 0, CacheControl)), Filler(1));
  }
}
