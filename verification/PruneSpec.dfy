/** What a prune does to a directory, said of the set of its files; no listing order occurs here. */
module PruneSpec {
  import opened Common
  import opened EntryFormat
  import opened FileNames
  import opened Lookup
  import opened Sorting
  import KeyEncoding

  type Dir = map<string, File>

  datatype Usage = Usage(entries: nat, bytes: nat)

  /** `Usage::remove`, several times over: saturating subtractions add up. */
  function Less(u: Usage, entries: nat, bytes: nat): Usage {
    Usage(SatSub(u.entries, entries), SatSub(u.bytes, bytes))
  }

  lemma LessTwice(u: Usage, e: nat, b: nat, e': nat, b': nat)
    ensures Less(Less(u, e, b), e', b') == Less(u, e + e', b + b')
  {
  }

  // ---- Sizes ----

  function SizeOf(files: Dir, n: string): nat {
    if n in files && files[n].Regular? then |files[n].bytes| else 0
  }

  ghost function Sum(files: Dir, names: set<string>): nat {
    if names == {} then 0
    else var n :| n in names; SizeOf(files, n) + Sum(files, names - {n})
  }

  lemma {:induction false} SumAdd(files: Dir, names: set<string>, n: string)
    requires n !in names
    ensures Sum(files, names + {n}) == Sum(files, names) + SizeOf(files, n)
    decreases names
  {
    var all := names + {n};
    var m :| m in all && Sum(files, all) == SizeOf(files, m) + Sum(files, all - {m});
    if m == n {
      assert all - {m} == names;
    } else {
      SumAdd(files, names - {m}, n);
      assert all - {m} == (names - {m}) + {n};
      SumAdd(files, names - {m}, m);
      assert (names - {m}) + {m} == names;
    }
  }

  lemma {:induction false} SumUnion(files: Dir, a: set<string>, b: set<string>)
    requires a !! b
    ensures Sum(files, a + b) == Sum(files, a) + Sum(files, b)
    decreases b
  {
    if b == {} {
      assert a + b == a;
    } else {
      var n :| n in b;
      SumUnion(files, a, b - {n});
      assert a + b == (a + (b - {n})) + {n};
      SumAdd(files, a + (b - {n}), n);
      SumAdd(files, b - {n}, n);
      assert (b - {n}) + {n} == b;
    }
  }

  lemma {:induction false} SumSame(files: Dir, others: Dir, names: set<string>)
    requires forall n :: n in names ==> SizeOf(files, n) == SizeOf(others, n)
    ensures Sum(files, names) == Sum(others, names)
    decreases names
  {
    if names != {} {
      var n :| n in names;
      SumSame(files, others, names - {n});
      SumAdd(files, names - {n}, n);
      SumAdd(others, names - {n}, n);
      assert (names - {n}) + {n} == names;
    }
  }

  /** The files that count as entries. */
  function Counted(files: Dir): set<string> {
    set n | n in files && EntryDigest(n).Some? && files[n].Regular?
  }

  ghost function UsageOf(files: Dir): Usage {
    Usage(|Counted(files)|, Min(Sum(files, Counted(files)), U64_MAX))
  }

  /** The total fits in 64 bits, so no addition saturates. */
  ghost predicate Fits(files: Dir) {
    Sum(files, Counted(files)) <= U64_MAX
  }

  // ---- The fate of a file ----

  /** What the first pass does with one name. `Odd` is an entry name that is no regular file. */
  datatype Fate = Untouched | Temporary | Odd | Expired | Unused | Candidate

  /** The header scan finds a consistent header of this name's digest, within its stale horizon. */
  predicate Live(name: string, bytes: Bytes, now: nat, limit: nat) {
    match ScanHeader(bytes[..Min(limit, |bytes|)])
    case None => false
    case Some(h) => Consistent(h) && EntryDigest(name) == Some(h.digest) && now <= h.staleUntil
  }

  function FateOf(name: string, file: File, held: set<string>, now: nat, limits: Limits): Fate {
    if IsTemporary(name) then
      if TemporaryDigest(name).Some? && TemporaryDigest(name).value in held then Untouched else Temporary
    else if EntryDigest(name).None? || EntryDigest(name).value in held then Untouched
    else if file.Special? then Odd
    else if |file.bytes| > limits.maxEntryBytes || !Live(name, file.bytes, now, limits.maxEntryBytes) then Expired
    else if SatSub(now, file.modified) > limits.unusedAfter then Unused
    else Candidate
  }

  /** The fixed surroundings of one prune: the keys others hold, its clock sample and its limits. */
  datatype Context = Context(held: set<string>, now: nat, limits: Limits)

  /** The fate of each file. What follows looks at nothing else of a name. */
  type Fates = map<string, Fate>

  function FatesOf(files: Dir, c: Context): Fates {
    map n | n in files :: FateOf(n, files[n], c.held, c.now, c.limits)
  }

  function Fated(fates: Fates, names: set<string>, fate: Fate): set<string> {
    set n | n in names && n in fates && fates[n] == fate
  }

  /** The dead entries, expired or unused. */
  function Dead(fates: Fates): set<string> {
    Fated(fates, fates.Keys, Expired) + Fated(fates, fates.Keys, Unused)
  }

  /** What the first pass removes among `names`. */
  function Swept(fates: Fates, names: set<string>): set<string> {
    set n | n in names && n in fates && !fates[n].Untouched? && !fates[n].Candidate?
  }

  // ---- Eviction ----

  datatype Rank = Rank(used: nat, digest: string, size: nat)

  /** Least recently used first, ties by digest. */
  predicate Before(a: Rank, b: Rank) {
    if a.used != b.used then a.used < b.used
    else if a.digest != b.digest then KeyEncoding.Less(a.digest, b.digest)
    else a.size < b.size
  }

  lemma RanksAreOrdered()
    ensures TotalOrder(Before)
  {
    forall a, b ensures !Before(a, a) && (a == b || Before(a, b) || Before(b, a)) {
      KeyEncoding.LessTotal(a.digest, b.digest);
    }
    forall a, b, d | Before(a, b) && Before(b, d) ensures Before(a, d) {
      if a.used == b.used == d.used && a.digest != b.digest && b.digest != d.digest {
        KeyEncoding.LessTransitive(a.digest, b.digest, d.digest);
        KeyEncoding.LessTotal(a.digest, a.digest);
      }
    }
  }

  function RankOf(files: Dir, n: string): Rank
    requires n in files
  {
    Rank(if files[n].Regular? then files[n].modified else 0,
         if EntryDigest(n).Some? then EntryDigest(n).value else "",
         SizeOf(files, n))
  }

  /** The eviction candidates among `names`. */
  function Ranks(files: Dir, fates: Fates, names: set<string>): set<Rank> {
    set n | n in Fated(fates, names, Candidate) && n in files :: RankOf(files, n)
  }

  /** The candidates, the first to go first. */
  ghost function Queue(files: Dir, fates: Fates): (q: seq<Rank>)
    ensures Sorted(Before, q) && Elements(q) == Ranks(files, fates, fates.Keys)
  {
    RanksAreOrdered();
    OrderedSorted(Before, Ranks(files, fates, fates.Keys));
    Ordered(Before, Ranks(files, fates, fates.Keys))
  }

  predicate Met(u: Usage, limits: Limits) {
    u.entries <= Min(limits.targetEntries, limits.hardEntries) && u.bytes <= Min(limits.targetBytes, limits.hardBytes)
  }

  predicate Over(u: Usage, limits: Limits) {
    u.entries > limits.hardEntries || u.bytes > limits.hardBytes
  }

  /** How many of the queue go before both targets are met. */
  function Evictions(q: seq<Rank>, left: Usage, limits: Limits): (k: nat)
    ensures k <= |q|
  {
    if q == [] || Met(left, limits) then 0 else 1 + Evictions(q[1..], Less(left, 1, q[0].size), limits)
  }

  /** What is left to count after the first pass. */
  ghost function AfterSweep(files: Dir, fates: Fates): Usage {
    Less(UsageOf(files), |Dead(fates)|, Sum(files, Dead(fates)))
  }

  /** The part of the queue that a prune evicts. */
  ghost function Evicted(files: Dir, fates: Fates, limits: Limits): seq<Rank> {
    if Over(UsageOf(files), limits)
    then Queue(files, fates)[..Evictions(Queue(files, fates), AfterSweep(files, fates), limits)]
    else []
  }

  function EntryNamesOf(q: seq<Rank>): set<string> {
    set r | r in q :: EntryName(r.digest)
  }

  function SizesOf(q: seq<Rank>): nat {
    if q == [] then 0 else q[0].size + SizesOf(q[1..])
  }

  /** The directory after a prune. */
  ghost function Pruned(files: Dir, c: Context): Dir {
    var fates := FatesOf(files, c);
    files - Swept(fates, files.Keys) - EntryNamesOf(Evicted(files, fates, c.limits))
  }

  datatype Report = Report(
    before: Usage, after: Usage, expired: nat, unused: nat, capacity: nat, temporary: nat, locks: nat)

  /** The count that a prune reports as left. */
  ghost function LeftAfter(files: Dir, c: Context): Usage {
    var fates := FatesOf(files, c);
    var gone := Evicted(files, fates, c.limits);
    Less(AfterSweep(files, fates), |gone|, SizesOf(gone))
  }

  ghost function ReportOf(files: Dir, c: Context, locks: nat): Report {
    var fates := FatesOf(files, c);
    Report(UsageOf(files), LeftAfter(files, c),
           |Fated(fates, files.Keys, Expired)|, |Fated(fates, files.Keys, Unused)|, |Evicted(files, fates, c.limits)|,
           |Fated(fates, files.Keys, Temporary)|, locks)
  }
}
