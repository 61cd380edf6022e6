/** The cache's sequential operations on its directories, updated in place. Nobody else changes the
    directories while one of these runs; the keys that others hold are given. */
module CacheRoot {
  import opened Common
  import opened EntryFormat
  import opened FileNames
  import opened Lookup
  import opened PruneSpec
  import opened PlainTerms
  import opened CacheRuns
  import opened Sorting

  /** `listing` names every element of `names` once, in any order. */
  predicate Lists(listing: seq<string>, names: set<string>) {
    Elements(listing) == names && forall i, j :: 0 <= i < j < |listing| ==> listing[i] != listing[j]
  }

  /** A directory listing, in no particular order. */
  method ReadDir(names: set<string>) returns (listing: seq<string>)
    ensures Lists(listing, names)
  {
    listing := [];
    var left := names;
    while left != {}
      invariant left <= names && Lists(listing, names - left)
      decreases left
    {
      var n :| n in left;
      assert n !in Elements(listing) && Elements(listing + [n]) == Elements(listing) + {n};
      listing, left := listing + [n], left - {n};
    }
    assert names - left == names;
  }

  lemma SeenNext(listing: seq<string>, i: nat)
    requires i < |listing| && forall a, b :: 0 <= a < b < |listing| ==> listing[a] != listing[b]
    ensures Elements(listing[..i + 1]) == Elements(listing[..i]) + {listing[i]}
    ensures listing[i] !in Elements(listing[..i])
  {
    assert listing[..i + 1] == listing[..i] + [listing[i]];
  }

  lemma FatedNext(files: Dir, fates: Fates, seen: set<string>, n: string, fate: Fate)
    requires n in fates && n !in seen
    ensures var f, g := Fated(fates, seen, fate), Fated(fates, seen + {n}, fate);
            && n !in f
            && g == (if fates[n] == fate then f + {n} else f)
            && |g| == |f| + (if fates[n] == fate then 1 else 0)
            && Sum(files, g) == Sum(files, f) + (if fates[n] == fate then SizeOf(files, n) else 0)
  {
    var f, g := Fated(fates, seen, fate), Fated(fates, seen + {n}, fate);
    if fates[n] == fate {
      assert g == f + {n};
      SumAdd(files, f, n);
    } else {
      assert g == f;
    }
  }

  /** The usage of the entries among `seen`. */
  ghost function PartialUsage(files: Dir, seen: set<string>): Usage {
    Usage(|Counted(files) * seen|, Min(Sum(files, Counted(files) * seen), U64_MAX))
  }

  lemma UsageNext(files: Dir, seen: set<string>, n: string)
    requires n in files && n !in seen
    ensures var u := PartialUsage(files, seen);
            PartialUsage(files, seen + {n})
            == if EntryDigest(n).Some? && files[n].Regular?
               then Usage(u.entries + 1, SatAdd(u.bytes, |files[n].bytes|)) else u
  {
    var f, g := Counted(files) * seen, Counted(files) * (seen + {n});
    if n in Counted(files) {
      assert g == f + {n};
      SumAdd(files, f, n);
    } else {
      assert g == f;
    }
  }

  lemma PartialEnds(files: Dir)
    ensures PartialUsage(files, {}) == Usage(0, 0) && PartialUsage(files, files.Keys) == UsageOf(files)
  {
    assert Counted(files) * {} == {} && Counted(files) * files.Keys == Counted(files);
  }

  /** The lock files of the keys that others hold. */
  function HeldLocks(held: set<string>): set<string> {
    set d | d in held :: LockName(d)
  }

  /** The lock files left once those among `seen` have been swept. */
  function LocksKept(locks: Dir, seen: set<string>, held: set<string>): Dir {
    map n | n in locks && (n in seen ==> locks[n].Regular? && n in HeldLocks(held)) :: locks[n]
  }

  function UnheldLocks(locks: Dir, seen: set<string>, held: set<string>): set<string> {
    set n | n in seen && n in locks && locks[n].Regular? && n !in HeldLocks(held)
  }

  lemma LocksPlainly(locks: Dir, held: set<string>)
    ensures var kept := LocksKept(locks, locks.Keys, held);
            && (forall n :: n in kept <==> n in locks && locks[n].Regular? && exists d :: d in held && n == d + ".lock")
            && UnheldLocks(locks, locks.Keys, held) == set n | n in locks && locks[n].Regular? && n !in kept
  {
    assert forall n :: n in HeldLocks(held) <==> exists d :: d in held && n == d + ".lock" by {
      forall d | d in held ensures LockName(d) == d + ".lock" { }
    }
  }

  lemma LocksNext(locks: Dir, seen: set<string>, n: string, held: set<string>)
    requires n in locks && n !in seen
    ensures var kept := LocksKept(locks, seen, held);
            var stays := locks[n].Regular? && n in HeldLocks(held);
            && n in kept && kept[n] == locks[n]
            && LocksKept(locks, seen + {n}, held) == (if stays then kept else kept - {n})
            && |UnheldLocks(locks, seen + {n}, held)|
               == |UnheldLocks(locks, seen, held)| + if locks[n].Regular? && n !in HeldLocks(held) then 1 else 0
  {
    var u := UnheldLocks(locks, seen, held);
    if locks[n].Regular? && n !in HeldLocks(held) {
      assert UnheldLocks(locks, seen + {n}, held) == u + {n};
    } else {
      assert UnheldLocks(locks, seen + {n}, held) == u;
    }
  }

  /** The first pass so far: the directory, the count left, the counters, and the candidates. */
  datatype Progress = Progress(files: Dir, left: Usage, expired: nat, unused: nat, temporary: nat, ranks: set<Rank>)

  ghost function ProgressAt(files: Dir, fates: Fates, seen: set<string>): Progress {
    Progress(files - Swept(fates, seen), LeftAt(files, fates, seen, UsageOf(files)),
             |Fated(fates, seen, Expired)|, |Fated(fates, seen, Unused)|, |Fated(fates, seen, Fate.Temporary)|,
             Ranks(files, fates, seen))
  }

  /** One more name, of this fate, rank and size. */
  ghost function Advance(p: Progress, n: string, fate: Fate, rank: Rank, size: nat): Progress {
    match fate
    case Untouched => p
    case Temporary => p.(files := p.files - {n}, temporary := p.temporary + 1)
    case Odd => p.(files := p.files - {n})
    case Expired => p.(files := p.files - {n}, left := Less(p.left, 1, size), expired := p.expired + 1)
    case Unused => p.(files := p.files - {n}, left := Less(p.left, 1, size), unused := p.unused + 1)
    case Candidate => p.(ranks := p.ranks + {rank})
  }

  lemma RanksNext(files: Dir, fates: Fates, seen: set<string>, n: string)
    requires n in files && n in fates && n !in seen
    ensures Ranks(files, fates, seen + {n})
         == Ranks(files, fates, seen) + (if fates[n].Candidate? then {RankOf(files, n)} else {})
  {
    FatedNext(files, fates, seen, n, Candidate);
  }

  lemma SweptNext(files: Dir, fates: Fates, seen: set<string>, n: string)
    requires n in fates && n !in seen
    ensures files - Swept(fates, seen + {n})
         == if fates[n].Untouched? || fates[n].Candidate? then files - Swept(fates, seen)
            else files - Swept(fates, seen) - {n}
    ensures n in files ==> n in files - Swept(fates, seen)
  {
  }

  /** The count left once the dead among `seen` are gone. */
  ghost function LeftAt(files: Dir, fates: Fates, seen: set<string>, u: Usage): Usage {
    Less(u, |Fated(fates, seen, Expired)| + |Fated(fates, seen, Unused)|,
         Sum(files, Fated(fates, seen, Expired)) + Sum(files, Fated(fates, seen, Unused)))
  }

  lemma LeftNext(files: Dir, fates: Fates, seen: set<string>, n: string, u: Usage)
    requires n in fates && n !in seen
    ensures LeftAt(files, fates, seen + {n}, u)
         == if fates[n].Expired? || fates[n].Unused? then Less(LeftAt(files, fates, seen, u), 1, SizeOf(files, n))
            else LeftAt(files, fates, seen, u)
  {
    var e, e' := Fated(fates, seen, Expired), Fated(fates, seen + {n}, Expired);
    var d, d' := Fated(fates, seen, Unused), Fated(fates, seen + {n}, Unused);
    FatedNext(files, fates, seen, n, Expired);
    FatedNext(files, fates, seen, n, Unused);
    var k, b := |e| + |d|, Sum(files, e) + Sum(files, d);
    if fates[n].Expired? || fates[n].Unused? {
      assert |e'| + |d'| == k + 1 && Sum(files, e') + Sum(files, d') == b + SizeOf(files, n);
      LessTwice(u, k, b, 1, SizeOf(files, n));
    } else {
      assert e' == e && d' == d;
    }
  }

  lemma CountersNext(files: Dir, fates: Fates, seen: set<string>, n: string, fate: Fate)
    requires n in fates && n !in seen
    ensures |Fated(fates, seen + {n}, fate)| == |Fated(fates, seen, fate)| + if fates[n] == fate then 1 else 0
  {
    FatedNext(files, fates, seen, n, fate);
  }

  lemma ProgressNext(files: Dir, fates: Fates, seen: set<string>, n: string)
    requires n in files && n in fates && n !in seen
    ensures ProgressAt(files, fates, seen + {n})
         == Advance(ProgressAt(files, fates, seen), n, fates[n], RankOf(files, n), SizeOf(files, n))
    ensures n in ProgressAt(files, fates, seen).files && ProgressAt(files, fates, seen).files[n] == files[n]
  {
    LeftNext(files, fates, seen, n, UsageOf(files));
    CountersNext(files, fates, seen, n, Fate.Temporary);
    CountersNext(files, fates, seen, n, Expired);
    CountersNext(files, fates, seen, n, Unused);
    RanksNext(files, fates, seen, n);
    SweptNext(files, fates, seen, n);
    var p, q := ProgressAt(files, fates, seen), ProgressAt(files, fates, seen + {n});
    var a := Advance(p, n, fates[n], RankOf(files, n), SizeOf(files, n));
    assert q.files == a.files && q.ranks == a.ranks;
    assert q.left == a.left && q.expired == a.expired && q.unused == a.unused && q.temporary == a.temporary;
  }

  /** A file that counts by its fate is a regular entry, of the rank and size on record. */
  lemma FateFits(files: Dir, c: Context, n: string)
    requires n in files
    ensures var fate := FatesOf(files, c)[n];
            fate.Expired? || fate.Unused? || fate.Candidate? ==>
              && files[n].Regular? && EntryDigest(n).Some? && SizeOf(files, n) == |files[n].bytes|
              && RankOf(files, n) == Rank(files[n].modified, EntryDigest(n).value, |files[n].bytes|)
  {
  }

  /** Everything the first pass needs of the next name of its listing. */
  lemma FirstLook(files: Dir, c: Context, listing: seq<string>, i: nat, seen: set<string>)
    requires Lists(listing, files.Keys) && i < |listing| && seen == Elements(listing[..i])
    ensures var n, fates := listing[i], FatesOf(files, c);
            var before, after := ProgressAt(files, fates, seen), ProgressAt(files, fates, seen + {n});
            && Elements(listing[..i + 1]) == seen + {n}
            && n in files && n in before.files && before.files[n] == files[n]
            && after == Advance(before, n, fates[n], RankOf(files, n), SizeOf(files, n))
            && (fates[n].Expired? || fates[n].Unused? || fates[n].Candidate? ==>
                  && files[n].Regular? && EntryDigest(n).Some? && SizeOf(files, n) == |files[n].bytes|
                  && RankOf(files, n) == Rank(files[n].modified, EntryDigest(n).value, |files[n].bytes|))
  {
    assert listing[i] in Elements(listing);
    SeenNext(listing, i);
    ProgressNext(files, FatesOf(files, c), seen, listing[i]);
    FateFits(files, c, listing[i]);
  }

  lemma ProgressStarts(files: Dir, fates: Fates)
    ensures ProgressAt(files, fates, {}) == Progress(files, UsageOf(files), 0, 0, 0, {})
  {
    assert forall f :: Fated(fates, {}, f) == {};
    assert files - Swept(fates, {}) == files;
  }

  lemma ProgressEnds(files: Dir, fates: Fates)
    requires fates.Keys == files.Keys
    ensures ProgressAt(files, fates, files.Keys)
         == Progress(files - Swept(fates, files.Keys), AfterSweep(files, fates), |Fated(fates, files.Keys, Expired)|,
                     |Fated(fates, files.Keys, Unused)|, |Fated(fates, files.Keys, Fate.Temporary)|,
                     Ranks(files, fates, files.Keys))
  {
    var e, u := Fated(fates, files.Keys, Expired), Fated(fates, files.Keys, Unused);
    assert e !! u && Dead(fates) == e + u;
    SumUnion(files, e, u);
  }

  /** A candidate's entry is its own, is still in place after the sweep, and nobody holds its key. */
  lemma CandidateInPlace(files: Dir, c: Context, r: Rank)
    requires r in Ranks(files, FatesOf(files, c), files.Keys)
    ensures var name := EntryName(r.digest);
            && name in files - Swept(FatesOf(files, c), files.Keys)
            && files[name].Regular? && r == RankOf(files, name)
            && EntryDigest(name) == Some(r.digest) && r.digest !in c.held
  {
    var n :| n in Fated(FatesOf(files, c), files.Keys, Candidate) && r == RankOf(files, n);
    assert EntryDigest(n).Some?;
    EntryNames(n, r.digest);
  }

  /** Two candidates never share an entry. */
  lemma CandidatesDiffer(files: Dir, c: Context, q: seq<Rank>, k: nat, j: nat)
    requires q == Queue(files, FatesOf(files, c)) && k < j < |q|
    ensures EntryName(q[k].digest) != EntryName(q[j].digest)
  {
    assert q[k] in Elements(q) && q[j] in Elements(q);
    CandidateInPlace(files, c, q[k]);
    CandidateInPlace(files, c, q[j]);
    assert Before(q[k], q[j]);
    RanksAreOrdered();
  }

  lemma {:induction false} SizesSnoc(q: seq<Rank>, j: nat)
    requires j < |q|
    ensures SizesOf(q[..j + 1]) == SizesOf(q[..j]) + q[j].size
  {
    if j > 0 {
      SizesSnoc(q[1..], j - 1);
      assert q[..j + 1][1..] == q[1..][..j] && q[..j][1..] == q[1..][..j - 1];
    }
  }

  lemma NamesSnoc(q: seq<Rank>, j: nat)
    requires j < |q|
    ensures EntryNamesOf(q[..j + 1]) == EntryNamesOf(q[..j]) + {EntryName(q[j].digest)}
  {
    var a, b := q[..j], q[..j + 1];
    assert forall r :: r in b <==> r in a || r == q[j] by {
      assert b == a + [q[j]];
    }
  }

  lemma NotYetEvicted(files: Dir, c: Context, q: seq<Rank>, j: nat)
    requires q == Queue(files, FatesOf(files, c)) && j < |q|
    ensures EntryName(q[j].digest) !in EntryNamesOf(q[..j])
  {
    forall r | r in q[..j] ensures EntryName(r.digest) != EntryName(q[j].digest) {
      var k :| 0 <= k < j && q[k] == r;
      CandidatesDiffer(files, c, q, k, j);
    }
  }

  lemma RemoveOneMore(files: Dir, gone: set<string>, n: string)
    ensures files - (gone + {n}) == files - gone - {n}
  {
  }

  /** The next candidate is in place, unheld and as recorded, so the second look lets it go. */
  lemma EvictReady(files: Dir, c: Context, q: seq<Rank>, j: nat)
    requires q == Queue(files, FatesOf(files, c)) && j < |q|
    ensures var base := files - Swept(FatesOf(files, c), files.Keys);
            var name := EntryName(q[j].digest);
            && name in base - EntryNamesOf(q[..j])
            && files[name].Regular? && files[name].modified == q[j].used && q[j].digest !in c.held
            && base - EntryNamesOf(q[..j + 1]) == base - EntryNamesOf(q[..j]) - {name}
  {
    assert q[j] in Elements(q);
    CandidateInPlace(files, c, q[j]);
    NotYetEvicted(files, c, q, j);
    NamesSnoc(q, j);
    RemoveOneMore(files - Swept(FatesOf(files, c), files.Keys), EntryNamesOf(q[..j]), EntryName(q[j].digest));
  }

  /** The second pass after `j` evictions, with `left` still to count. */
  ghost predicate Evicting(q: seq<Rank>, swept: Usage, limits: Limits, j: nat, left: Usage) {
    && j <= |q| && left == Less(swept, j, SizesOf(q[..j]))
    && Evictions(q, swept, limits) == j + Evictions(q[j..], left, limits)
  }

  lemma EvictStarts(q: seq<Rank>, swept: Usage, limits: Limits)
    ensures Evicting(q, swept, limits, 0, swept)
  {
    assert q[0..] == q && q[..0] == [];
  }

  lemma EvictNext(q: seq<Rank>, swept: Usage, limits: Limits, j: nat, left: Usage)
    requires Evicting(q, swept, limits, j, left) && j < |q| && !Met(left, limits)
    ensures Evicting(q, swept, limits, j + 1, Less(left, 1, q[j].size))
  {
    SizesSnoc(q, j);
    LessTwice(swept, j, SizesOf(q[..j]), 1, q[j].size);
    assert q[j..][1..] == q[j + 1..];
  }

  lemma EvictEnds(q: seq<Rank>, swept: Usage, limits: Limits, j: nat, left: Usage)
    requires Evicting(q, swept, limits, j, left) && (j == |q| || Met(left, limits))
    ensures Evictions(q, swept, limits) == j
  {
  }

  datatype Maintenance = NotNeeded | PrunedTo(report: Report) | Deferred

  datatype Stored = Written(maintenance: Maintenance) | TooLarge(bytes: nat)

  /** Where there is nobody to hold a key, no temporary file, and each entry is evictable. */
  predicate AllEvictable(files: Dir, now: nat, limits: Limits) {
    forall n :: n in files ==>
      !IsTemporary(n) && (EntryDigest(n).Some? ==> Evictable(n, files[n], Context({}, now, limits)))
  }

  lemma PrunedAllEvictable(files: Dir, now: nat, limits: Limits)
    ensures AllEvictable(Pruned(files, Context({}, now, limits)), now, limits)
  {
    var c := Context({}, now, limits);
    forall n | n in Pruned(files, c)
      ensures !IsTemporary(n) && (EntryDigest(n).Some? ==> Evictable(n, Pruned(files, c)[n], c))
    {
      LeftPlainly(files, c, n);
    }
  }

  /** When a prune is due, in clocks and caps. */
  lemma DuePlainly(setup: Setup, w: World, call: StoreCall)
    ensures Due(setup, w, call) <==>
            || OverCap(CacheRuns.Written(setup, w.entries, call), setup.limits)
            || call.clock.sweep > w.prunedAt + setup.limits.sweepEvery
  {
  }

  class Cache {
    const schema: nat
    const limits: Limits
    var entries: Dir
    var locks: Dir
    var prunedAt: nat

    constructor (schema: nat, limits: Limits, now: nat)
      ensures this.schema == schema && this.limits == limits
      ensures entries == map[] && locks == map[] && prunedAt == now
    {
      this.schema, this.limits := schema, limits;
      entries, locks, prunedAt := map[], map[], now;
    }

    function Setup(): Setup {
      CacheRuns.Setup(schema, limits)
    }

    function World(): World
      reads this
    {
      CacheRuns.World(entries, prunedAt)
    }

    /** `Cache::lookup`, and `KeyLock::lookup` when `locked`. */
    method Get<V>(key: Key, locked: bool, now: nat, decode: Bytes -> Option<V>) returns (answer: Answer<V>)
      modifies this`entries
      ensures var (wanted, effect) := Read(EntryOf(old(entries), key), key, schema, limits, now, decode);
              answer == wanted && entries == Visited(old(entries), key, effect, locked, now)
      ensures World() == Step(Setup(), old(World()), Op.Get(key, locked, now, Untyped(decode)))
      ensures EntryOf(entries, key)
           == After(EntryOf(old(entries), key), key, limits, Visit(schema, now, locked), decode)
      ensures forall n :: n != EntryName(key.digest) ==>
                (n in entries <==> n in old(entries)) && (n in entries ==> entries[n] == old(entries)[n])
      ensures !locked ==> entries.Keys == old(entries).Keys
    {
      var name := EntryName(key.digest);
      var read := Read(EntryOf(entries, key), key, schema, limits, now, decode);
      EffectIsUntyped(EntryOf(entries, key), key, schema, limits, now, decode);
      answer := read.0;
      var effect := read.1;
      if effect.Discard? && locked {
        entries := entries - {name};
      } else if effect.Touch? && name in entries && entries[name].Regular? {
        entries := entries[name := entries[name].(modified := now)];
      }
      assert entries == Visited(old(entries), key, effect, locked, now);
    }

    /** Entry files and their bytes, in any listing order. */
    method CountUsage() returns (u: Usage)
      ensures u == UsageOf(entries)
    {
      var listing := ReadDir(entries.Keys);
      PartialEnds(entries);
      assert Elements(listing[..0]) == {};
      u := Usage(0, 0);
      var i := 0;
      ghost var seen: set<string> := {};
      while i < |listing|
        invariant 0 <= i <= |listing| && seen == Elements(listing[..i])
        invariant u == PartialUsage(entries, seen)
      {
        var n := listing[i];
        assert n in Elements(listing);
        SeenNext(listing, i);
        UsageNext(entries, seen, n);
        seen := seen + {n};
        if EntryDigest(n).Some? && entries[n].Regular? {
          u := Usage(u.entries + 1, SatAdd(u.bytes, |entries[n].bytes|));
        }
        i := i + 1;
      }
      assert listing[..i] == listing;
    }

    /** Removes every lock file that nobody holds, and whatever is no regular file. */
    method RemoveUnheldLocks(held: set<string>) returns (removed: nat)
      modifies this`locks
      ensures locks == LocksKept(old(locks), old(locks).Keys, held)
      ensures removed == |UnheldLocks(old(locks), old(locks).Keys, held)|
      ensures forall n :: n in locks <==>
                            n in old(locks) && old(locks)[n].Regular? && exists d :: d in held && n == d + ".lock"
      ensures forall n :: n in locks ==> locks[n] == old(locks)[n]
      ensures removed == |set n | n in old(locks) && old(locks)[n].Regular? && n !in locks|
    {
      var listing := ReadDir(locks.Keys);
      ghost var seen: set<string> := {};
      removed := 0;
      var i := 0;
      while i < |listing|
        invariant 0 <= i <= |listing| && seen == Elements(listing[..i])
        invariant locks == LocksKept(old(locks), seen, held)
        invariant removed == |UnheldLocks(old(locks), seen, held)|
      {
        var n := listing[i];
        assert n in Elements(listing);
        SeenNext(listing, i);
        LocksNext(old(locks), seen, n, held);
        seen := seen + {n};
        if locks[n].Special? {
          locks := locks - {n};
        } else if n !in HeldLocks(held) {
          locks, removed := locks - {n}, removed + 1;
        }
        i := i + 1;
      }
      assert listing[..i] == listing;
      LocksPlainly(old(locks), held);
    }

    /** The first pass of a prune: each file by its fate, an entry only under its key's lock. */
    method Sweep(c: Context, before: Usage)
      returns (left: Usage, kept: set<Rank>, expired: nat, unused: nat, temporary: nat)
      requires before == UsageOf(entries)
      modifies this`entries
      ensures Progress(entries, left, expired, unused, temporary, kept)
           == ProgressAt(old(entries), FatesOf(old(entries), c), old(entries).Keys)
    {
      var listing := ReadDir(entries.Keys);
      ghost var files, fates := entries, FatesOf(entries, c);
      ghost var seen: set<string> := {};
      ghost var progress := ProgressAt(files, fates, seen);
      left, kept, expired, unused, temporary := before, {}, 0, 0, 0;
      ProgressStarts(files, fates);
      var i := 0;
      while i < |listing|
        invariant 0 <= i <= |listing| && seen == Elements(listing[..i])
        invariant progress == ProgressAt(files, fates, seen)
        invariant progress == Progress(entries, left, expired, unused, temporary, kept)
      {
        var n := listing[i];
        FirstLook(files, c, listing, i, seen);
        progress := Advance(progress, n, fates[n], RankOf(files, n), SizeOf(files, n));
        seen := seen + {n};
        i := i + 1;
        var file := entries[n];
        match FateOf(n, file, c.held, c.now, c.limits)
        case Untouched =>
        case Temporary => entries, temporary := entries - {n}, temporary + 1;
        case Odd => entries := entries - {n};
        case Expired => entries, expired, left := entries - {n}, expired + 1, Less(left, 1, |file.bytes|);
        case Unused => entries, unused, left := entries - {n}, unused + 1, Less(left, 1, |file.bytes|);
        case Candidate => kept := kept + {Rank(file.modified, EntryDigest(n).value, |file.bytes|)};
      }
      assert listing[..i] == listing;
    }

    /** The candidates in order of use. */
    method SortKept(kept: set<Rank>, ghost files: Dir, ghost fates: Fates) returns (q: seq<Rank>)
      requires kept == Ranks(files, fates, fates.Keys)
      ensures q == Queue(files, fates)
    {
      RanksAreOrdered();
      q := Sort(Before, kept);
    }

    /** The second pass: candidates go in order until both targets are met. Each is looked at again
        under its key's lock before it goes. */
    method Evict(ghost files: Dir, c: Context, swept: Usage, kept: set<Rank>) returns (left: Usage, capacity: nat)
      requires c.limits == limits && kept == Ranks(files, FatesOf(files, c), files.Keys)
      requires entries == files - Swept(FatesOf(files, c), files.Keys)
      modifies this`entries
      ensures var q := Queue(files, FatesOf(files, c));
              var gone := q[..Evictions(q, swept, limits)];
              && entries == old(entries) - EntryNamesOf(gone)
              && capacity == |gone| && left == Less(swept, |gone|, SizesOf(gone))
    {
      var q := SortKept(kept, files, FatesOf(files, c));
      ghost var base := entries;
      left, capacity := swept, 0;
      var j := 0;
      EvictStarts(q, swept, limits);
      assert EntryNamesOf(q[..0]) == {};
      while j < |q| && !Met(left, limits)
        invariant 0 <= j <= |q| && capacity == j
        invariant entries == base - EntryNamesOf(q[..j])
        invariant Evicting(q, swept, limits, j, left)
      {
        EvictReady(files, c, q, j);
        EvictNext(q, swept, limits, j, left);
        var r := q[j];
        var name := EntryName(r.digest);
        if r.digest !in c.held && name in entries && entries[name].Regular? && entries[name].modified == r.used {
          entries, capacity, left := entries - {name}, capacity + 1, Less(left, 1, r.size);
        }
        j := j + 1;
      }
      EvictEnds(q, swept, limits, j, left);
    }

    /** The second pass, only when the cache was over a hard cap. */
    method EvictIfOver(ghost files: Dir, c: Context, before: Usage, swept: Usage, kept: set<Rank>)
      returns (left: Usage, capacity: nat)
      requires c.limits == limits && kept == Ranks(files, FatesOf(files, c), files.Keys)
      requires entries == files - Swept(FatesOf(files, c), files.Keys)
      requires before == UsageOf(files) && swept == AfterSweep(files, FatesOf(files, c))
      modifies this`entries
      ensures entries == Pruned(files, c)
      ensures left == LeftAfter(files, c)
      ensures capacity == |Evicted(files, FatesOf(files, c), limits)|
    {
      if Over(before, limits) {
        left, capacity := Evict(files, c, swept, kept);
      } else {
        left, capacity := swept, 0;
        assert EntryNamesOf([]) == {};
      }
    }

    /** One prune, with its locks taken: first the leftover lock files, then the entries. */
    method Prune(held: set<string>, now: nat) returns (report: Report)
      modifies this
      ensures entries == Pruned(old(entries), Context(held, now, limits))
      ensures locks == LocksKept(old(locks), old(locks).Keys, held)
      ensures report
           == ReportOf(old(entries), Context(held, now, limits), |UnheldLocks(old(locks), old(locks).Keys, held)|)
      ensures prunedAt == now
      ensures held == {} ==> World() == Step(Setup(), old(World()), Op.Prune(now))
      ensures held == {} ==> AllEvictable(entries, now, limits)
    {
      PrunedAllEvictable(entries, now, limits);
      var removed := RemoveUnheldLocks(held);
      var before := CountUsage();
      var c := Context(held, now, limits);
      ghost var files := entries;
      var swept, kept, expired, unused, temporary := Sweep(c, before);
      ProgressEnds(files, FatesOf(files, c));
      var left, capacity := EvictIfOver(files, c, before, swept, kept);
      prunedAt := now;
      report := Report(before, left, expired, unused, capacity, temporary, removed);
    }

    /** `KeyLock::store` of an encoded value. `free` says whether a prune could take its locks. */
    method Store(key: Key, value: ValueText, policy: Policy, clock: Clock, held: set<string>, free: bool)
      returns (r: Stored)
      modifies this
      ensures var call, before := StoreCall(key, value, policy, clock), old(World());
              var written := CacheRuns.Written(Setup(), old(entries), call);
              var c := Context(held, clock.prune, limits);
              && World() == AfterStore(Setup(), before, call, held, free)
              && (held == {} && free ==> World() == Step(Setup(), before, Op.Store(call)))
              && (if TooBig(Setup(), call) then r == TooLarge(|EntryBytes(Setup(), call)|) && locks == old(locks)
                  else if Due(Setup(), before, call) && free then
                    && locks == LocksKept(old(locks), old(locks).Keys, held)
                    && r == Written(PrunedTo(ReportOf(written, c, |UnheldLocks(old(locks), old(locks).Keys, held)|)))
                  else
                    && locks == old(locks)
                    && r == Written(if Due(Setup(), before, call) then Deferred else NotNeeded))
      ensures var name := EntryName(key.digest);
              var bytes := Print(HeaderFor(key, schema, clock.header, policy), value);
              var written := old(entries)[name := Regular(bytes, clock.file)];
              var aged := clock.sweep > old(prunedAt) + limits.sweepEvery;
              if |bytes| > limits.maxEntryBytes then r == TooLarge(|bytes|) && entries == old(entries)
              else
                && r.Written?
                && (r.maintenance.NotNeeded? <==> !OverCap(written, limits) && !aged)
                && (free && (OverCap(written, limits) || aged) ==> r.maintenance.PrunedTo? && prunedAt == clock.prune)
                && (r.maintenance.PrunedTo? && held == {} ==> AllEvictable(entries, clock.prune, limits))
                && (!r.maintenance.PrunedTo? ==> entries == written && prunedAt == old(prunedAt))
    {
      DuePlainly(Setup(), World(), StoreCall(key, value, policy, clock));
      ghost var call := StoreCall(key, value, policy, clock);
      PrunedAllEvictable(CacheRuns.Written(Setup(), entries, call), clock.prune, limits);
      var bytes := Print(HeaderFor(key, schema, clock.header, policy), value);
      if |bytes| > limits.maxEntryBytes {
        return TooLarge(|bytes|);
      }
      entries := entries[EntryName(key.digest) := Regular(bytes, clock.file)];
      var usage := CountUsage();
      if Over(usage, limits) || SatSub(clock.sweep, prunedAt) > limits.sweepEvery {
        if free {
          var report := Prune(held, clock.prune);
          return Written(PrunedTo(report));
        }
        return Written(Deferred);
      }
      return Written(NotNeeded);
    }
  }
}
