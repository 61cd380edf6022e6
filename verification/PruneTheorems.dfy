/** What a prune achieves: minimal eviction, conserved counts, agreement with lookups, and the bound
    over whole runs. */
module PruneTheorems {
  import opened Common
  import opened EntryFormat
  import opened FileNames
  import opened Lookup
  import opened PruneSpec
  import opened Sorting
  import opened CacheRoot

  // ---- Fates and counted entries ----

  /** Dead files and candidates are counted entries, the rest of what goes is not; and a counted
      entry stays out of a prune's reach only when its key is held. */
  lemma FateFacts(files: Dir, c: Context, n: string)
    requires n in files
    ensures var f := FatesOf(files, c)[n];
            && (f.Expired? || f.Unused? || f.Candidate? ==> n in Counted(files) && EntryDigest(n).value !in c.held)
            && (f.Temporary? || f.Odd? ==> n !in Counted(files))
            && (n in Counted(files) && f.Untouched? ==> EntryDigest(n).value in c.held)
  {
    NotBoth(n);
  }

  lemma SweptCounted(files: Dir, c: Context)
    ensures Counted(files - Swept(FatesOf(files, c), files.Keys)) == Counted(files) - Dead(FatesOf(files, c))
    ensures Dead(FatesOf(files, c)) <= Counted(files)
  {
    var fates := FatesOf(files, c);
    forall n | n in files
      ensures n in Counted(files) ==> (n in Swept(fates, files.Keys) <==> n in Dead(fates))
      ensures n in Dead(fates) ==> n in Counted(files)
    {
      FateFacts(files, c, n);
    }
  }

  /** The first `j` of the queue name `j` counted entries, none of them dead, of the sizes queued. */
  lemma {:induction false} QueueFront(files: Dir, c: Context, q: seq<Rank>, j: nat)
    requires q == Queue(files, FatesOf(files, c)) && j <= |q|
    ensures |EntryNamesOf(q[..j])| == j && Sum(files, EntryNamesOf(q[..j])) == SizesOf(q[..j])
    ensures EntryNamesOf(q[..j]) <= Counted(files) - Dead(FatesOf(files, c))
  {
    if j == 0 {
      assert q[..0] == [] && EntryNamesOf([]) == {};
    } else {
      QueueFront(files, c, q, j - 1);
      QueueFrontNext(files, c, q, j - 1);
    }
  }

  lemma CandidateCounted(files: Dir, c: Context, r: Rank)
    requires r in Ranks(files, FatesOf(files, c), files.Keys)
    ensures EntryName(r.digest) in Counted(files) - Dead(FatesOf(files, c))
    ensures SizeOf(files, EntryName(r.digest)) == r.size
  {
    var n :| n in Fated(FatesOf(files, c), files.Keys, Candidate) && r == RankOf(files, n);
    FateFacts(files, c, n);
    EntryNames(n, r.digest);
  }

  lemma QueueFrontNext(files: Dir, c: Context, q: seq<Rank>, j: nat)
    requires q == Queue(files, FatesOf(files, c)) && j < |q|
    requires |EntryNamesOf(q[..j])| == j && Sum(files, EntryNamesOf(q[..j])) == SizesOf(q[..j])
    requires EntryNamesOf(q[..j]) <= Counted(files) - Dead(FatesOf(files, c))
    ensures |EntryNamesOf(q[..j + 1])| == j + 1 && Sum(files, EntryNamesOf(q[..j + 1])) == SizesOf(q[..j + 1])
    ensures EntryNamesOf(q[..j + 1]) <= Counted(files) - Dead(FatesOf(files, c))
  {
    NotYetEvicted(files, c, q, j);
    NamesSnoc(q, j);
    assert q[j] in Ranks(files, FatesOf(files, c), files.Keys) by { assert q[j] in Elements(q); }
    CandidateCounted(files, c, q[j]);
    FrontNext(files, q, j);
  }

  lemma FrontNext(files: Dir, q: seq<Rank>, j: nat)
    requires j < |q| && |EntryNamesOf(q[..j])| == j && Sum(files, EntryNamesOf(q[..j])) == SizesOf(q[..j])
    requires EntryName(q[j].digest) !in EntryNamesOf(q[..j]) && SizeOf(files, EntryName(q[j].digest)) == q[j].size
    ensures |EntryNamesOf(q[..j + 1])| == j + 1 && Sum(files, EntryNamesOf(q[..j + 1])) == SizesOf(q[..j + 1])
  {
    var front, name := EntryNamesOf(q[..j]), EntryName(q[j].digest);
    NamesSnoc(q, j);
    SizesSnoc(q, j);
    SumAdd(files, front, name);
    assert |front + {name}| == |front| + 1;
  }

  /** The directory after the first pass and the first `j` evictions. */
  ghost function Stage(files: Dir, c: Context, j: nat): Dir
    requires j <= |Queue(files, FatesOf(files, c))|
  {
    files - Swept(FatesOf(files, c), files.Keys) - EntryNamesOf(Queue(files, FatesOf(files, c))[..j])
  }

  ghost function StageLeft(files: Dir, c: Context, j: nat): Usage
    requires j <= |Queue(files, FatesOf(files, c))|
  {
    Less(AfterSweep(files, FatesOf(files, c)), j, SizesOf(Queue(files, FatesOf(files, c))[..j]))
  }

  lemma SubsetSum(files: Dir, all: set<string>, part: set<string>)
    requires part <= all
    ensures |all - part| == |all| - |part| && Sum(files, all) == Sum(files, all - part) + Sum(files, part)
  {
    assert all == (all - part) + part;
    SumUnion(files, all - part, part);
  }

  lemma StageCounts(files: Dir, c: Context, j: nat)
    requires j <= |Queue(files, FatesOf(files, c))|
    ensures var q, dead := Queue(files, FatesOf(files, c)), Dead(FatesOf(files, c));
            && Counted(Stage(files, c, j)) == Counted(files) - dead - EntryNamesOf(q[..j])
            && |Counted(files)| == |Counted(Stage(files, c, j))| + |dead| + j
            && Sum(files, Counted(files))
               == Sum(files, Counted(Stage(files, c, j))) + Sum(files, dead) + SizesOf(q[..j])
            && Sum(Stage(files, c, j), Counted(Stage(files, c, j))) == Sum(files, Counted(Stage(files, c, j)))
  {
    var q, dead := Queue(files, FatesOf(files, c)), Dead(FatesOf(files, c));
    SweptCounted(files, c);
    QueueFront(files, c, q, j);
    CountedMinus(files - Swept(FatesOf(files, c), files.Keys), EntryNamesOf(q[..j]));
    SubsetSum(files, Counted(files), dead);
    SubsetSum(files, Counted(files) - dead, EntryNamesOf(q[..j]));
    SumSame(Stage(files, c, j), files, Counted(Stage(files, c, j)));
  }

  lemma CountedMinus(files: Dir, gone: set<string>)
    ensures Counted(files - gone) == Counted(files) - gone
  {
  }

  lemma LessExact(u: Usage, v: Usage, e: nat, b: nat, e': nat, b': nat)
    requires u.entries == v.entries + e + e' && u.bytes == v.bytes + b + b'
    ensures Less(Less(u, e, b), e', b') == v
  {
  }

  /** With totals that fit in 64 bits, nothing is lost on the way to a stage. */
  lemma TotalsAreExact(files: Dir, c: Context, j: nat)
    requires Fits(files) && j <= |Queue(files, FatesOf(files, c))|
    ensures var u, v, dead := UsageOf(files), UsageOf(Stage(files, c, j)), Dead(FatesOf(files, c));
            && u.entries == v.entries + |dead| + j
            && u.bytes == v.bytes + Sum(files, dead) + SizesOf(Queue(files, FatesOf(files, c))[..j])
    ensures Fits(Stage(files, c, j))
  {
    StageCounts(files, c, j);
  }

  /** At every stage the count kept by subtraction is what a fresh count would give: no subtraction
      saturates. */
  lemma CountsAreExact(files: Dir, c: Context, j: nat)
    requires Fits(files) && j <= |Queue(files, FatesOf(files, c))|
    ensures StageLeft(files, c, j) == UsageOf(Stage(files, c, j))
  {
    TotalsAreExact(files, c, j);
    var dead := Dead(FatesOf(files, c));
    LessExact(UsageOf(files), UsageOf(Stage(files, c, j)), |dead|, Sum(files, dead),
              j, SizesOf(Queue(files, FatesOf(files, c))[..j]));
  }

  /** What the byte count does not see: it stops at 2^64 - 1. */
  ghost function Excess(files: Dir): nat {
    SatSub(Sum(files, Counted(files)), U64_MAX)
  }

  lemma LessLags(u: nat, entries: nat, bytes: nat, dead: nat, deadBytes: nat, gone: nat, goneBytes: nat)
    requires entries >= dead + gone && bytes >= deadBytes + goneBytes
    ensures var left := Less(Less(Usage(entries, Min(bytes, u)), dead, deadBytes), gone, goneBytes);
            && left.entries == entries - dead - gone
            && left.bytes <= bytes - deadBytes - goneBytes <= left.bytes + SatSub(bytes, u)
            && left.bytes <= u
  {
  }

  /** For any total: at every stage the entries left are counted exactly, and the bytes left are
      counted short by at most the excess. */
  lemma CountLags(files: Dir, c: Context, j: nat)
    requires j <= |Queue(files, FatesOf(files, c))|
    ensures var left, stage := StageLeft(files, c, j), Stage(files, c, j);
            && left.entries == |Counted(stage)| && left.bytes <= U64_MAX
            && left.bytes <= Sum(stage, Counted(stage)) <= left.bytes + Excess(files)
  {
    StageCounts(files, c, j);
    var dead := Dead(FatesOf(files, c));
    LessLags(U64_MAX, |Counted(files)|, Sum(files, Counted(files)), |dead|, Sum(files, dead),
             j, SizesOf(Queue(files, FatesOf(files, c))[..j]));
  }

  /** The number of evictions of a prune. */
  ghost function Goes(files: Dir, c: Context): (k: nat)
    ensures k <= |Queue(files, FatesOf(files, c))|
  {
    |Evicted(files, FatesOf(files, c), c.limits)|
  }

  lemma EvictedIsFront(files: Dir, c: Context)
    ensures Evicted(files, FatesOf(files, c), c.limits) == Queue(files, FatesOf(files, c))[..Goes(files, c)]
  {
    assert Queue(files, FatesOf(files, c))[..0] == [];
  }

  lemma PrunedIsStage(files: Dir, c: Context)
    ensures Pruned(files, c) == Stage(files, c, Goes(files, c))
    ensures LeftAfter(files, c) == StageLeft(files, c, Goes(files, c))
  {
    EvictedIsFront(files, c);
  }

  // ---- Conservation ----

  lemma CountsConserved(files: Dir, c: Context)
    requires Fits(files)
    ensures var u, v, fates := UsageOf(files), LeftAfter(files, c), FatesOf(files, c);
            && u.entries == v.entries + |Dead(fates)| + |Evicted(files, fates, c.limits)|
            && u.bytes == v.bytes + Sum(files, Dead(fates)) + SizesOf(Evicted(files, fates, c.limits))
    ensures LeftAfter(files, c) == UsageOf(Pruned(files, c)) && Fits(Pruned(files, c))
  {
    EvictedIsFront(files, c);
    PrunedIsStage(files, c);
    CountsAreExact(files, c, Goes(files, c));
    TotalsAreExact(files, c, Goes(files, c));
  }

  /** For any total, no entry is lost from the count. */
  lemma EntriesConserved(files: Dir, c: Context)
    ensures var fates := FatesOf(files, c);
            && |Counted(files)| == LeftAfter(files, c).entries + |Dead(fates)| + |Evicted(files, fates, c.limits)|
            && LeftAfter(files, c).entries == |Counted(Pruned(files, c))|
  {
    PrunedIsStage(files, c);
    StageCounts(files, c, Goes(files, c));
    CountLags(files, c, Goes(files, c));
  }

  /** The report adds up: what there was is what is left plus what was removed as expired, as unused
      and for capacity; and what is left is what a fresh count gives. For the bytes the total must
      fit in 64 bits. */
  lemma AccountingIsConserved(files: Dir, c: Context, locks: nat)
    ensures var r := ReportOf(files, c, locks);
            && r.before.entries == r.after.entries + r.expired + r.unused + r.capacity
            && r.after.entries == UsageOf(Pruned(files, c)).entries
            && (Fits(files) ==>
                  && r.before.bytes == r.after.bytes + Sum(files, Dead(FatesOf(files, c)))
                                       + SizesOf(Evicted(files, FatesOf(files, c), c.limits))
                  && r.after.bytes == UsageOf(Pruned(files, c)).bytes)
  {
    EntriesConserved(files, c);
    if Fits(files) { CountsConserved(files, c); }
    DeadSplit(FatesOf(files, c));
    assert FatesOf(files, c).Keys == files.Keys;
  }

  lemma DeadSplit(fates: Fates)
    ensures |Dead(fates)| == |Fated(fates, fates.Keys, Expired)| + |Fated(fates, fates.Keys, Unused)|
  {
    var e, u := Fated(fates, fates.Keys, Expired), Fated(fates, fates.Keys, Unused);
    assert e !! u && Dead(fates) == e + u;
  }

  // ---- Minimal eviction ----

  lemma {:induction false} EvictionsAreLeast(q: seq<Rank>, left: Usage, limits: Limits, j: nat)
    requires j <= Evictions(q, left, limits)
    ensures var k := Evictions(q, left, limits);
            var l := Less(left, j, SizesOf(q[..j]));
            (j < k ==> !Met(l, limits)) && (j == k < |q| ==> Met(l, limits))
    decreases |q|
  {
    if j == 0 {
      assert q[..0] == [];
    } else {
      EvictionsAreLeast(q[1..], Less(left, 1, q[0].size), limits, j - 1);
      assert q[..j][1..] == q[1..][..j - 1] && q[..j][0] == q[0];
      LessTwice(left, 1, q[0].size, j - 1, SizesOf(q[1..][..j - 1]));
    }
  }

  /** Both targets are met, by the true total, but for `slack` bytes. */
  ghost predicate NearlyMet(files: Dir, limits: Limits, slack: nat) {
    && |Counted(files)| <= Min(limits.targetEntries, limits.hardEntries)
    && Sum(files, Counted(files)) <= Min(limits.targetBytes, limits.hardBytes) + slack
  }

  lemma MissesBefore(files: Dir, c: Context, j: nat)
    requires Over(UsageOf(files), c.limits) && j < Goes(files, c)
    ensures !Met(StageLeft(files, c, j), c.limits) && !Met(UsageOf(Stage(files, c, j)), c.limits)
  {
    CountLags(files, c, j);
    EvictionsAreLeast(Queue(files, FatesOf(files, c)), AfterSweep(files, FatesOf(files, c)), c.limits, j);
  }

  lemma MeetsAfter(files: Dir, c: Context)
    requires Over(UsageOf(files), c.limits) && Goes(files, c) < |Queue(files, FatesOf(files, c))|
    ensures Met(LeftAfter(files, c), c.limits) && NearlyMet(Pruned(files, c), c.limits, Excess(files))
    ensures Fits(files) ==> Met(UsageOf(Pruned(files, c)), c.limits)
  {
    var q, k := Queue(files, FatesOf(files, c)), Goes(files, c);
    PrunedIsStage(files, c);
    CountLags(files, c, k);
    EvictionsAreLeast(q, AfterSweep(files, FatesOf(files, c)), c.limits, k);
  }

  /** Least recently used, and no more than needed. When the cache was over a hard cap, a prune
      evicts the shortest front of the queue after which the count meets both targets, or all of
      it: at every earlier stage a fresh count misses them too, and at the end a fresh count meets
      them but for the excess. The queue holds exactly the surviving entries that nobody holds. */
  lemma EvictionIsShortestPrefix(files: Dir, c: Context)
    requires Over(UsageOf(files), c.limits)
    ensures var q, k, after := Queue(files, FatesOf(files, c)), Goes(files, c), Pruned(files, c);
            && after == Stage(files, c, k)
            && (forall j :: 0 <= j < k ==>
                  !Met(StageLeft(files, c, j), c.limits) && !Met(UsageOf(Stage(files, c, j)), c.limits))
            && (k < |q| ==> Met(LeftAfter(files, c), c.limits) && NearlyMet(after, c.limits, Excess(files)))
            && (k < |q| && Fits(files) ==> Met(UsageOf(after), c.limits))
            && (forall i, j :: 0 <= i < j < |q| ==> Before(q[i], q[j]))
            && (forall n :: n in Fated(FatesOf(files, c), files.Keys, Candidate) ==> RankOf(files, n) in q)
  {
    var q, k := Queue(files, FatesOf(files, c)), Goes(files, c);
    PrunedIsStage(files, c);
    forall j | 0 <= j < k
      ensures !Met(StageLeft(files, c, j), c.limits) && !Met(UsageOf(Stage(files, c, j)), c.limits)
    {
      MissesBefore(files, c, j);
    }
    if k < |q| { MeetsAfter(files, c); }
    forall n | n in Fated(FatesOf(files, c), files.Keys, Candidate) ensures RankOf(files, n) in q {
      assert RankOf(files, n) in Elements(q);
    }
  }

  /** A candidate that is gone after the first `k` evictions is one of them, and conversely. */
  lemma EvictedIndex(files: Dir, c: Context, n: string, k: nat, i: nat)
    requires k <= |Queue(files, FatesOf(files, c))| && i < |Queue(files, FatesOf(files, c))|
    requires n in Fated(FatesOf(files, c), files.Keys, Candidate)
    requires Queue(files, FatesOf(files, c))[i] == RankOf(files, n)
    ensures n in Stage(files, c, k) <==> i >= k
  {
    var q := Queue(files, FatesOf(files, c));
    FateFacts(files, c, n);
    EntryNames(n, EntryDigest(n).value);
    if i < k {
      assert q[i] in q[..k];
      assert n in EntryNamesOf(q[..k]);
    } else {
      forall r | r in q[..k] ensures EntryName(r.digest) != n {
        var m :| 0 <= m < k && q[m] == r;
        CandidatesDiffer(files, c, q, m, i);
      }
      assert n !in EntryNamesOf(q[..k]);
    }
  }

  /** Every evicted entry comes before every candidate that is kept. */
  lemma EvictedBeforeKept(files: Dir, c: Context, evicted: string, kept: string)
    requires evicted in Fated(FatesOf(files, c), files.Keys, Candidate)
    requires kept in Fated(FatesOf(files, c), files.Keys, Candidate)
    requires evicted !in Pruned(files, c) && kept in Pruned(files, c)
    ensures Before(RankOf(files, evicted), RankOf(files, kept))
  {
    var q, k := Queue(files, FatesOf(files, c)), Goes(files, c);
    PrunedIsStage(files, c);
    assert RankOf(files, evicted) in Elements(q) && RankOf(files, kept) in Elements(q);
    var i :| 0 <= i < |q| && q[i] == RankOf(files, evicted);
    var j :| 0 <= j < |q| && q[j] == RankOf(files, kept);
    EvictedIndex(files, c, evicted, k, i);
    EvictedIndex(files, c, kept, k, j);
  }

  // ---- A second prune ----

  /** What a prune leaves keeps its fate, which is to be left, or to be a candidate again. */
  lemma SurvivorsKeepFate(files: Dir, c: Context, n: string)
    requires n in Pruned(files, c)
    ensures n in files && Pruned(files, c)[n] == files[n]
    ensures FatesOf(Pruned(files, c), c)[n] == FatesOf(files, c)[n]
    ensures FatesOf(files, c)[n].Untouched? || FatesOf(files, c)[n].Candidate?
  {
    assert n !in Swept(FatesOf(files, c), files.Keys);
  }

  lemma NothingSweptAgain(files: Dir, c: Context)
    ensures var again := Pruned(files, c);
            && Swept(FatesOf(again, c), again.Keys) == {}
            && Fated(FatesOf(again, c), again.Keys, Expired) == {}
            && Fated(FatesOf(again, c), again.Keys, Unused) == {}
            && Fated(FatesOf(again, c), again.Keys, Fate.Temporary) == {}
  {
    var again := Pruned(files, c);
    forall n | n in again ensures FatesOf(again, c)[n].Untouched? || FatesOf(again, c)[n].Candidate? {
      SurvivorsKeepFate(files, c, n);
    }
  }

  lemma WholeQueueGoes(files: Dir, c: Context, n: string)
    requires Goes(files, c) == |Queue(files, FatesOf(files, c))| && n in Pruned(files, c)
    ensures !FatesOf(Pruned(files, c), c)[n].Candidate?
  {
    SurvivorsKeepFate(files, c, n);
    if FatesOf(files, c)[n].Candidate? {
      var q := Queue(files, FatesOf(files, c));
      assert RankOf(files, n) in Elements(q);
      var i :| 0 <= i < |q| && q[i] == RankOf(files, n);
      PrunedIsStage(files, c);
      EvictedIndex(files, c, n, |q|, i);
    }
  }

  /** With the whole queue evicted, no candidate is left for the next prune. */
  lemma NobodyQueuesAgain(files: Dir, c: Context)
    requires Goes(files, c) == |Queue(files, FatesOf(files, c))|
    ensures Queue(Pruned(files, c), FatesOf(Pruned(files, c), c)) == []
  {
    var again := Pruned(files, c);
    forall n | n in again ensures !FatesOf(again, c)[n].Candidate? {
      WholeQueueGoes(files, c, n);
    }
    NoCandidates(again, FatesOf(again, c));
  }

  lemma NoCandidates(files: Dir, fates: Fates)
    requires fates.Keys == files.Keys && forall n :: n in fates ==> !fates[n].Candidate?
    ensures Queue(files, fates) == []
  {
    assert Ranks(files, fates, fates.Keys) == {};
    EmptyElements(Queue(files, fates));
  }

  lemma NotOverTwice(files: Dir, c: Context)
    requires Fits(files)
    ensures var again := Pruned(files, c);
            !Over(UsageOf(again), c.limits) || Queue(again, FatesOf(again, c)) == []
  {
    CountsConserved(files, c);
    if Over(UsageOf(files), c.limits) {
      if Goes(files, c) < |Queue(files, FatesOf(files, c))| {
        EvictionIsShortestPrefix(files, c);
      } else {
        NobodyQueuesAgain(files, c);
      }
    }
  }

  lemma DeadAreSwept(fates: Fates)
    ensures Dead(fates) <= Swept(fates, fates.Keys)
  {
  }

  lemma OverIsNotMet(q: seq<Rank>, u: Usage, limits: Limits)
    requires Over(u, limits)
    ensures Evictions(q, u, limits) == 0 <==> q == []
  {
  }

  lemma NoneGoneIsSame(files: Dir, c: Context)
    requires Swept(FatesOf(files, c), files.Keys) == {} && Goes(files, c) == 0
    ensures Pruned(files, c) == files
  {
    assert EntryNamesOf(Evicted(files, FatesOf(files, c), c.limits)) == {};
  }

  /** Where nothing is swept, a prune evicts exactly when it is over a hard cap and has a candidate. */
  lemma EvictsWhenOver(files: Dir, c: Context)
    requires Swept(FatesOf(files, c), files.Keys) == {}
    ensures Goes(files, c) == 0 <==> !Over(UsageOf(files), c.limits) || Queue(files, FatesOf(files, c)) == []
    ensures Pruned(files, c) == files <==> Goes(files, c) == 0
  {
    if Over(UsageOf(files), c.limits) {
      assert AfterSweep(files, FatesOf(files, c)) == UsageOf(files) by { DeadAreSwept(FatesOf(files, c)); }
      OverIsNotMet(Queue(files, FatesOf(files, c)), UsageOf(files), c.limits);
    }
    if Goes(files, c) == 0 { NoneGoneIsSame(files, c); } else { EntriesConserved(files, c); }
  }

  /** A second prune at the same time, with the same keys held, sweeps nothing; it evicts exactly
      when a fresh count is still over a hard cap and a candidate is left. A total that fits in 64
      bits never leaves it so, and then nothing is removed. */
  lemma SecondPruneRemovesNothing(files: Dir, c: Context, locks: nat)
    ensures var again := Pruned(files, c);
            var r := ReportOf(again, c, locks);
            && r.expired == 0 && r.unused == 0 && r.temporary == 0
            && (Pruned(again, c) == again <==> r.capacity == 0)
            && (r.capacity == 0 <==> !Over(UsageOf(again), c.limits) || Queue(again, FatesOf(again, c)) == [])
            && (Fits(files) ==> r.capacity == 0)
  {
    NothingSweptAgain(files, c);
    EvictsWhenOver(Pruned(files, c), c);
    if Fits(files) { NotOverTwice(files, c); }
  }

  // ---- Prune and lookup ----

  /** What the header scan of a stored entry says of its life. */
  lemma LiveOfStored(name: string, h: Header, v: ValueText, now: nat, limit: nat)
    requires InRange(h) && Consistent(h) && |Print(h, v)| <= limit
    ensures Live(name, Print(h, v), now, limit) <==> EntryDigest(name) == Some(h.digest) && now <= h.staleUntil
  {
    ReadsWhatWasPrinted(h, v, limit);
  }

  /** When a prune calls a stored entry expired. */
  predicate Outlived(digest: string, h: Header, v: ValueText, now: nat, limits: Limits) {
    |Print(h, v)| > limits.maxEntryBytes || h.digest != digest || now > h.staleUntil
  }

  lemma ExpiredExactlyWhenOutlived(name: string, h: Header, v: ValueText, modified: nat, c: Context)
    requires InRange(h) && Consistent(h) && EntryDigest(name).Some? && EntryDigest(name).value !in c.held
    ensures FateOf(name, Regular(Print(h, v), modified), c.held, c.now, c.limits).Expired?
       <==> Outlived(EntryDigest(name).value, h, v, c.now, c.limits)
  {
    NotBoth(name);
    if |Print(h, v)| <= c.limits.maxEntryBytes {
      LiveOfStored(name, h, v, c.now, c.limits.maxEntryBytes);
    }
  }

  lemma OutlivedMisses<V>(
      h: Header, v: ValueText, key: Key, schema: nat, limits: Limits, now: nat, later: nat, touched: nat,
      decode: Bytes -> Option<V>)
    requires InRange(h) && Outlived(key.digest, h, v, now, limits) && now <= later
    ensures Read(Some(Regular(Print(h, v), touched)), key, schema, limits, later, decode).0.Miss?
  {
    ScanEqualsFullParse(h, v);
  }

  /** A stored entry, wherever its file now is, that a prune removes as expired is one that no
      lookup at that time or later would serve, by any key, schema or value type. */
  lemma ExpiredIsServedToNobody<V>(
      h: Header, v: ValueText, modified: nat, c: Context, key: Key, schema: nat, later: nat, touched: nat,
      decode: Bytes -> Option<V>)
    requires InRange(h) && Consistent(h) && IsDigest(key.digest) && key.digest !in c.held && c.now <= later
    requires FateOf(EntryName(key.digest), Regular(Print(h, v), modified), c.held, c.now, c.limits).Expired?
    ensures Read(Some(Regular(Print(h, v), touched)), key, schema, c.limits, later, decode).0.Miss?
  {
    EntryNames(EntryName(key.digest), key.digest);
    ExpiredExactlyWhenOutlived(EntryName(key.digest), h, v, modified, c);
    OutlivedMisses(h, v, key, schema, c.limits, c.now, later, touched, decode);
  }

  /** Conversely, an unheld stored entry that a prune does not call expired would be served then: to
      its own key, by its own schema, to any value type that decodes it. */
  lemma UnexpiredIsServed<V>(
      name: string, h: Header, v: ValueText, modified: nat, c: Context, decode: Bytes -> Option<V>)
    requires InRange(h) && Consistent(h) && EntryDigest(name).Some? && EntryDigest(name).value !in c.held
    requires !FateOf(name, Regular(Print(h, v), modified), c.held, c.now, c.limits).Expired?
    requires decode(Print(h, v)).Some?
    ensures EntryDigest(name) == Some(h.digest)
    ensures var file, key := Regular(Print(h, v), modified), Key(h.namespace, h.digest);
            !Read(Some(file), key, h.schema, c.limits, c.now, decode).0.Miss?
  {
    ExpiredExactlyWhenOutlived(name, h, v, modified, c);
    ScanEqualsFullParse(h, v);
  }

  /** A hit counts as use: an entry that a lookup served is not unused to a prune that comes within
      the unused period, less the time that a lookup leaves an earlier use recorded. */
  lemma HitsCountAsUse<V>(
      file: File, key: Key, schema: nat, c: Context, at: nat, locked: bool, decode: Bytes -> Option<V>)
    requires !Read(Some(file), key, schema, c.limits, at, decode).0.Miss?
    requires at <= c.now && c.now - at + c.limits.touchAfter <= c.limits.unusedAfter
    ensures var after := AfterRead(Some(file), Read(Some(file), key, schema, c.limits, at, decode).1, locked, at);
            && after.Some? && after.value.Regular? && file.Regular? && after.value.bytes == file.bytes
            && !FateOf(EntryName(key.digest), after.value, c.held, c.now, c.limits).Unused?
  {
    var after := AfterRead(Some(file), Read(Some(file), key, schema, c.limits, at, decode).1, locked, at);
    assert SatSub(c.now, after.value.modified) <= c.limits.unusedAfter;
  }

  /** A prune leaves alone what belongs to a held key, and what is neither entry nor temporary. */
  lemma PruneSpares(files: Dir, c: Context, n: string)
    requires n in files
    requires if IsTemporary(n) then TemporaryDigest(n).Some? && TemporaryDigest(n).value in c.held
             else EntryDigest(n).None? || EntryDigest(n).value in c.held
    ensures n in Pruned(files, c) && Pruned(files, c)[n] == files[n]
  {
    NotBoth(n);
    var gone := Evicted(files, FatesOf(files, c), c.limits);
    forall r | r in gone ensures EntryName(r.digest) != n {
      assert r in Queue(files, FatesOf(files, c));
      assert r in Elements(Queue(files, FatesOf(files, c)));
      CandidateInPlace(files, c, r);
    }
  }

  // ---- Nobody holds a key ----

  /** With no key held, a prune of a cache over a hard cap meets both targets, but for the excess. */
  lemma PruneMeetsTargets(files: Dir, c: Context)
    requires c.held == {} && Over(UsageOf(files), c.limits)
    ensures NearlyMet(Pruned(files, c), c.limits, Excess(files))
    ensures Fits(files) ==> Met(UsageOf(Pruned(files, c)), c.limits)
  {
    EvictionIsShortestPrefix(files, c);
    if Goes(files, c) == |Queue(files, FatesOf(files, c))| {
      NothingCounted(files, c);
    }
  }

  lemma NothingCounted(files: Dir, c: Context)
    requires Goes(files, c) == |Queue(files, FatesOf(files, c))| && c.held == {}
    ensures Counted(Pruned(files, c)) == {}
  {
    forall n | n in Pruned(files, c) ensures n !in Counted(Pruned(files, c)) {
      NoneCountedAfterAll(files, c, n);
    }
  }

  lemma NoneCountedAfterAll(files: Dir, c: Context, n: string)
    requires Goes(files, c) == |Queue(files, FatesOf(files, c))| && c.held == {} && n in Pruned(files, c)
    ensures n !in Counted(Pruned(files, c))
  {
    WholeQueueGoes(files, c, n);
    SurvivorsKeepFate(files, c, n);
    FateFacts(Pruned(files, c), c, n);
  }
}
