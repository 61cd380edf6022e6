/** What a prune leaves, said of files, use times and totals: no rank, queue or fate occurs in what
    the main lemmas state. */
module PrunePlainly {
  import opened Common
  import opened EntryFormat
  import opened FileNames
  import opened Lookup
  import opened PruneSpec
  import opened PlainTerms
  import opened PruneTheorems
  import opened Sorting
  import opened CacheRoot
  import KeyEncoding

  lemma KeptWhenNoneGo(files: Dir, c: Context, n: string)
    requires n in files && Goes(files, c) == 0 && FatesOf(files, c)[n].Candidate?
    ensures n in Pruned(files, c)
  {
    assert Evicted(files, FatesOf(files, c), c.limits) == [];
    assert EntryNamesOf([]) == {};
  }

  /** An evictable entry that is gone was evicted, by a prune of a cache over a hard cap. */
  lemma GoneIsEvicted(files: Dir, c: Context, n: string)
    requires n in files && n !in Pruned(files, c) && Evictable(n, files[n], c)
    ensures n in Fated(FatesOf(files, c), files.Keys, Candidate)
    ensures OverCap(files, c.limits) && Goes(files, c) > 0
  {
    FatePlainly(n, files[n], c);
    assert FatesOf(files, c)[n].Candidate?;
    if Goes(files, c) == 0 { KeptWhenNoneGo(files, c, n); }
    assert Over(UsageOf(files), c.limits);
  }

  /** What goes and what stays. A prune changes no file; it takes everything that is neither exempt
      nor evictable, nothing that is exempt, and evictable entries only when over a hard cap. */
  lemma PruneTakesAndLeaves(files: Dir, c: Context, n: string)
    ensures n in Pruned(files, c) ==> n in files && Pruned(files, c)[n] == files[n]
    ensures n in files && Exempt(n, c) ==> n in Pruned(files, c)
    ensures n in files && !Exempt(n, c) && !Evictable(n, files[n], c) ==> n !in Pruned(files, c)
    ensures n in files && Evictable(n, files[n], c) && !OverCap(files, c.limits) ==> n in Pruned(files, c)
  {
    if n in files {
      FatePlainly(n, files[n], c);
      if Exempt(n, c) { PruneSpares(files, c, n); }
      if Evictable(n, files[n], c) && n !in Pruned(files, c) { GoneIsEvicted(files, c, n); }
    }
  }

  /** The regular entries that nobody holds. */
  function Unheld(files: Dir, c: Context): set<string> {
    set n | n in files && !Exempt(n, c) && !IsTemporary(n) && files[n].Regular?
  }

  function ExpiredOf(files: Dir, c: Context): set<string> {
    set n | n in Unheld(files, c) && n in files && !Unexpired(n, files[n], c.now, c.limits)
  }

  function UnusedOf(files: Dir, c: Context): set<string> {
    set n | n in Unheld(files, c) && n in files && Unexpired(n, files[n], c.now, c.limits)
            && c.now > files[n].modified + c.limits.unusedAfter
  }

  function TemporaryOf(files: Dir, c: Context): set<string> {
    set n | n in files && IsTemporary(n) && !Exempt(n, c)
  }

  ghost function EvictedOf(files: Dir, c: Context): set<string> {
    set n | n in files && Evictable(n, files[n], c) && n !in Pruned(files, c)
  }

  lemma SweptPlainly(n: string, file: File, c: Context)
    ensures var fate := FateOf(n, file, c.held, c.now, c.limits);
            && (fate.Temporary? <==> !Exempt(n, c) && IsTemporary(n))
            && (fate.Expired? <==> !Exempt(n, c) && !IsTemporary(n) && file.Regular?
                                   && !Unexpired(n, file, c.now, c.limits))
            && (fate.Unused? <==> !Exempt(n, c) && !IsTemporary(n) && Unexpired(n, file, c.now, c.limits)
                                  && c.now > file.modified + c.limits.unusedAfter)
  {
    if EntryDigest(n).Some? && file.Regular? && |file.bytes| <= c.limits.maxEntryBytes {
      EntryNames(n, EntryDigest(n).value);
      assert file.bytes[..|file.bytes|] == file.bytes;
      if ScanHeader(file.bytes).Some? { EntryNames(n, ScanHeader(file.bytes).value.digest); }
    }
  }

  lemma FatedPlainly(files: Dir, c: Context)
    ensures Fated(FatesOf(files, c), files.Keys, Expired) == ExpiredOf(files, c)
    ensures Fated(FatesOf(files, c), files.Keys, Unused) == UnusedOf(files, c)
    ensures Fated(FatesOf(files, c), files.Keys, Fate.Temporary) == TemporaryOf(files, c)
  {
    var fates := FatesOf(files, c);
    forall n | n in files
      ensures fates[n].Expired? <==> n in ExpiredOf(files, c)
      ensures fates[n].Unused? <==> n in UnusedOf(files, c)
      ensures fates[n].Temporary? <==> n in TemporaryOf(files, c)
    {
      SweptPlainly(n, files[n], c);
    }
  }

  /** What the counters of a report count. */
  lemma CountersPlainly(files: Dir, c: Context, locks: nat)
    ensures var r := ReportOf(files, c, locks);
            && r.expired == |ExpiredOf(files, c)| && r.unused == |UnusedOf(files, c)|
            && r.temporary == |TemporaryOf(files, c)| && r.capacity == |EvictedOf(files, c)| && r.locks == locks
            && r.before.entries == |Counted(files)| && r.after.entries == |Counted(Pruned(files, c))|
  {
    FatedPlainly(files, c);
    EvictedPlainly(files, c);
    EntriesConserved(files, c);
  }

  lemma FrontIsEvicted(files: Dir, c: Context, r: Rank)
    requires r in Queue(files, FatesOf(files, c))[..Goes(files, c)]
    ensures EntryName(r.digest) in EvictedOf(files, c)
  {
    var n := EntryName(r.digest);
    assert r in Elements(Queue(files, FatesOf(files, c)));
    CandidatePlace(files, c, r);
    FatePlainly(n, files[n], c);
    PrunedIsStage(files, c);
  }

  lemma EvictedIsInFront(files: Dir, c: Context, n: string)
    requires n in EvictedOf(files, c)
    ensures n in EntryNamesOf(Queue(files, FatesOf(files, c))[..Goes(files, c)])
  {
    GoneIsEvicted(files, c, n);
    PrunedIsStage(files, c);
    assert n !in Swept(FatesOf(files, c), files.Keys);
  }

  /** As many evictable entries are gone as were evicted. */
  lemma EvictedPlainly(files: Dir, c: Context)
    ensures |Evicted(files, FatesOf(files, c), c.limits)| == |EvictedOf(files, c)|
  {
    var front := Queue(files, FatesOf(files, c))[..Goes(files, c)];
    EvictedIsFront(files, c);
    QueueFront(files, c, Queue(files, FatesOf(files, c)), Goes(files, c));
    forall r | r in front ensures EntryName(r.digest) in EvictedOf(files, c) { FrontIsEvicted(files, c, r); }
    forall n | n in EvictedOf(files, c) ensures n in EntryNamesOf(front) { EvictedIsInFront(files, c, n); }
    assert EntryNamesOf(front) == EvictedOf(files, c);
  }

  lemma CandidatePlace(files: Dir, c: Context, r: Rank)
    requires r in Ranks(files, FatesOf(files, c), files.Keys)
    ensures EntryName(r.digest) in files && FatesOf(files, c)[EntryName(r.digest)].Candidate?
  {
    var n :| n in Fated(FatesOf(files, c), files.Keys, Candidate) && r == RankOf(files, n);
    FateFacts(files, c, n);
    EntryNames(n, r.digest);
  }

  /** Two entry names whose digests are in byte order. */
  lemma NamesInByteOrder(m: string, n: string)
    requires EntryDigest(m).Some? && EntryDigest(n).Some?
    requires KeyEncoding.Less(EntryDigest(m).value, EntryDigest(n).value)
    ensures exists i :: 0 <= i < 64 && m[..i] == n[..i] && m[i] < n[i]
  {
    var d, e := EntryDigest(m).value, EntryDigest(n).value;
    EntryNames(m, d);
    EntryNames(n, e);
    KeyEncoding.LessIsByteOrder(d, e);
    var i :| 0 <= i < |d| && i < |e| && d[..i] == e[..i] && d[i] < e[i];
    assert m[..i] == d[..i] && n[..i] == e[..i];
  }

  lemma BeforePlainly(files: Dir, m: string, n: string)
    requires m in files && n in files && files[m].Regular? && files[n].Regular? && m != n
    requires EntryDigest(m).Some? && EntryDigest(n).Some? && Before(RankOf(files, m), RankOf(files, n))
    ensures files[m].modified <= files[n].modified
    ensures files[m].modified == files[n].modified ==> exists i :: 0 <= i < 64 && m[..i] == n[..i] && m[i] < n[i]
  {
    EntryNames(m, EntryDigest(m).value);
    EntryNames(n, EntryDigest(n).value);
    if files[m].modified == files[n].modified { NamesInByteOrder(m, n); }
  }

  /** Least recently used: what a prune evicts was used no later than what it keeps; and where the
      use times are equal, the digest that goes has the smaller byte where the two first differ. */
  lemma LeastRecentlyUsedGoes(files: Dir, c: Context, evicted: string, kept: string)
    requires evicted in files && Evictable(evicted, files[evicted], c) && evicted !in Pruned(files, c)
    requires kept in Pruned(files, c) && kept in files && Evictable(kept, files[kept], c)
    ensures files[evicted].modified <= files[kept].modified
    ensures files[evicted].modified == files[kept].modified ==>
              exists i :: 0 <= i < 64 && evicted[..i] == kept[..i] && evicted[i] < kept[i]
  {
    FatePlainly(evicted, files[evicted], c);
    FatePlainly(kept, files[kept], c);
    EvictedBeforeKept(files, c, evicted, kept);
    BeforePlainly(files, evicted, kept);
  }

  /** The last of the queue that goes. */
  ghost function LastGone(files: Dir, c: Context): Rank
    requires Goes(files, c) > 0
  {
    Queue(files, FatesOf(files, c))[Goes(files, c) - 1]
  }

  lemma LastIsEvicted(files: Dir, c: Context)
    requires Goes(files, c) > 0
    ensures var r := LastGone(files, c);
            var last := EntryName(r.digest);
            last in EvictedOf(files, c) && files[last].Regular? && files[last].modified == r.used
  {
    var q, k := Queue(files, FatesOf(files, c)), Goes(files, c);
    assert q[k - 1] in q[..k];
    FrontIsEvicted(files, c, q[k - 1]);
    EvictReady(files, c, q, k - 1);
  }

  /** The last evicted, put back, makes the stage before. */
  lemma LastBack(files: Dir, c: Context)
    requires Goes(files, c) > 0 && EntryName(LastGone(files, c).digest) in files
    ensures var last := EntryName(LastGone(files, c).digest);
            Pruned(files, c)[last := files[last]] == Stage(files, c, Goes(files, c) - 1)
  {
    var q, k := Queue(files, FatesOf(files, c)), Goes(files, c);
    PrunedIsStage(files, c);
    EvictReady(files, c, q, k - 1);
    var stage, last := Stage(files, c, k - 1), EntryName(q[k - 1].digest);
    assert Stage(files, c, k) == stage - {last} && last in stage && stage[last] == files[last];
    PutBack(stage, last);
  }

  lemma PutBack(files: Dir, n: string)
    requires n in files
    ensures (files - {n})[n := files[n]] == files
  {
  }

  lemma MissedPlainly(files: Dir, limits: Limits)
    requires !Met(UsageOf(files), limits)
    ensures OverTarget(files, limits)
  {
  }

  lemma LastIsNeeded(files: Dir, c: Context)
    requires Goes(files, c) > 0 && EntryName(LastGone(files, c).digest) in files
    ensures var last := EntryName(LastGone(files, c).digest);
            OverTarget(Pruned(files, c)[last := files[last]], c.limits)
  {
    LastBack(files, c);
    MissesBefore(files, c, Goes(files, c) - 1);
    MissedPlainly(Stage(files, c, Goes(files, c) - 1), c.limits);
  }

  lemma LastIsLatest(files: Dir, c: Context, m: string)
    requires m in files && Evictable(m, files[m], c) && m !in Pruned(files, c)
    ensures Goes(files, c) > 0 && files[m].modified <= LastGone(files, c).used
  {
    GoneIsEvicted(files, c, m);
    EvictedUsed(files, c, m);
  }

  /** No more than needed: if anything is evicted, then with the most recently used of it put back
      the directory misses a target. */
  lemma NoneTooMany(files: Dir, c: Context, n: string) returns (last: string)
    requires n in files && Evictable(n, files[n], c) && n !in Pruned(files, c)
    ensures last in files && Evictable(last, files[last], c) && last !in Pruned(files, c)
    ensures OverTarget(Pruned(files, c)[last := files[last]], c.limits)
    ensures forall m :: m in files && Evictable(m, files[m], c) && m !in Pruned(files, c) ==>
                          files[m].modified <= files[last].modified
  {
    LastIsLatest(files, c, n);
    last := EntryName(LastGone(files, c).digest);
    LastIsEvicted(files, c);
    LastIsNeeded(files, c);
    forall m | m in files && Evictable(m, files[m], c) && m !in Pruned(files, c)
      ensures files[m].modified <= files[last].modified
    {
      LastIsLatest(files, c, m);
    }
  }

  lemma EvictedUsed(files: Dir, c: Context, m: string)
    requires m in Fated(FatesOf(files, c), files.Keys, Candidate) && m in files && m !in Pruned(files, c)
    requires Goes(files, c) > 0
    ensures files[m].Regular? && files[m].modified <= Queue(files, FatesOf(files, c))[Goes(files, c) - 1].used
  {
    var q, k := Queue(files, FatesOf(files, c)), Goes(files, c);
    PrunedIsStage(files, c);
    assert RankOf(files, m) in Elements(q);
    var i :| 0 <= i < |q| && q[i] == RankOf(files, m);
    EvictedIndex(files, c, m, k, i);
    assert i < k - 1 ==> Before(q[i], q[k - 1]);
    FateFacts(files, c, m);
  }

  /** And no fewer: a prune of a cache over a hard cap that keeps any evictable entry meets both
      targets, but for the bytes beyond 2^64 - 1 that its count did not see. */
  lemma NoneTooFew(files: Dir, c: Context, kept: string)
    requires OverCap(files, c.limits)
    requires kept in Pruned(files, c) && kept in files && Evictable(kept, files[kept], c)
    ensures var after, excess := Pruned(files, c), SatSub(Sum(files, Counted(files)), U64_MAX);
            && |Counted(after)| <= c.limits.targetEntries && |Counted(after)| <= c.limits.hardEntries
            && Sum(after, Counted(after)) <= c.limits.targetBytes + excess
            && Sum(after, Counted(after)) <= c.limits.hardBytes + excess
  {
    FatePlainly(kept, files[kept], c);
    if Goes(files, c) == |Queue(files, FatesOf(files, c))| {
      WholeQueueGoes(files, c, kept);
      SurvivorsKeepFate(files, c, kept);
    }
    MeetsAfter(files, c);
  }
}
