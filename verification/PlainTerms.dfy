/** What a prune looks for, said of names, headers, times and totals. */
module PlainTerms {
  import opened Common
  import opened EntryFormat
  import opened FileNames
  import opened Lookup
  import opened PruneSpec

  /** The file is of this entry, with a header that is consistent and within its stale horizon. */
  predicate Unexpired(name: string, file: File, now: nat, limits: Limits) {
    && file.Regular? && |file.bytes| <= limits.maxEntryBytes
    && match ScanHeader(file.bytes)
       case None => false
       case Some(h) =>
         && h.format == 1 && h.storedAt <= h.freshUntil <= h.staleUntil && now <= h.staleUntil
         && name == h.digest + ".json"
  }

  /** An unheld entry that is neither expired nor unused. */
  predicate Evictable(name: string, file: File, c: Context) {
    && !IsTemporary(name) && EntryDigest(name).Some? && EntryDigest(name).value !in c.held
    && Unexpired(name, file, c.now, c.limits) && c.now <= file.modified + c.limits.unusedAfter
  }

  /** What no first pass touches: a held key's files, and what is neither entry nor temporary. */
  predicate Exempt(name: string, c: Context) {
    if IsTemporary(name) then TemporaryDigest(name).Some? && TemporaryDigest(name).value in c.held
    else EntryDigest(name).None? || EntryDigest(name).value in c.held
  }

  ghost predicate OverCap(files: Dir, limits: Limits) {
    |Counted(files)| > limits.hardEntries || Min(Sum(files, Counted(files)), U64_MAX) > limits.hardBytes
  }

  /** A target, or a hard cap below it, is missed. */
  ghost predicate OverTarget(files: Dir, limits: Limits) {
    var bytes := Min(Sum(files, Counted(files)), U64_MAX);
    || |Counted(files)| > limits.targetEntries || |Counted(files)| > limits.hardEntries
    || bytes > limits.targetBytes || bytes > limits.hardBytes
  }

  lemma FatePlainly(n: string, file: File, c: Context)
    ensures var fate := FateOf(n, file, c.held, c.now, c.limits);
            (fate.Candidate? <==> Evictable(n, file, c)) && (fate.Untouched? <==> Exempt(n, c))
  {
    NotBoth(n);
    if EntryDigest(n).Some? {
      EntryNames(n, EntryDigest(n).value);
      if file.Regular? && |file.bytes| <= c.limits.maxEntryBytes {
        assert file.bytes[..|file.bytes|] == file.bytes;
        if ScanHeader(file.bytes).Some? { EntryNames(n, ScanHeader(file.bytes).value.digest); }
      }
    }
  }

  /** Whatever is left after a prune is exempt or evictable. */
  lemma LeftPlainly(files: Dir, c: Context, n: string)
    requires n in Pruned(files, c)
    ensures n in files && Pruned(files, c)[n] == files[n]
    ensures Exempt(n, c) || Evictable(n, files[n], c)
  {
    assert n !in Swept(FatesOf(files, c), files.Keys);
    FatePlainly(n, files[n], c);
  }
}
