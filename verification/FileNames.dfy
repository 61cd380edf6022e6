/** The names of entry, temporary and lock files. */
module FileNames {
  import opened Common

  predicate HexDigitChar(c: char) {
    '0' <= c <= '9' || 'a' <= c <= 'f' || 'A' <= c <= 'F'
  }

  /** 64 hex digits. */
  predicate IsDigest(d: string) {
    |d| == 64 && forall k :: 0 <= k < 64 ==> HexDigitChar(d[k])
  }

  predicate EndsWith(name: string, suffix: string) {
    |suffix| <= |name| && name[|name| - |suffix|..] == suffix
  }

  const JSON: string := ".json"
  const TMP: string := ".tmp"

  function EntryName(digest: string): string {
    digest + JSON
  }

  function LockName(digest: string): string {
    digest + ".lock"
  }

  /** What `tempfile` names a writer's file: `random` is its own part. */
  function TemporaryName(digest: string, random: string): string {
    "." + digest + "." + random + TMP
  }

  function EntryDigest(name: string): Option<string> {
    if EndsWith(name, JSON) && IsDigest(name[..|name| - |JSON|]) then Some(name[..|name| - |JSON|]) else None
  }

  /** The text before the first dot. */
  function UpToDot(s: string): (r: string)
    ensures |r| <= |s| && r == s[..|r|] && (|r| < |s| ==> s[|r|] == '.') && forall k :: 0 <= k < |r| ==> r[k] != '.'
  {
    if s == "" || s[0] == '.' then "" else [s[0]] + UpToDot(s[1..])
  }

  function TemporaryDigest(name: string): Option<string> {
    if name == "" || name[0] != '.' then None
    else if IsDigest(UpToDot(name[1..])) then Some(UpToDot(name[1..]))
    else None
  }

  predicate IsTemporary(name: string) {
    name != "" && name[0] == '.' && EndsWith(name, TMP)
  }

  /** An entry name gives back its digest, and only an entry name gives one. */
  lemma EntryNames(name: string, digest: string)
    ensures EntryDigest(name) == Some(digest) <==> IsDigest(digest) && name == EntryName(digest)
  {
    if EntryDigest(name) == Some(digest) {
      assert name == name[..|name| - |JSON|] + name[|name| - |JSON|..];
    }
    if name == EntryName(digest) {
      assert name[..|name| - |JSON|] == digest && name[|name| - |JSON|..] == JSON;
    }
  }

  lemma {:induction false} UpToDotIs(front: string, rest: string)
    requires rest != "" && rest[0] == '.' && forall k :: 0 <= k < |front| ==> front[k] != '.'
    ensures UpToDot(front + rest) == front
  {
    if front == "" {
      assert front + rest == rest;
    } else {
      UpToDotIs(front[1..], rest);
      assert (front + rest)[1..] == front[1..] + rest;
      assert front == [front[0]] + front[1..];
    }
  }

  /** A writer's temporary file is known as temporary, by its digest, and is never taken for an entry. */
  lemma TemporaryNames(digest: string, random: string)
    requires IsDigest(digest)
    ensures var name := TemporaryName(digest, random);
            IsTemporary(name) && TemporaryDigest(name) == Some(digest) && EntryDigest(name) == None
  {
    var name := TemporaryName(digest, random);
    assert name[|name| - |TMP|..] == TMP;
    assert name[1..] == digest + ("." + random + TMP);
    UpToDotIs(digest, "." + random + TMP);
    NotBoth(name);
  }

  /** No name is both an entry's and temporary. */
  lemma NotBoth(name: string)
    ensures !(IsTemporary(name) && EntryDigest(name).Some?)
  {
    if EntryDigest(name).Some? {
      assert HexDigitChar(name[..|name| - |JSON|][0]);
    }
  }

  /** Exactly the names with a leading dot and the suffix are temporary. */
  lemma TemporaryExactly(name: string)
    ensures IsTemporary(name) <==> name == ".tmp" || exists middle :: name == "." + middle + ".tmp"
  {
    if IsTemporary(name) && name != ".tmp" {
      var middle := name[1..|name| - 4];
      assert name == "." + middle + ".tmp";
    }
    if middle :| name == "." + middle + ".tmp" {
      assert name[|name| - 4..] == ".tmp";
    }
    if name == ".tmp" { assert name[0..] == ".tmp"; }
  }

  /** Exactly the names that start with a dot and a digest, up to the end or the next dot, give it. */
  lemma TemporaryDigestExactly(name: string, digest: string)
    ensures TemporaryDigest(name) == Some(digest)
       <==> IsDigest(digest) && (name == "." + digest || exists rest :: name == "." + digest + "." + rest)
  {
    if TemporaryDigest(name) == Some(digest) {
      assert name == "." + name[1..];
      if name != "." + digest {
        var rest := name[66..];
        assert name[1..][..64] == digest && name[1..][64] == '.';
        assert name == "." + digest + "." + rest;
      }
    }
    if IsDigest(digest) {
      if name == "." + digest {
        assert name[1..] == digest;
        UpToDotAll(digest);
      } else if rest :| name == "." + digest + "." + rest {
        assert name[1..] == digest + ("." + rest);
        UpToDotIs(digest, "." + rest);
      }
    }
  }

  lemma {:induction false} UpToDotAll(s: string)
    requires forall k :: 0 <= k < |s| ==> s[k] != '.'
    ensures UpToDot(s) == s
  {
    if s != "" {
      UpToDotAll(s[1..]);
      assert s == [s[0]] + s[1..];
    }
  }
}
