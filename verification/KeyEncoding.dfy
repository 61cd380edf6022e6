/** The byte stream that a cache key hashes, and the hex digest that names it. */
module KeyEncoding {
  import opened Common
  import opened Sorting

  const FORMAT: nat := 1

  // ---- Length-prefixed fields ----

  /** `n` as `width` little-endian bytes. */
  function LittleEndian(n: nat, width: nat): (r: Bytes)
    ensures |r| == width
  {
    if width == 0 then "" else [(n % 256) as char] + LittleEndian(n / 256, width - 1)
  }

  /** One field: its length as eight bytes, then its bytes. */
  function Feed(field: Bytes): Bytes {
    LittleEndian(Min(|field|, U64_MAX), 8) + field
  }

  function FeedAll(fields: seq<Bytes>): Bytes {
    if fields == [] then "" else Feed(fields[0]) + FeedAll(fields[1..])
  }

  function Power256(k: nat): nat {
    if k == 0 then 1 else 256 * Power256(k - 1)
  }

  lemma {:induction false} LittleEndianInjective(m: nat, n: nat, width: nat)
    requires m < Power256(width) && n < Power256(width) && LittleEndian(m, width) == LittleEndian(n, width)
    ensures m == n
  {
    if width > 0 {
      var a, b := LittleEndian(m, width), LittleEndian(n, width);
      assert a[0] == b[0] && a[1..] == b[1..];
      assert a[1..] == LittleEndian(m / 256, width - 1) && b[1..] == LittleEndian(n / 256, width - 1);
      assert (m % 256) as char as int == (n % 256) as char as int;
      LittleEndianInjective(m / 256, n / 256, width - 1);
    }
  }

  /** A field shorter than 2^64 bytes is cut off the front of a stream in only one way. */
  lemma FeedIsPrefixFree(f: Bytes, g: Bytes, rest: Bytes, other: Bytes)
    requires |f| <= U64_MAX && |g| <= U64_MAX && Feed(f) + rest == Feed(g) + other
    ensures f == g && rest == other
  {
    var s, t := Feed(f) + rest, Feed(g) + other;
    assert s[..8] == LittleEndian(|f|, 8) && t[..8] == LittleEndian(|g|, 8);
    assert Power256(8) == U64_MAX + 1;
    LittleEndianInjective(|f|, |g|, 8);
    assert s[8..8 + |f|] == f && t[8..8 + |g|] == g;
    assert s[8 + |f|..] == rest && t[8 + |g|..] == other;
  }

  predicate Short(fields: seq<Bytes>) {
    forall k :: 0 <= k < |fields| ==> |fields[k]| <= U64_MAX
  }

  lemma {:induction false} FeedAllInjective(fields: seq<Bytes>, others: seq<Bytes>)
    requires Short(fields) && Short(others) && FeedAll(fields) == FeedAll(others)
    ensures fields == others
  {
    if fields != [] && others != [] {
      FeedIsPrefixFree(fields[0], others[0], FeedAll(fields[1..]), FeedAll(others[1..]));
      FeedAllInjective(fields[1..], others[1..]);
      assert fields == [fields[0]] + fields[1..] && others == [others[0]] + others[1..];
    } else {
      assert fields != [] ==> |FeedAll(fields)| >= 8;
      assert others != [] ==> |FeedAll(others)| >= 8;
    }
  }

  // ---- The order of names ----

  /** Byte order, in which a `BTreeMap` of strings iterates. */
  predicate Less(a: Bytes, b: Bytes) {
    if b == "" then false
    else if a == "" then true
    else if a[0] != b[0] then a[0] < b[0]
    else Less(a[1..], b[1..])
  }

  lemma LessTotal(a: Bytes, b: Bytes)
    ensures !Less(a, a)
    ensures Less(a, b) || a == b || Less(b, a)
  {
    if a != "" && b != "" && a[0] == b[0] {
      LessTotal(a[1..], b[1..]);
      assert a == [a[0]] + a[1..] && b == [b[0]] + b[1..];
    }
    if a != "" { LessTotal(a[1..], a[1..]); }
  }

  lemma LessTransitive(a: Bytes, b: Bytes, c: Bytes)
    requires Less(a, b) && Less(b, c)
    ensures Less(a, c)
  {
    if a != "" && a[0] == b[0] == c[0] { LessTransitive(a[1..], b[1..], c[1..]); }
  }

  /** Byte order said of positions: the smaller byte at the first difference, or a proper front. */
  predicate ByteBefore(a: Bytes, b: Bytes) {
    || (|a| < |b| && b[..|a|] == a)
    || exists i :: 0 <= i < |a| && i < |b| && a[..i] == b[..i] && a[i] < b[i]
  }

  lemma DifferAt(a: Bytes, b: Bytes, i: nat)
    requires i < |a| && i < |b| && a[..i] == b[..i] && a[i] < b[i]
    ensures ByteBefore(a, b)
  {
  }

  lemma {:induction false} LessIsByteOrder(a: Bytes, b: Bytes)
    requires Less(a, b)
    ensures ByteBefore(a, b)
  {
    if a == "" {
      assert b[..0] == a;
    } else if a[0] != b[0] {
      DifferAt(a, b, 0);
    } else {
      LessIsByteOrder(a[1..], b[1..]);
      assert a == [a[0]] + a[1..] && b == [a[0]] + b[1..];
      if i :| 0 <= i < |a| - 1 && i < |b| - 1 && a[1..][..i] == b[1..][..i] && a[1..][i] < b[1..][i] {
        assert a[..i + 1] == [a[0]] + a[1..][..i] && b[..i + 1] == [a[0]] + b[1..][..i];
        DifferAt(a, b, i + 1);
      } else {
        assert b[..|a|] == [a[0]] + b[1..][..|a| - 1];
      }
    }
  }

  lemma NamesAreOrdered()
    ensures TotalOrder(Less)
  {
    forall a, b ensures !Less(a, a) && (a == b || Less(a, b) || Less(b, a)) { LessTotal(a, b); }
    forall a, b, c | Less(a, b) && Less(b, c) ensures Less(a, c) { LessTransitive(a, b, c); }
  }

  // ---- Building a key ----

  type Parts = map<Bytes, Bytes>

  /** The names of `parts` in byte order. */
  ghost function NamesOf(parts: Parts): (names: seq<Bytes>)
    ensures Elements(names) == parts.Keys && forall n :: n in names ==> n in parts
  {
    NamesAreOrdered();
    OrderedSorted(Less, parts.Keys);
    var names := Ordered(Less, parts.Keys);
    assert forall n :: n in names ==> n in Elements(names);
    names
  }

  /** The namespace, then each name and its value. */
  function Fields(namespace: Bytes, names: seq<Bytes>, parts: Parts): seq<Bytes>
    requires forall n :: n in names ==> n in parts
  {
    [namespace] + Pairs(names, parts)
  }

  function Pairs(names: seq<Bytes>, parts: Parts): seq<Bytes>
    requires forall n :: n in names ==> n in parts
  {
    if names == [] then [] else [names[0], parts[names[0]]] + Pairs(names[1..], parts)
  }

  /** What the hasher is given: the layout version, the namespace and the sorted parts. */
  ghost function Encode(namespace: Bytes, parts: Parts): Bytes {
    [FORMAT as char] + FeedAll(Fields(namespace, NamesOf(parts), parts))
  }

  ghost predicate ShortParts(namespace: Bytes, parts: Parts) {
    |namespace| <= U64_MAX && forall n :: n in parts ==> |n| <= U64_MAX && |parts[n]| <= U64_MAX
  }

  lemma {:induction false} PairsAt(names: seq<Bytes>, parts: Parts)
    requires forall n :: n in names ==> n in parts
    ensures |Pairs(names, parts)| == 2 * |names|
    ensures forall k :: 0 <= k < |names| ==>
                          Pairs(names, parts)[2 * k] == names[k] && Pairs(names, parts)[2 * k + 1] == parts[names[k]]
  {
    if names != [] {
      PairsAt(names[1..], parts);
      forall k | 0 <= k < |names|
        ensures Pairs(names, parts)[2 * k] == names[k] && Pairs(names, parts)[2 * k + 1] == parts[names[k]]
      {
        if k > 0 {
          assert Pairs(names, parts)[2 * k] == Pairs(names[1..], parts)[2 * (k - 1)];
          assert Pairs(names, parts)[2 * k + 1] == Pairs(names[1..], parts)[2 * (k - 1) + 1];
        }
      }
    }
  }

  lemma ShortFields(namespace: Bytes, names: seq<Bytes>, parts: Parts)
    requires ShortParts(namespace, parts) && forall n :: n in names ==> n in parts
    ensures Short(Fields(namespace, names, parts))
  {
    PairsAt(names, parts);
    var f := Fields(namespace, names, parts);
    forall k | 0 <= k < |f| ensures |f[k]| <= U64_MAX {
      if k > 0 {
        var j := (k - 1) / 2;
        assert names[j] in names;
        assert k == 1 + 2 * j || k == 2 + 2 * j;
      }
    }
  }

  lemma PairsInjective(a: seq<Bytes>, parts: Parts, b: seq<Bytes>, others: Parts)
    requires Elements(a) == parts.Keys && Elements(b) == others.Keys
    requires (forall n :: n in a ==> n in parts) && (forall n :: n in b ==> n in others)
    requires Pairs(a, parts) == Pairs(b, others)
    ensures parts == others
  {
    PairsAt(a, parts);
    PairsAt(b, others);
    forall k | 0 <= k < |a| ensures a[k] == b[k] && parts[a[k]] == others[b[k]] {
      assert Pairs(a, parts)[2 * k] == Pairs(b, others)[2 * k];
      assert Pairs(a, parts)[2 * k + 1] == Pairs(b, others)[2 * k + 1];
    }
    assert a == b;
    forall n | n in parts ensures parts[n] == others[n] {
      assert n in Elements(a);
      var k :| 0 <= k < |a| && a[k] == n;
    }
  }

  lemma FieldsInjective(
      namespace: Bytes, a: seq<Bytes>, parts: Parts, otherNamespace: Bytes, b: seq<Bytes>, others: Parts)
    requires ShortParts(namespace, parts) && ShortParts(otherNamespace, others)
    requires (forall n :: n in a ==> n in parts) && (forall n :: n in b ==> n in others)
    requires FeedAll(Fields(namespace, a, parts)) == FeedAll(Fields(otherNamespace, b, others))
    ensures namespace == otherNamespace && Pairs(a, parts) == Pairs(b, others)
  {
    var f, g := Fields(namespace, a, parts), Fields(otherNamespace, b, others);
    ShortFields(namespace, a, parts);
    ShortFields(otherNamespace, b, others);
    FeedAllInjective(f, g);
    assert f[0] == namespace && g[0] == otherNamespace;
    assert f[1..] == Pairs(a, parts) && g[1..] == Pairs(b, others);
  }

  /** Injective: equal streams come from equal namespaces and equal parts. */
  lemma EncodingIsInjective(namespace: Bytes, parts: Parts, otherNamespace: Bytes, others: Parts)
    requires ShortParts(namespace, parts) && ShortParts(otherNamespace, others)
    requires Encode(namespace, parts) == Encode(otherNamespace, others)
    ensures namespace == otherNamespace && parts == others
  {
    var a, b := NamesOf(parts), NamesOf(others);
    assert Encode(namespace, parts)[1..] == FeedAll(Fields(namespace, a, parts));
    assert Encode(otherNamespace, others)[1..] == FeedAll(Fields(otherNamespace, b, others));
    FieldsInjective(namespace, a, parts, otherNamespace, b, others);
    PairsInjective(a, parts, b, others);
  }

  // ---- Reading a stream back ----

  /** The number whose bytes these are, the lowest first. */
  function ReadNumber(s: Bytes): nat {
    if s == "" then 0 else s[0] as int + 256 * ReadNumber(s[1..])
  }

  /** Fields one behind the other, each after its length in eight bytes. */
  function ReadFields(s: Bytes): Option<seq<Bytes>>
    decreases |s|
  {
    if s == "" then Some([])
    else if |s| < 8 || |s| < 8 + ReadNumber(s[..8]) then None
    else
      var n := ReadNumber(s[..8]);
      match ReadFields(s[8 + n..])
      case None => None
      case Some(rest) => Some([s[8..8 + n]] + rest)
  }

  lemma {:induction false} ReadsNumber(n: nat, width: nat)
    requires n < Power256(width)
    ensures ReadNumber(LittleEndian(n, width)) == n
  {
    if width > 0 {
      var s := LittleEndian(n, width);
      ReadsNumber(n / 256, width - 1);
      assert s[1..] == LittleEndian(n / 256, width - 1) && s[0] as int == n % 256;
    }
  }

  lemma ReadsOne(field: Bytes, rest: Bytes)
    requires |field| <= U64_MAX
    ensures var s := Feed(field) + rest;
            && |s| == 8 + |field| + |rest| && ReadNumber(s[..8]) == |field|
            && s[8..8 + |field|] == field && s[8 + |field|..] == rest
  {
    var s := Feed(field) + rest;
    assert s[..8] == LittleEndian(|field|, 8);
    assert Power256(8) == U64_MAX + 1;
    ReadsNumber(|field|, 8);
  }

  lemma {:induction false} ReadsFields(fields: seq<Bytes>)
    requires Short(fields)
    ensures ReadFields(FeedAll(fields)) == Some(fields)
  {
    if fields != [] {
      var rest := FeedAll(fields[1..]);
      ReadsOne(fields[0], rest);
      ReadsFields(fields[1..]);
      assert FeedAll(fields) == Feed(fields[0]) + rest;
      assert [fields[0]] + fields[1..] == fields;
    }
  }

  lemma NamesPlainly(parts: Parts)
    ensures var names := NamesOf(parts);
            && |names| == |parts|
            && forall i, j :: 0 <= i < j < |names| ==> ByteBefore(names[i], names[j])
  {
    NamesAreOrdered();
    OrderedSorted(Less, parts.Keys);
    var names := NamesOf(parts);
    assert Sorted(Less, names);
    forall i, j | 0 <= i < j < |names| ensures ByteBefore(names[i], names[j]) && names[i] != names[j] {
      LessIsByteOrder(names[i], names[j]);
    }
    CountElements(names);
  }

  lemma {:induction false} CountElements(names: seq<Bytes>)
    requires forall i, j :: 0 <= i < j < |names| ==> names[i] != names[j]
    ensures |Elements(names)| == |names|
  {
    if names != [] {
      CountElements(names[1..]);
      assert names == [names[0]] + names[1..];
      assert Elements(names) == {names[0]} + Elements(names[1..]);
    }
  }

  /** The namespace, and each name with its value, in byte order of the names. */
  predicate Listed(namespace: Bytes, parts: Parts, f: seq<Bytes>) {
    && |f| == 1 + 2 * |parts| && f[0] == namespace
    && (forall k :: 0 <= k < |parts| ==> f[1 + 2 * k] in parts && f[2 + 2 * k] == parts[f[1 + 2 * k]])
    && forall j, k :: 0 <= j < k < |parts| ==> ByteBefore(f[1 + 2 * j], f[1 + 2 * k])
  }

  lemma FieldAt(namespace: Bytes, names: seq<Bytes>, parts: Parts, k: nat)
    requires (forall n :: n in names ==> n in parts) && k < |names|
    ensures var f := Fields(namespace, names, parts);
            |f| == 1 + 2 * |names| && f[0] == namespace && f[1 + 2 * k] == names[k] && f[2 + 2 * k] == parts[names[k]]
  {
    PairsAt(names, parts);
    var f := Fields(namespace, names, parts);
    assert f[1 + 2 * k] == Pairs(names, parts)[2 * k] && f[2 + 2 * k] == Pairs(names, parts)[2 * k + 1];
  }

  lemma FieldsAreListed(namespace: Bytes, parts: Parts)
    ensures Listed(namespace, parts, Fields(namespace, NamesOf(parts), parts))
  {
    var names := NamesOf(parts);
    var f := Fields(namespace, names, parts);
    NamesPlainly(parts);
    PairsAt(names, parts);
    forall k | 0 <= k < |parts|
      ensures f[1 + 2 * k] == names[k] && f[2 + 2 * k] == parts[names[k]] && names[k] in parts
    {
      FieldAt(namespace, names, parts, k);
    }
    forall j, k | 0 <= j < k < |parts| ensures ByteBefore(f[1 + 2 * j], f[1 + 2 * k]) {
      assert f[1 + 2 * j] == names[j] && f[1 + 2 * k] == names[k];
    }
  }

  /** What a stream says, read byte by byte: the layout version 1, then fields behind their lengths,
      the lowest byte first: the namespace, and each name with its value, in byte order of the names. */
  lemma StreamReadsBack(namespace: Bytes, parts: Parts)
    requires ShortParts(namespace, parts)
    ensures var s := Encode(namespace, parts);
            && s[0] == 1 as char && ReadFields(s[1..]).Some? && Listed(namespace, parts, ReadFields(s[1..]).value)
  {
    var fields := Fields(namespace, NamesOf(parts), parts);
    assert Encode(namespace, parts)[1..] == FeedAll(fields);
    ShortFields(namespace, NamesOf(parts), parts);
    ReadsFields(fields);
    FieldsAreListed(namespace, parts);
  }

  /** `Key::builder`: parts collected by name. */
  class KeyBuilder {
    const namespace: Bytes
    var parts: Parts

    constructor (namespace: Bytes)
      ensures this.namespace == namespace && parts == map[]
    {
      this.namespace := namespace;
      parts := map[];
    }

    /** Refuses a name that was already added. The builder is spent by a refusal. */
    method Part(name: Bytes, value: Bytes) returns (ok: bool)
      modifies this
      ensures ok <==> name !in old(parts)
      ensures parts == old(parts)[name := value]
    {
      ok := name !in parts;
      parts := parts[name := value];
    }

    /** Feeds the hasher field by field, in the order of the names. */
    method Build() returns (stream: Bytes)
      ensures stream == Encode(namespace, parts)
    {
      var sorted := SortedNames(parts);
      var fed := FeedFields(namespace, sorted, parts);
      stream := [FORMAT as char] + fed;
    }
  }

  method FeedFields(namespace: Bytes, names: seq<Bytes>, parts: Parts) returns (fed: Bytes)
    requires forall n :: n in names ==> n in parts
    ensures fed == FeedAll(Fields(namespace, names, parts))
  {
    FeedFirst(namespace, parts);
    fed := Feed(namespace);
    var i := 0;
    while i < |names|
      invariant 0 <= i <= |names|
      invariant fed == FeedAll(Fields(namespace, names[..i], parts))
    {
      FeedNext(namespace, names[..i], names[i], parts);
      assert names[..i + 1] == names[..i] + [names[i]];
      fed := fed + Feed(names[i]) + Feed(parts[names[i]]);
      i := i + 1;
    }
    assert names[..i] == names;
  }

  lemma FeedFirst(namespace: Bytes, parts: Parts)
    ensures FeedAll(Fields(namespace, [], parts)) == Feed(namespace)
  {
    assert Fields(namespace, [], parts) == [namespace] && [namespace][1..] == [];
  }

  /** The order in which a `BTreeMap` is iterated. */
  method SortedNames(parts: Parts) returns (sorted: seq<Bytes>)
    ensures sorted == NamesOf(parts)
  {
    NamesAreOrdered();
    sorted := Sort(Less, parts.Keys);
  }

  lemma FeedNext(namespace: Bytes, names: seq<Bytes>, name: Bytes, parts: Parts)
    requires name in parts && forall n :: n in names ==> n in parts
    ensures FeedAll(Fields(namespace, names + [name], parts))
         == FeedAll(Fields(namespace, names, parts)) + Feed(name) + Feed(parts[name])
  {
    FieldsSnoc(namespace, names, name, parts);
    FeedAllSnoc(Fields(namespace, names, parts), name, parts[name]);
  }

  lemma FieldsSnoc(namespace: Bytes, names: seq<Bytes>, name: Bytes, parts: Parts)
    requires name in parts && forall n :: n in names ==> n in parts
    ensures Fields(namespace, names + [name], parts) == Fields(namespace, names, parts) + [name, parts[name]]
  {
    PairsSnoc(names, name, parts);
  }

  lemma Associative(a: Bytes, b: Bytes, c: Bytes)
    ensures (a + b) + c == a + (b + c)
  {
  }

  lemma FeedAllCons(first: Bytes, rest: seq<Bytes>)
    ensures FeedAll([first] + rest) == Feed(first) + FeedAll(rest)
  {
    assert ([first] + rest)[1..] == rest;
  }

  lemma FeedAllMore(first: Bytes, rest: seq<Bytes>, more: seq<Bytes>)
    requires FeedAll(rest + more) == FeedAll(rest) + FeedAll(more)
    ensures FeedAll([first] + rest + more) == FeedAll([first] + rest) + FeedAll(more)
  {
    FeedAllCons(first, rest);
    FeedAllCons(first, rest + more);
    assert [first] + rest + more == [first] + (rest + more);
    Associative(Feed(first), FeedAll(rest), FeedAll(more));
  }

  lemma {:induction false} FeedAllAppend(fields: seq<Bytes>, more: seq<Bytes>)
    ensures FeedAll(fields + more) == FeedAll(fields) + FeedAll(more)
  {
    if fields == [] {
      assert fields + more == more;
    } else {
      var first, tail := fields[0], fields[1..];
      assert fields == [first] + tail;
      FeedAllAppend(tail, more);
      FeedAllMore(first, tail, more);
    }
  }

  lemma FeedAllSnoc(fields: seq<Bytes>, name: Bytes, value: Bytes)
    ensures FeedAll(fields + [name, value]) == FeedAll(fields) + Feed(name) + Feed(value)
  {
    FeedAllAppend(fields, [name, value]);
    assert [name, value][1..] == [value] && [value][1..] == [];
    assert FeedAll([value]) == Feed(value);
  }

  lemma {:induction false} PairsSnoc(names: seq<Bytes>, name: Bytes, parts: Parts)
    requires name in parts && forall n :: n in names ==> n in parts
    ensures forall n :: n in names + [name] ==> n in parts
    ensures Pairs(names + [name], parts) == Pairs(names, parts) + [name, parts[name]]
  {
    if names == [] {
      assert [name][1..] == [];
    } else {
      PairsSnoc(names[1..], name, parts);
      assert (names + [name])[1..] == names[1..] + [name];
    }
  }

  // ---- Order of adding parts ----

  /** The parts after adding `pairs` one by one. */
  function Added(pairs: seq<(Bytes, Bytes)>): Parts {
    if pairs == [] then map[] else Added(pairs[..|pairs| - 1])[pairs[|pairs| - 1].0 := pairs[|pairs| - 1].1]
  }

  predicate DistinctNames(pairs: seq<(Bytes, Bytes)>) {
    forall i, j :: 0 <= i < j < |pairs| ==> pairs[i].0 != pairs[j].0
  }

  lemma {:induction false} AddedItems(pairs: seq<(Bytes, Bytes)>)
    requires DistinctNames(pairs)
    ensures forall n :: n in Added(pairs) ==> (n, Added(pairs)[n]) in pairs
    ensures forall p :: p in pairs ==> p.0 in Added(pairs) && Added(pairs)[p.0] == p.1
  {
    if pairs != [] {
      var front := pairs[..|pairs| - 1];
      AddedItems(front);
      assert pairs == front + [pairs[|pairs| - 1]];
      forall p | p in front ensures p.0 != pairs[|pairs| - 1].0 { }
    }
  }

  lemma AddedSame(pairs: seq<(Bytes, Bytes)>, shuffled: seq<(Bytes, Bytes)>)
    requires DistinctNames(pairs) && DistinctNames(shuffled) && forall p :: p in pairs <==> p in shuffled
    ensures Added(pairs) == Added(shuffled)
  {
    AddedItems(pairs);
    AddedItems(shuffled);
    forall n | n in Added(pairs) ensures n in Added(shuffled) && Added(pairs)[n] == Added(shuffled)[n] {
      assert (n, Added(pairs)[n]) in shuffled;
    }
    forall n | n in Added(shuffled) ensures n in Added(pairs) {
      assert (n, Added(shuffled)[n]) in pairs;
    }
  }

  /** Canonical: any order of adding the same distinct parts gives one stream. */
  lemma PartOrderDoesNotMatter(pairs: seq<(Bytes, Bytes)>, shuffled: seq<(Bytes, Bytes)>, namespace: Bytes)
    requires DistinctNames(pairs) && DistinctNames(shuffled) && forall p :: p in pairs <==> p in shuffled
    ensures Encode(namespace, Added(pairs)) == Encode(namespace, Added(shuffled))
  {
    AddedSame(pairs, shuffled);
  }

  // ---- Hex ----

  const DIGITS: string := "0123456789abcdef"

  predicate LowerHex(c: char) {
    '0' <= c <= '9' || 'a' <= c <= 'f'
  }

  function HexByte(b: char): (r: string)
    requires b < 256 as char
    ensures |r| == 2 && LowerHex(r[0]) && LowerHex(r[1])
  {
    [DIGITS[b as int / 16], DIGITS[b as int % 16]]
  }

  predicate AllBytes(bytes: Bytes) {
    forall k :: 0 <= k < |bytes| ==> bytes[k] < 256 as char
  }

  /** The value of a lower-case hex digit. */
  function HexValue(c: char): int {
    if '0' <= c <= '9' then c as int - '0' as int else c as int - 'a' as int + 10
  }

  method Hex(bytes: Bytes) returns (out: string)
    requires AllBytes(bytes)
    ensures |out| == 2 * |bytes| && forall k :: 0 <= k < |out| ==> LowerHex(out[k])
    ensures forall k :: 0 <= k < |bytes| ==> HexValue(out[2 * k]) * 16 + HexValue(out[2 * k + 1]) == bytes[k] as int
  {
    out := "";
    for i := 0 to |bytes|
      invariant |out| == 2 * i && forall k :: 0 <= k < |out| ==> LowerHex(out[k])
      invariant forall k :: 0 <= k < i ==> HexValue(out[2 * k]) * 16 + HexValue(out[2 * k + 1]) == bytes[k] as int
    {
      HexByteValue(bytes[i]);
      out := out + HexByte(bytes[i]);
    }
  }

  lemma HexByteValue(b: char)
    requires b < 256 as char
    ensures HexValue(HexByte(b)[0]) * 16 + HexValue(HexByte(b)[1]) == b as int
  {
    assert forall d :: 0 <= d < 16 ==> HexValue(DIGITS[d]) == d;
  }
}
