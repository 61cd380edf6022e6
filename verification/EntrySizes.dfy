/** How long a printed entry can be: any length from the shortest entry of a schema on. */
module EntrySizes {
  import opened Common
  import opened EntryFormat
  import opened FileNames
  import opened Lookup
  import opened CacheRuns
  import KeyEncoding

  // ---- Digests ----

  /** `n` in `width` lower-case hex digits. */
  function HexText(n: nat, width: nat): (r: string)
    ensures |r| == width && forall k :: 0 <= k < width ==> HexDigitChar(r[k])
  {
    if width == 0 then "" else HexText(n / 16, width - 1) + [KeyEncoding.DIGITS[n % 16]]
  }

  function Power16(k: nat): nat {
    if k == 0 then 1 else 16 * Power16(k - 1)
  }

  lemma {:induction false} HexTextInjective(m: nat, n: nat, width: nat)
    requires m < Power16(width) && n < Power16(width) && HexText(m, width) == HexText(n, width)
    ensures m == n
  {
    if width > 0 {
      var a, b := HexText(m, width), HexText(n, width);
      assert a[..width - 1] == HexText(m / 16, width - 1) && b[..width - 1] == HexText(n / 16, width - 1);
      HexTextInjective(m / 16, n / 16, width - 1);
      assert KeyEncoding.DIGITS[m % 16] == a[width - 1] == b[width - 1] == KeyEncoding.DIGITS[n % 16];
      assert forall i, j :: 0 <= i < j < 16 ==> KeyEncoding.DIGITS[i] != KeyEncoding.DIGITS[j];
    }
  }

  lemma {:induction false} Power16Grows(k: nat)
    requires k >= 16
    ensures Power16(k) > U64_MAX
  {
    if k > 16 {
      Power16Grows(k - 1);
    } else {
      assert Power16(8) == 0x1_0000_0000;
      assert Power16(12) == 0x1_0000_0000_0000;
      assert Power16(16) == U64_MAX + 1;
    }
  }

  /** 64, not written as a literal so that no digest is unfolded digit by digit. */
  function Width(): (w: nat)
    ensures w == 64
  {
    4 * |KeyEncoding.DIGITS|
  }

  /** A digest of its own for every 64-bit number. */
  function Nth(n: nat): (d: string)
    ensures IsDigest(d)
  {
    HexText(n, Width())
  }

  lemma NthInjective(m: nat, n: nat)
    requires m <= U64_MAX && n <= U64_MAX && m != n
    ensures Nth(m) != Nth(n)
  {
    Power16Grows(Width());
    if Nth(m) == Nth(n) { HexTextInjective(m, n, Width()); }
  }

  // ---- Lengths ----

  lemma {:induction false} MoreOrder(fs: seq<Field>, gs: seq<Field>)
    requires |fs| == |gs| && forall k :: 0 <= k < |fs| ==> |PrintField(fs[k])| <= |PrintField(gs[k])|
    ensures |PrintMore(fs)| <= |PrintMore(gs)|
  {
    if fs != [] {
      assert |PrintField(fs[0])| <= |PrintField(gs[0])|;
      MoreOrder(fs[1..], gs[1..]);
    }
  }

  function Opening(h: Header): nat {
    |PrintOpen(FieldsOf(h))|
  }

  lemma PrintLength(h: Header, v: ValueText)
    ensures |Print(h, v)| == Opening(h) + |v| + |VALUE_KEY| + 1
  {
  }

  lemma {:induction false} EscapeHex(d: string)
    requires forall k :: 0 <= k < |d| ==> HexDigitChar(d[k])
    ensures Escape(d) == d
  {
    if d != "" {
      EscapeHex(d[1..]);
      assert d == [d[0]] + d[1..];
    }
  }

  /** Printed lengths, on variables so that no literal is unfolded. */
  function Length(a: Atom): nat {
    |PrintAtom(a)|
  }

  lemma PlainLength(s: Bytes)
    requires forall k :: 0 <= k < |s| ==> s[k] == '_' || 'a' <= s[k] <= 'z'
    ensures Length(Text(s)) == |s| + 2
  {
    EscapePlain(s);
  }

  lemma SourceLengths(a: Source, b: Source)
    requires a.CacheControl?
    ensures Length(Text(SourceName(a))) <= Length(Text(SourceName(b)))
  {
    PlainLength(SourceName(a));
    PlainLength(SourceName(b));
  }

  lemma DigestLength(d: string)
    requires IsDigest(d)
    ensures Length(Text(d)) == 66
  {
    EscapeHex(d);
  }

  lemma NumberLength(n: nat, m: nat)
    requires n < 10
    ensures Length(Number(n)) == 1 <= Length(Number(m))
  {
  }

  lemma TextLength(s: Bytes, t: Bytes)
    requires s == ""
    ensures Length(Text(s)) == 2 <= Length(Text(t))
  {
  }

  /** The shape of the shortest entry's header. */
  predicate Least(g: Header) {
    && IsDigest(g.digest) && g.namespace == "" && g.source.CacheControl?
    && g.storedAt < 10 && g.freshUntil < 10 && g.staleUntil < 10
  }

  /** Each value of a header is at least as long as that of the shortest one. */
  lemma AtomsAtLeast(g: Header, h: Header, k: nat)
    requires Least(g) && IsDigest(h.digest) && g.format == h.format && g.schema == h.schema && k < 8
    ensures Length(Atoms(g)[k]) <= Length(Atoms(h)[k])
  {
    if k == 2 { TextLength(g.namespace, h.namespace); }
    if k == 3 { DigestLength(g.digest); DigestLength(h.digest); }
    if k == 4 { NumberLength(g.storedAt, h.storedAt); }
    if k == 5 { NumberLength(g.freshUntil, h.freshUntil); }
    if k == 6 { NumberLength(g.staleUntil, h.staleUntil); }
    if k == 7 { SourceLengths(g.source, h.source); }
  }

  /** A store at time `t`, of 0 or 1, with an empty namespace and a value of `length` bytes. */
  function Filler(length: nat): ValueText
    requires length > 0
  {
    if length == 1 then "1" else ['"'] + seq(length - 2, _ => 'a') + ['"']
  }

  function FillerCall(n: nat, length: nat, t: nat): StoreCall
    requires length > 0
  {
    StoreCall(Key("", Nth(n)), Filler(length), Policy(0, 0, CacheControl), Clock(t, t, 0, 1))
  }

  /** The length of the shortest entry of a schema. */
  function Shortest(setup: Setup): nat {
    |EntryBytes(setup, FillerCall(0, 1, 0))|
  }

  lemma LeastOpening(g: Header, h: Header)
    requires Least(g) && IsDigest(h.digest) && g.format == h.format && g.schema == h.schema
    ensures Opening(g) <= Opening(h)
  {
    var fs, gs := FieldsOf(g), FieldsOf(h);
    forall k | 0 <= k < 8 ensures |PrintField(fs[k])| <= |PrintField(gs[k])| { AtomsAtLeast(g, h, k); }
    assert |PrintField(fs[0])| <= |PrintField(gs[0])|;
    MoreOrder(fs[1..], gs[1..]);
  }

  lemma ShortestIsLeast(setup: Setup, call: StoreCall)
    requires IsDigest(call.key.digest)
    ensures Shortest(setup) <= |EntryBytes(setup, call)|
  {
    var least := HeaderFor(Key("", Nth(0)), setup.schema, 0, Policy(0, 0, CacheControl));
    var h := HeaderFor(call.key, setup.schema, call.clock.header, call.policy);
    LeastOpening(least, h);
    PrintLength(least, Filler(1));
    PrintLength(h, call.value);
  }

  /** An entry of any length from the shortest on. */
  function SizedCall(setup: Setup, n: nat, size: nat, t: nat): StoreCall
    requires Shortest(setup) <= size
  {
    FillerCall(n, size - Shortest(setup) + 1, t)
  }

  lemma SizedCallHasSize(setup: Setup, n: nat, size: nat, t: nat)
    requires Shortest(setup) <= size && t <= 1
    ensures |EntryBytes(setup, SizedCall(setup, n, size, t))| == size
  {
    var h := HeaderFor(Key("", Nth(n)), setup.schema, t, Policy(0, 0, CacheControl));
    var least := HeaderFor(Key("", Nth(0)), setup.schema, 0, Policy(0, 0, CacheControl));
    LeastOpening(h, least);
    LeastOpening(least, h);
    PrintLength(least, Filler(1));
    PrintLength(h, Filler(size - Shortest(setup) + 1));
  }
}
