/**
 The bytes of an entry file: a JSON object whose last key is `value`. The printer is the compact
 serializer's; the parser reads that same shape back, strings escaped as in section 7 of RFC 8259.
 */
module EntryFormat {
  import opened Common

  datatype Source = CallerDefault | CacheControl

  datatype Header = Header(
    format: nat, schema: nat, namespace: Bytes, digest: Bytes,
    storedAt: nat, freshUntil: nat, staleUntil: nat, source: Source)

  /** The ranges of the Rust fields. */
  predicate InRange(h: Header) {
    && h.format <= U8_MAX && h.schema <= U32_MAX
    && h.storedAt <= U64_MAX && h.freshUntil <= U64_MAX && h.staleUntil <= U64_MAX
  }

  // ---- Numbers ----

  function Digits(n: nat): (r: Bytes)
    ensures r != "" && forall k :: 0 <= k < |r| ==> '0' <= r[k] <= '9'
  {
    if n < 10 then ['0' + n as char] else Digits(n / 10) + ['0' + (n % 10) as char]
  }

  function DigitsValue(s: Bytes): nat
    requires forall k :: 0 <= k < |s| ==> '0' <= s[k] <= '9'
  {
    if s == "" then 0 else 10 * DigitsValue(s[..|s| - 1]) + (s[|s| - 1] as int - '0' as int)
  }

  lemma {:induction false} DigitsRoundTrip(n: nat)
    ensures DigitsValue(Digits(n)) == n
  {
    var r := Digits(n);
    if n >= 10 {
      DigitsRoundTrip(n / 10);
      assert r[..|r| - 1] == Digits(n / 10);
    } else {
      assert r[..|r| - 1] == "";
    }
  }

  /** How many leading bytes are digits. */
  function DigitRun(s: Bytes): (n: nat)
    ensures n <= |s| && forall k :: 0 <= k < n ==> '0' <= s[k] <= '9'
    ensures n < |s| ==> !('0' <= s[n] <= '9')
  {
    if s != "" && '0' <= s[0] <= '9' then 1 + DigitRun(s[1..]) else 0
  }

  // ---- Strings ----

  function HexDigit(n: nat): char
    requires n < 16
  {
    if n < 10 then '0' + n as char else 'a' + (n - 10) as char
  }

  function HexDigitValue(c: char): Option<nat> {
    if '0' <= c <= '9' then Some(c as int - '0' as int)
    else if 'a' <= c <= 'f' then Some(c as int - 'a' as int + 10)
    else if 'A' <= c <= 'F' then Some(c as int - 'A' as int + 10)
    else None
  }

  /** One byte of a string, as the serializer writes it. */
  function EscapeByte(c: char): Bytes {
    if c == '"' then "\\\""
    else if c == '\\' then "\\\\"
    else if c == 8 as char then "\\b"
    else if c == 9 as char then "\\t"
    else if c == 10 as char then "\\n"
    else if c == 12 as char then "\\f"
    else if c == 13 as char then "\\r"
    else if c < ' ' then "\\u00" + [HexDigit(c as int / 16), HexDigit(c as int % 16)]
    else [c]
  }

  function Escape(s: Bytes): Bytes {
    if s == "" then "" else EscapeByte(s[0]) + Escape(s[1..])
  }

  /** The byte a two-character escape stands for. */
  function ShortEscape(c: char): Option<char> {
    if c == '"' || c == '\\' || c == '/' then Some(c)
    else if c == 'b' then Some(8 as char)
    else if c == 't' then Some(9 as char)
    else if c == 'n' then Some(10 as char)
    else if c == 'f' then Some(12 as char)
    else if c == 'r' then Some(13 as char)
    else None
  }

  /** Reads a string's contents up to its closing quote: the bytes, and what follows the quote. */
  function Unescape(s: Bytes): Option<(Bytes, Bytes)>
    decreases |s|
  {
    if s == "" then None
    else if s[0] == '"' then Some(("", s[1..]))
    else if s[0] != '\\' then if s[0] < ' ' then None else Prepend(s[0], Unescape(s[1..]))
    else if |s| < 2 then None
    else if ShortEscape(s[1]).Some? then Prepend(ShortEscape(s[1]).value, Unescape(s[2..]))
    else if |s| < 6 || s[1..4] != "u00" then None
    else match (HexDigitValue(s[4]), HexDigitValue(s[5]))
      case (Some(hi), Some(lo)) => if hi < 8 then Prepend((16 * hi + lo) as char, Unescape(s[6..])) else None
      case _ => None
  }

  function Prepend(c: char, r: Option<(Bytes, Bytes)>): Option<(Bytes, Bytes)> {
    match r
    case None => None
    case Some((text, rest)) => Some(([c] + text, rest))
  }

  lemma UnescapeByte(c: char, rest: Bytes)
    ensures Unescape(EscapeByte(c) + rest) == Prepend(c, Unescape(rest))
  {
    var e := EscapeByte(c);
    var s := e + rest;
    assert s[|e|..] == rest;
    if c < ' ' && ShortEscape(e[1]).None? {
      assert s[1..4] == "u00" && s[4] == e[4] && s[5] == e[5];
      assert HexDigitValue(e[4]) == Some(c as int / 16) && HexDigitValue(e[5]) == Some(c as int % 16);
    }
  }

  /** What the serializer escapes, the parser reads back. */
  lemma {:induction false} UnescapeEscape(s: Bytes, rest: Bytes)
    ensures Unescape(Escape(s) + ['"'] + rest) == Some((s, rest))
  {
    if s == "" {
      assert Escape(s) + ['"'] + rest == ['"'] + rest;
    } else {
      var more := Escape(s[1..]) + ['"'] + rest;
      assert Escape(s) + ['"'] + rest == EscapeByte(s[0]) + more;
      UnescapeByte(s[0], more);
      UnescapeEscape(s[1..], rest);
      assert [s[0]] + s[1..] == s;
    }
  }

  // ---- Fields ----

  datatype Atom = Number(n: nat) | Text(s: Bytes)

  datatype Field = Field(name: Bytes, atom: Atom)

  function PrintAtom(a: Atom): Bytes {
    match a
    case Number(n) => Digits(n)
    case Text(s) => ['"'] + Escape(s) + ['"']
  }

  /** `"name":` and the value. */
  function PrintField(f: Field): Bytes {
    ['"'] + f.name + ['"', ':'] + PrintAtom(f.atom)
  }

  /** The fields after the first, each behind its comma. */
  function PrintMore(fs: seq<Field>): Bytes {
    if fs == [] then "" else [','] + PrintField(fs[0]) + PrintMore(fs[1..])
  }

  /** An object's text without its closing brace. */
  function PrintOpen(fs: seq<Field>): Bytes
    requires fs != []
  {
    ['{'] + PrintField(fs[0]) + PrintMore(fs[1..])
  }

  function ParseAtom(s: Bytes): Option<(Atom, Bytes)> {
    if s == "" then None
    else if s[0] == '"' then
      match Unescape(s[1..])
      case Some((text, rest)) => Some((Text(text), rest))
      case None => None
    else if DigitRun(s) == 0 then None
    else Some((Number(DigitsValue(s[..DigitRun(s)])), s[DigitRun(s)..]))
  }

  /** Reads a field name and its colon. */
  function ParseName(s: Bytes): Option<(Bytes, Bytes)> {
    if s == "" || s[0] != '"' then None
    else match Unescape(s[1..])
      case Some((name, rest)) => if rest != "" && rest[0] == ':' then Some((name, rest[1..])) else None
      case None => None
  }

  /** Reads the fields of an object from its brace or a comma on. A `value` is skipped whole: it is
      the last field, so it ends one byte before the end of the text. */
  function ParseMore(s: Bytes): Option<seq<Field>>
    decreases |s|
  {
    if s == "}" then Some([])
    else if s == "" || s[0] != ',' then None
    else ParseOne(s[1..])
  }

  function ParseOne(s: Bytes): Option<seq<Field>>
    decreases |s|
  {
    match ParseName(s)
    case None => None
    case Some((name, rest)) =>
      if name == "value" then if |rest| >= 2 && rest[|rest| - 1] == '}' then Some([]) else None
      else match ParseAtom(rest)
        case None => None
        case Some((atom, after)) =>
          if |after| >= |s| then None
          else match ParseMore(after)
            case None => None
            case Some(fs) => Some([Field(name, atom)] + fs)
  }

  function ParseObject(s: Bytes): Option<seq<Field>> {
    if s == "" || s[0] != '{' then None else ParseOne(s[1..])
  }

  /** Names that print as themselves and that no scan takes for `value`. */
  predicate PlainName(name: Bytes) {
    && name != "" && name[0] != 'v'
    && forall k :: 0 <= k < |name| ==> name[k] == '_' || 'a' <= name[k] <= 'z'
  }

  predicate PlainNames(fs: seq<Field>) {
    forall k :: 0 <= k < |fs| ==> PlainName(fs[k].name)
  }

  lemma DigitRunIs(s: Bytes, n: nat)
    requires n <= |s| && (forall k :: 0 <= k < n ==> '0' <= s[k] <= '9') && (n < |s| ==> !('0' <= s[n] <= '9'))
    ensures DigitRun(s) == n
  {
  }

  // Regroupings of concatenations, on their own so that no printer is unfolded beside them.

  lemma Quoted(a: Bytes, rest: Bytes)
    ensures var s := (['"'] + a + ['"']) + rest; s[0] == '"' && s[1..] == a + ['"'] + rest
  {
  }

  lemma Regroup(a: Bytes, b: Bytes, c: Bytes, d: Bytes, m: Bytes, t: Bytes)
    ensures (a + b + c + d) + m + t == a + b + c + (d + (m + t))
  {
  }

  lemma Behind(c: char, f: Bytes, m: Bytes, t: Bytes)
    ensures var s := ([c] + f + m) + t; s[0] == c && s[1..] == f + m + t && |s| >= 1
  {
  }

  lemma ParsePrintText(t: Bytes, rest: Bytes)
    ensures ParseAtom(PrintAtom(Text(t)) + rest) == Some((Text(t), rest))
  {
    Quoted(Escape(t), rest);
    UnescapeEscape(t, rest);
  }

  lemma ParsePrintNumber(n: nat, rest: Bytes)
    requires rest != "" && !('0' <= rest[0] <= '9')
    ensures ParseAtom(PrintAtom(Number(n)) + rest) == Some((Number(n), rest))
  {
    var d := Digits(n);
    var s := d + rest;
    assert s[0] == d[0] && s[..|d|] == d && s[|d|..] == rest;
    DigitRunIs(s, |d|);
    DigitsRoundTrip(n);
  }

  lemma ParsePrintAtom(a: Atom, rest: Bytes)
    requires rest != "" && !('0' <= rest[0] <= '9')
    ensures ParseAtom(PrintAtom(a) + rest) == Some((a, rest))
  {
    if a.Text? { ParsePrintText(a.s, rest); } else { ParsePrintNumber(a.n, rest); }
  }

  lemma {:induction false} EscapePlain(name: Bytes)
    requires forall k :: 0 <= k < |name| ==> name[k] == '_' || 'a' <= name[k] <= 'z'
    ensures Escape(name) == name
  {
    if name != "" {
      var first, rest := name[0], name[1..];
      assert EscapeByte(first) == [first];
      EscapePlain(rest);
      assert name == [first] + rest;
    }
  }

  lemma ParsePrintName(name: Bytes, rest: Bytes)
    requires PlainName(name)
    ensures ParseName(['"'] + name + ['"', ':'] + rest) == Some((name, rest))
  {
    var s := ['"'] + name + ['"', ':'] + rest;
    EscapePlain(name);
    assert s[1..] == Escape(name) + ['"'] + ([':'] + rest);
    UnescapeEscape(name, [':'] + rest);
  }

  /** What may follow the fields that a parse returns. */
  predicate Tail(t: Bytes) {
    t != "" && (t[0] == ',' || t[0] == '}') && ParseMore(t) == Some([])
  }

  /** The first byte after a field is no digit. */
  lemma AfterField(fs: seq<Field>, t: Bytes)
    requires Tail(t)
    ensures PrintMore(fs) + t != "" && ((PrintMore(fs) + t)[0] == ',' || (PrintMore(fs) + t)[0] == '}')
  {
    if fs != [] {
      Behind(',', PrintField(fs[0]), PrintMore(fs[1..]), t);
    } else {
      assert PrintMore(fs) + t == t;
    }
  }

  lemma ParseOneAt(s: Bytes, name: Bytes, atom: Atom, tail: Bytes, after: Bytes, fs: seq<Field>)
    requires ParseName(s) == Some((name, tail)) && name != "value"
    requires ParseAtom(tail) == Some((atom, after)) && |after| < |s| && ParseMore(after) == Some(fs)
    ensures ParseOne(s) == Some([Field(name, atom)] + fs)
  {
  }

  lemma ParsePrintOne(f: Field, fs: seq<Field>, t: Bytes)
    requires PlainName(f.name) && Tail(t) && ParseMore(PrintMore(fs) + t) == Some(fs)
    ensures ParseOne(PrintField(f) + PrintMore(fs) + t) == Some([f] + fs)
  {
    var more, text := PrintMore(fs), PrintAtom(f.atom);
    var s := PrintField(f) + more + t;
    Regroup(['"'], f.name, ['"', ':'], text, more, t);
    ParsePrintName(f.name, text + (more + t));
    AfterField(fs, t);
    ParsePrintAtom(f.atom, more + t);
    ParseOneAt(s, f.name, f.atom, text + (more + t), more + t, fs);
  }

  lemma {:induction false} ParsePrintMore(fs: seq<Field>, t: Bytes)
    requires PlainNames(fs) && Tail(t)
    ensures ParseMore(PrintMore(fs) + t) == Some(fs)
  {
    if fs == [] {
      assert PrintMore(fs) + t == t;
    } else {
      ParsePrintMore(fs[1..], t);
      ParsePrintOne(fs[0], fs[1..], t);
      Behind(',', PrintField(fs[0]), PrintMore(fs[1..]), t);
      assert fs == [fs[0]] + fs[1..];
    }
  }

  /** An object printed from its fields parses back to them, with or without a `value` behind. */
  lemma ParsePrint(fs: seq<Field>, t: Bytes)
    requires fs != [] && PlainNames(fs) && Tail(t)
    ensures ParseObject(PrintOpen(fs) + t) == Some(fs)
  {
    var rest := fs[1..];
    ParsePrintMore(rest, t);
    ParsePrintOne(fs[0], rest, t);
    Behind('{', PrintField(fs[0]), PrintMore(rest), t);
    assert PrintOpen(fs) == ['{'] + PrintField(fs[0]) + PrintMore(rest);
    assert [fs[0]] + rest == fs;
  }

  const VALUE_KEY: Bytes := ",\"value\":"

  /** The compact text of a value, which this model does not look into. */
  type ValueText = v: Bytes | v != "" witness "0"

  lemma ValueTail(v: ValueText)
    ensures Tail(VALUE_KEY + v + "}")
  {
    var t := VALUE_KEY + v + "}";
    assert t[1..] == ['"'] + "value" + ['"', ':'] + (v + "}");
    EscapePlain("value");
    var u := ['"'] + "value" + ['"', ':'] + (v + "}");
    assert u[1..] == Escape("value") + ['"'] + ([':'] + (v + "}"));
    UnescapeEscape("value", [':'] + (v + "}"));
    assert ParseName(u) == Some(("value", v + "}"));
  }

  // ---- The entry ----

  function SourceName(s: Source): Bytes {
    if s.CallerDefault? then "caller_default" else "cache_control"
  }

  const NAMES: seq<Bytes> :=
    ["format", "schema", "namespace", "digest", "stored_at_ms", "fresh_until_ms", "stale_until_ms", "source"]

  /** The header's values, in the order of `NAMES`. */
  function Atoms(h: Header): seq<Atom> {
    [Number(h.format), Number(h.schema), Text(h.namespace), Text(h.digest), Number(h.storedAt),
     Number(h.freshUntil), Number(h.staleUntil), Text(SourceName(h.source))]
  }

  function FieldsOf(h: Header): (fs: seq<Field>)
    ensures |fs| == 8
  {
    seq(8, k requires 0 <= k < 8 => Field(NAMES[k], Atoms(h)[k]))
  }

  /** The entry file of `h` and a value. */
  function Print(h: Header, v: ValueText): Bytes {
    PrintOpen(FieldsOf(h)) + VALUE_KEY + v + "}"
  }

  /** A name and its value, as they stand in the text. */
  function Member(name: Bytes, text: Bytes): Bytes {
    "\"" + name + "\":" + text
  }

  function QuotedText(s: Bytes): Bytes {
    "\"" + Escape(s) + "\""
  }

  lemma FieldPlainly(name: Bytes, n: nat, s: Bytes)
    ensures PrintField(Field(name, Number(n))) == Member(name, Digits(n))
    ensures PrintField(Field(name, Text(s))) == Member(name, QuotedText(s))
  {
    var front := ['"'] + name + ['"', ':'];
    assert "\"" + name + "\":" == front;
  }

  lemma MoreCons(f: Field, fs: seq<Field>)
    ensures PrintMore([f] + fs) == "," + PrintField(f) + PrintMore(fs)
  {
    assert ([f] + fs)[1..] == fs;
  }

  function SourceText(s: Source): Bytes {
    "\"" + (if s.CallerDefault? then "caller_default" else "cache_control") + "\""
  }

  lemma SourcePlainly(s: Source)
    ensures QuotedText(SourceName(s)) == SourceText(s)
  {
    EscapePlain(SourceName(s));
  }

  /** A number or text member behind its comma, before the rest. */
  function Then(name: Bytes, text: Bytes, rest: Bytes): Bytes {
    "," + Member(name, text) + rest
  }

  lemma NumberThen(name: Bytes, n: nat, fs: seq<Field>, text: Bytes, rest: Bytes)
    requires PrintMore(fs) == rest && text == Digits(n)
    ensures PrintMore([Field(name, Number(n))] + fs) == Then(name, text, rest)
  {
    MoreCons(Field(name, Number(n)), fs);
    FieldPlainly(name, n, "");
  }

  lemma TextThen(name: Bytes, s: Bytes, fs: seq<Field>, text: Bytes, rest: Bytes)
    requires PrintMore(fs) == rest && text == QuotedText(s)
    ensures PrintMore([Field(name, Text(s))] + fs) == Then(name, text, rest)
  {
    MoreCons(Field(name, Text(s)), fs);
    FieldPlainly(name, 0, s);
  }

  /** The members after the first, for any names of theirs. */
  lemma MembersPlainly(h: Header, names: seq<Bytes>, fs: seq<Field>)
    requires |names| == 8 && |fs| == 8 && forall k :: 0 <= k < 8 ==> fs[k] == Field(names[k], Atoms(h)[k])
    ensures PrintMore(fs[1..])
         == Then(names[1], Digits(h.schema), Then(names[2], QuotedText(h.namespace),
            Then(names[3], QuotedText(h.digest),
            Then(names[4], Digits(h.storedAt), Then(names[5], Digits(h.freshUntil), Then(names[6], Digits(h.staleUntil),
            Then(names[7], SourceText(h.source), "")))))))
  {
    var t7 := Then(names[7], SourceText(h.source), "");
    SourcePlainly(h.source);
    assert fs[8..] == [];
    TextThen(names[7], SourceName(h.source), fs[8..], SourceText(h.source), "");
    assert fs[7..] == [fs[7]] + fs[8..];
    var t6 := Then(names[6], Digits(h.staleUntil), t7);
    NumberThen(names[6], h.staleUntil, fs[7..], Digits(h.staleUntil), t7);
    assert fs[6..] == [fs[6]] + fs[7..];
    var t5 := Then(names[5], Digits(h.freshUntil), t6);
    NumberThen(names[5], h.freshUntil, fs[6..], Digits(h.freshUntil), t6);
    assert fs[5..] == [fs[5]] + fs[6..];
    var t4 := Then(names[4], Digits(h.storedAt), t5);
    NumberThen(names[4], h.storedAt, fs[5..], Digits(h.storedAt), t5);
    assert fs[4..] == [fs[4]] + fs[5..];
    var t3 := Then(names[3], QuotedText(h.digest), t4);
    TextThen(names[3], h.digest, fs[4..], QuotedText(h.digest), t4);
    assert fs[3..] == [fs[3]] + fs[4..];
    var t2 := Then(names[2], QuotedText(h.namespace), t3);
    TextThen(names[2], h.namespace, fs[3..], QuotedText(h.namespace), t3);
    assert fs[2..] == [fs[2]] + fs[3..];
    NumberThen(names[1], h.schema, fs[2..], Digits(h.schema), t2);
    assert fs[1..] == [fs[1]] + fs[2..];
  }

  /** The text of an entry file, member by member, compact; the value comes last. */
  lemma PrintPlainly(h: Header, v: ValueText)
    ensures Print(h, v)
         == "{" + Member("format", Digits(h.format))
            + Then("schema", Digits(h.schema), Then("namespace", QuotedText(h.namespace),
              Then("digest", QuotedText(h.digest), Then("stored_at_ms", Digits(h.storedAt),
              Then("fresh_until_ms", Digits(h.freshUntil), Then("stale_until_ms", Digits(h.staleUntil),
              Then("source", SourceText(h.source), "")))))))
            + ",\"value\":" + v + "}"
  {
    var fs := FieldsOf(h);
    MembersPlainly(h, NAMES, fs);
    FieldPlainly(NAMES[0], h.format, "");
    assert fs[0] == Field(NAMES[0], Number(h.format));
  }

  function SourceOf(name: Bytes): Option<Source> {
    if name == "caller_default" then Some(CallerDefault)
    else if name == "cache_control" then Some(CacheControl)
    else None
  }

  /** The header that parsed fields make, each of its kind and in its range. */
  function HeaderOf(fs: seq<Field>): Option<Header> {
    if |fs| != 8 || !(forall k :: 0 <= k < 8 ==> fs[k].name == NAMES[k]) then None
    else match (fs[0].atom, fs[1].atom, fs[2].atom, fs[3].atom)
      case (Number(format), Number(schema), Text(namespace), Text(digest)) => (
        match (fs[4].atom, fs[5].atom, fs[6].atom, fs[7].atom)
        case (Number(stored), Number(fresh_), Number(stale), Text(name)) =>
          if SourceOf(name).None? then None
          else
            var h := Header(format, schema, namespace, digest, stored, fresh_, stale, SourceOf(name).value);
            if InRange(h) then Some(h) else None
        case _ => None)
      case _ => None
  }

  function HeaderIn(fs: Option<seq<Field>>): Option<Header> {
    match fs
    case Some(f) => HeaderOf(f)
    case None => None
  }

  /** The header of a whole file, as a lookup reads it. */
  function FullHeader(bytes: Bytes): Option<Header> {
    HeaderIn(ParseObject(bytes))
  }

  predicate At(s: Bytes, pat: Bytes, k: nat) {
    k + |pat| <= |s| && s[k..k + |pat|] == pat
  }

  /** The first position of `pat` at or after `from`, or the length of `s`. */
  function Find(s: Bytes, pat: Bytes, from: nat): (p: nat)
    requires from <= |s| && pat != ""
    ensures from <= p <= |s| && (p < |s| ==> At(s, pat, p))
    ensures forall k :: from <= k < p ==> !At(s, pat, k)
    decreases |s| - from
  {
    if from == |s| || At(s, pat, from) then from else Find(s, pat, from + 1)
  }

  /** The header up to the first `value` key, as a prune reads it. */
  function ScanHeader(bytes: Bytes): Option<Header> {
    var p := Find(bytes, VALUE_KEY, 0);
    if p == |bytes| then None else HeaderIn(ParseObject(bytes[..p] + "}"))
  }

  lemma HeaderRoundTrip(h: Header)
    requires InRange(h)
    ensures HeaderOf(FieldsOf(h)) == Some(h) && PlainNames(FieldsOf(h))
  {
    var fs := FieldsOf(h);
    assert forall k :: 0 <= k < 8 ==> fs[k] == Field(NAMES[k], Atoms(h)[k]);
    assert SourceOf(SourceName(h.source)) == Some(h.source);
    forall k | 0 <= k < 8 ensures PlainName(fs[k].name) { }
  }

  // ---- Where the value key is ----

  /** A scan for `,"v`: how much of it the last bytes match, and 3 once it has occurred. */
  function Next(q: nat, c: char): nat {
    if q == 3 || (q == 2 && c == 'v') then 3
    else if c == ',' then 1
    else if q == 1 && c == '"' then 2
    else 0
  }

  function Scan(q: nat, s: Bytes): nat
    decreases |s|
  {
    if s == "" then q else Scan(Next(q, s[0]), s[1..])
  }

  lemma {:induction false} ScanAppend(q: nat, a: Bytes, b: Bytes)
    ensures Scan(q, a + b) == Scan(Scan(q, a), b)
    decreases |a|
  {
    if a == "" {
      assert a + b == b;
    } else {
      ScanAppend(Next(q, a[0]), a[1..], b);
      assert (a + b)[1..] == a[1..] + b;
    }
  }

  lemma {:induction false} ScanStuck(s: Bytes)
    ensures Scan(3, s) == 3
  {
    if s != "" { ScanStuck(s[1..]); }
  }

  lemma ScanHits(q: nat, s: Bytes)
    requires |s| >= 3 && s[0] == ',' && s[1] == '"' && s[2] == 'v'
    ensures Scan(q, s) == 3
  {
    assert Scan(q, s) == Scan(Next(q, s[0]), s[1..]) && s[1..][1..][0] == 'v';
    ScanStuck(s[1..]);
    ScanStuck(s[1..][1..][1..]);
    assert Scan(1, s[1..]) == Scan(2, s[1..][1..]) == Scan(3, s[1..][1..][1..]);
  }

  /** A scan that never sees `,"v` saw it nowhere. */
  lemma {:induction false} ScanMisses(q: nat, s: Bytes, k: nat)
    requires Scan(q, s) != 3 && k + 3 <= |s|
    ensures !(s[k] == ',' && s[k + 1] == '"' && s[k + 2] == 'v')
    decreases |s|
  {
    if q == 3 { ScanStuck(s); }
    var s1 := s[1..];
    if k > 0 {
      ScanMisses(Next(q, s[0]), s1, k - 1);
    } else if s[0] == ',' && s[1] == '"' && s[2] == 'v' {
      ScanHits(q, s);
    }
  }

  lemma {:induction false} ScanPlain(s: Bytes)
    requires forall k :: 0 <= k < |s| ==> s[k] != ','
    ensures Scan(0, s) == 0
  {
    if s != "" { ScanPlain(s[1..]); }
  }

  /** An escaped quote follows a backslash, so an escaped string never shows `,"`. */
  lemma {:induction false} ScanEscape(q: nat, s: Bytes)
    requires q <= 1
    ensures Scan(q, Escape(s)) <= 1
    decreases |s|
  {
    if s != "" {
      var e := EscapeByte(s[0]);
      ScanAppend(q, e, Escape(s[1..]));
      if |e| == 1 {
        assert e[1..] == "";
      } else {
        assert e[0] == '\\' && forall k :: 0 <= k < |e[1..]| ==> e[1..][k] != ',';
        ScanPlain(e[1..]);
      }
      ScanEscape(Scan(q, e), s[1..]);
    }
  }

  lemma ScanAtom(a: Atom)
    ensures Scan(0, PrintAtom(a)) == 0 || Scan(0, PrintAtom(a)) == 2
  {
    match a
    case Number(n) => ScanPlain(Digits(n));
    case Text(t) =>
      ScanAppend(0, ['"'] + Escape(t), ['"']);
      ScanAppend(0, ['"'], Escape(t));
      assert ['"'][1..] == "";
      ScanEscape(0, t);
  }

  /** From a boundary, at an object's brace or at a comma, a field never shows `,"v`. */
  lemma ScanField(q: nat, f: Field)
    requires (q == 0 || q == 1) && PlainName(f.name)
    ensures Scan(q, PrintField(f)) == 0 || Scan(q, PrintField(f)) == 2
  {
    var front := ['"'] + f.name + ['"', ':'];
    ScanAppend(q, front, PrintAtom(f.atom));
    assert front[0] == '"' && front[1..][0] == f.name[0];
    forall k | 0 <= k < |front[1..][1..]| ensures front[1..][1..][k] != ',' {
      assert front[1..][1..][k] == front[k + 2];
    }
    ScanPlain(front[1..][1..]);
    assert Scan(q, front) == 0;
    ScanAtom(f.atom);
  }

  lemma {:induction false} ScanMore(q: nat, fs: seq<Field>)
    requires (q == 0 || q == 2) && PlainNames(fs)
    ensures Scan(q, PrintMore(fs)) == 0 || Scan(q, PrintMore(fs)) == 2
    decreases |fs|
  {
    if fs != [] {
      ScanAppend(q, [','] + PrintField(fs[0]), PrintMore(fs[1..]));
      ScanAppend(q, [','], PrintField(fs[0]));
      assert [','][1..] == "";
      ScanField(1, fs[0]);
      ScanMore(Scan(1, PrintField(fs[0])), fs[1..]);
    }
  }

  lemma ScanOpen(fs: seq<Field>)
    requires fs != [] && PlainNames(fs)
    ensures Scan(0, PrintOpen(fs) + ",\"") != 3
  {
    ScanAppend(0, ['{'] + PrintField(fs[0]), PrintMore(fs[1..]));
    ScanAppend(0, ['{'], PrintField(fs[0]));
    assert ['{'][1..] == "";
    ScanField(0, fs[0]);
    ScanMore(Scan(0, PrintField(fs[0])), fs[1..]);
    ScanAppend(0, PrintOpen(fs), ",\"");
    var q := Scan(0, PrintOpen(fs));
    assert ",\""[1..] == "\"" && "\""[1..] == "";
    assert Scan(q, ",\"") == Scan(1, "\"") == Scan(2, "");
  }

  lemma FindIs(s: Bytes, pat: Bytes, from: nat, p: nat)
    requires pat != "" && from <= p <= |s| && (p < |s| ==> At(s, pat, p))
    requires forall k :: from <= k < p ==> !At(s, pat, k)
    ensures Find(s, pat, from) == p
  {
    var q := Find(s, pat, from);
  }

  lemma KeyHead(s: Bytes, k: nat)
    requires At(s, VALUE_KEY, k)
    ensures s[k] == ',' && s[k + 1] == '"' && s[k + 2] == 'v'
  {
    var w := s[k..k + |VALUE_KEY|];
    assert w[0] == s[k] && w[1] == s[k + 1] && w[2] == s[k + 2];
  }

  /** The first `,"value":` of a printed entry is the value key, whatever the strings contain. */
  lemma ValueKeyIsFirst(fs: seq<Field>, v: ValueText)
    requires fs != [] && PlainNames(fs)
    ensures Find(PrintOpen(fs) + (VALUE_KEY + v + "}"), VALUE_KEY, 0) == |PrintOpen(fs)|
  {
    var open := PrintOpen(fs);
    var s, two := open + (VALUE_KEY + v + "}"), open + ",\"";
    ScanOpen(fs);
    assert s[..|open| + 2] == two;
    forall k | 0 <= k < |open| ensures !At(s, VALUE_KEY, k) {
      assert s[k] == two[k] && s[k + 1] == two[k + 1] && (k + 2 < |two| ==> s[k + 2] == two[k + 2]);
      if At(s, VALUE_KEY, k) {
        KeyHead(s, k);
        ScanMisses(0, two, k);
      }
    }
    assert s[|open|..|open| + |VALUE_KEY|] == VALUE_KEY;
    FindIs(s, VALUE_KEY, 0, |open|);
  }

  /** For every header and value, the scan up to the first value key and the parse of the whole
      file both give exactly the header that was printed. */
  lemma ScanEqualsFullParse(h: Header, v: ValueText)
    requires InRange(h)
    ensures ScanHeader(Print(h, v)) == Some(h)
    ensures FullHeader(Print(h, v)) == Some(h)
  {
    var open := PrintOpen(FieldsOf(h));
    HeaderRoundTrip(h);
    assert Print(h, v) == open + (VALUE_KEY + v + "}");
    ValueTail(v);
    ParsePrint(FieldsOf(h), VALUE_KEY + v + "}");
    ValueKeyIsFirst(FieldsOf(h), v);
    assert Print(h, v)[..|open|] == open;
    ParsePrint(FieldsOf(h), "}");
  }

  // ---- Reading in chunks ----

  function Concat(chunks: seq<Bytes>): Bytes {
    if chunks == [] then "" else chunks[0] + Concat(chunks[1..])
  }

  lemma ConcatStep(prefix: Bytes, rest: seq<Bytes>)
    requires rest != []
    ensures prefix + Concat(rest) == (prefix + rest[0]) + Concat(rest[1..])
  {
  }

  lemma FindOnward(s: Bytes, more: Bytes, pat: Bytes, start: nat)
    requires pat != "" && start <= |s| && (start == 0 || start + |pat| <= |s| + 1)
    requires Find(s, pat, 0) == |s|
    ensures Find(s + more, pat, start) == Find(s + more, pat, 0)
  {
    var t := s + more;
    forall k | 0 <= k < start ensures !At(t, pat, k) {
      assert t[k..k + |pat|] == s[k..k + |pat|];
      assert !At(s, pat, k);
    }
    FindIs(t, pat, 0, Find(t, pat, start));
  }

  /** Reads a file of at most `limit` bytes chunk by chunk, searching each chunk and the last bytes
      before it, and stops at the value key. Every division into chunks gives the same header. */
  method ReadHeader(chunks: seq<Bytes>, file: Bytes, limit: nat) returns (r: Option<Header>)
    requires Concat(chunks) == file[..Min(limit, |file|)]
    ensures r == ScanHeader(file[..Min(limit, |file|)])
  {
    var prefix: Bytes := "";
    var rest := chunks;
    ghost var whole := Concat(chunks);
    while rest != []
      invariant whole == prefix + Concat(rest)
      invariant Find(prefix, VALUE_KEY, 0) == |prefix|
      decreases |rest|
    {
      var chunk := rest[0];
      var start := SatSub(|prefix|, |VALUE_KEY| - 1);
      FindOnward(prefix, chunk, VALUE_KEY, start);
      ConcatStep(prefix, rest);
      prefix, rest := prefix + chunk, rest[1..];
      var end := Find(prefix, VALUE_KEY, start);
      if end < |prefix| {
        FoundStays(prefix, Concat(rest), VALUE_KEY, end);
        return HeaderIn(ParseObject(prefix[..end] + "}"));
      }
    }
    assert whole == prefix;
    return None;
  }

  lemma FoundStays(s: Bytes, more: Bytes, pat: Bytes, p: nat)
    requires pat != "" && p < |s| && Find(s, pat, 0) == p
    ensures Find(s + more, pat, 0) == p && (s + more)[..p] == s[..p]
  {
    var t := s + more;
    assert t[p..p + |pat|] == s[p..p + |pat|];
    forall k | 0 <= k < p ensures !At(t, pat, k) {
      assert t[k..k + |pat|] == s[k..k + |pat|];
      assert !At(s, pat, k);
    }
    FindIs(t, pat, 0, p);
  }

  /** Reading a printed entry in any chunks, within its limit, gives the header it was printed from. */
  lemma ReadsWhatWasPrinted(h: Header, v: ValueText, limit: nat)
    requires InRange(h) && |Print(h, v)| <= limit
    ensures ScanHeader(Print(h, v)[..Min(limit, |Print(h, v)|)]) == Some(h)
  {
    ScanEqualsFullParse(h, v);
    assert Print(h, v)[..|Print(h, v)|] == Print(h, v);
  }
}
