/** Reading one key: what an entry file answers, when, and to whom. */
module Lookup {
  import opened Common
  import opened EntryFormat
  import KeyEncoding

  /** A key's namespace and the digest that names its files. */
  datatype Key = Key(namespace: Bytes, digest: Bytes)

  /** Durations are in milliseconds. */
  datatype Limits = Limits(
    maxEntryBytes: nat, hardEntries: nat, hardBytes: nat, targetEntries: nat, targetBytes: nat,
    unusedAfter: nat, sweepEvery: nat, touchAfter: nat)

  datatype Policy = Policy(fresh_: nat, staleIfError: nat, source: Source)

  /** A file's bytes and modification time, or something that is no regular file. */
  datatype File = Regular(bytes: Bytes, modified: nat) | Special

  datatype Cached<V> = Cached(value: V, storedAt: nat, age: nat, source: Source)

  datatype Answer<V> = Miss | Fresh(hit: Cached<V>) | Stale(hit: Cached<V>)

  /** What a read may do to the file: nothing, remove it if the key is locked, or touch it. */
  datatype Effect = Leave | Discard | Touch

  predicate Consistent(h: Header) {
    h.format == KeyEncoding.FORMAT && h.storedAt <= h.freshUntil <= h.staleUntil
  }

  /** The header a store writes. */
  function HeaderFor(key: Key, schema: nat, now: nat, policy: Policy): Header {
    var freshUntil := SatAdd(now, policy.fresh_);
    Header(KeyEncoding.FORMAT, schema, key.namespace, key.digest, now, freshUntil,
           SatAdd(freshUntil, policy.staleIfError), policy.source)
  }

  /** `private::read`: the bytes of a regular file within the limit. */
  function Readable(file: Option<File>, limit: nat): Option<Bytes> {
    if file.Some? && file.value.Regular? && |file.value.bytes| <= limit then Some(file.value.bytes) else None
  }

  /** `read`: the answer, and what it does to the file. `decode` is the caller's value type. */
  function Read<V>(file: Option<File>, key: Key, schema: nat, limits: Limits, now: nat, decode: Bytes -> Option<V>)
    : (Answer<V>, Effect)
  {
    match Readable(file, limits.maxEntryBytes)
    case None => (Miss, Discard)
    case Some(bytes) =>
      match FullHeader(bytes)
      case None => (Miss, Discard)
      case Some(h) =>
        if h.schema > schema then (Miss, Leave)
        else if !Consistent(h) || h.digest != key.digest || h.namespace != key.namespace then (Miss, Discard)
        else if now > h.staleUntil then (Miss, Discard)
        else match decode(bytes)
          case None => (Miss, Discard)
          case Some(value) =>
            var effect := if SatSub(now, file.value.modified) > limits.touchAfter then Touch else Leave;
            var hit := Cached(value, h.storedAt, SatSub(now, h.storedAt), h.source);
            (if h.schema == schema && now <= h.freshUntil then Fresh(hit) else Stale(hit), effect)
  }

  /** The file after a read: an unlocked one never removes it. */
  function AfterRead(file: Option<File>, effect: Effect, locked: bool, now: nat): Option<File> {
    match effect
    case Leave => file
    case Discard => if locked then None else file
    case Touch => if file.Some? && file.value.Regular? then Some(file.value.(modified := now)) else file
  }

  // ---- Horizons ----

  /** Every stored header is ordered, even when the additions saturate. */
  lemma StoredHeadersAreConsistent(key: Key, schema: nat, now: nat, policy: Policy)
    requires now <= U64_MAX && schema <= U32_MAX
    ensures var h := HeaderFor(key, schema, now, policy);
            && Consistent(h) && InRange(h)
            && (now + policy.fresh_ + policy.staleIfError <= U64_MAX ==>
                  h.freshUntil == now + policy.fresh_ && h.staleUntil == now + policy.fresh_ + policy.staleIfError)
  {
  }

  function Rank<V>(a: Answer<V>): nat {
    match a case Fresh(_) => 0 case Stale(_) => 1 case Miss => 2
  }

  /** One read of a key: by a cache opened with some schema, unlocked or under the key's lock. */
  datatype Visit = Visit(schema: nat, now: nat, locked: bool)

  /** What the file is after one visit. */
  function After<V>(file: Option<File>, key: Key, limits: Limits, v: Visit, decode: Bytes -> Option<V>): Option<File> {
    AfterRead(file, Read(file, key, v.schema, limits, v.now, decode).1, v.locked, v.now)
  }

  /** The answers of a run of reads of one key, with no write between. */
  function Visits<V>(file: Option<File>, key: Key, limits: Limits, visits: seq<Visit>, decode: Bytes -> Option<V>)
    : seq<Answer<V>>
    decreases |visits|
  {
    if visits == [] then []
    else
      [Read(file, key, visits[0].schema, limits, visits[0].now, decode).0]
      + Visits(After(file, key, limits, visits[0], decode), key, limits, visits[1..], decode)
  }

  predicate Timed(visits: seq<Visit>, schema: nat) {
    && (forall i, j :: 0 <= i < j < |visits| ==> visits[i].now <= visits[j].now)
    && (forall i :: 0 <= i < |visits| ==> visits[i].schema == schema)
  }

  /** Same bytes, or gone. */
  predicate SameOrGone(file: Option<File>, later: Option<File>) {
    || later == None
    || (&& file.Some?
        && (|| later == file
            || (file.value.Regular? && later.value.Regular? && later.value.bytes == file.value.bytes)))
  }

  lemma ReadIsOneWay<V>(
      file: Option<File>, later: Option<File>, key: Key, schema: nat, limits: Limits, now: nat, then_: nat,
      decode: Bytes -> Option<V>)
    requires SameOrGone(file, later) && now <= then_
    ensures Rank(Read(file, key, schema, limits, now, decode).0)
         <= Rank(Read(later, key, schema, limits, then_, decode).0)
  {
  }

  lemma {:induction false} LaterRanks<V>(
      r: nat, file: Option<File>, key: Key, schema: nat, limits: Limits, visits: seq<Visit>, decode: Bytes -> Option<V>)
    requires Timed(visits, schema)
    requires forall later: Option<File>, t: nat :: SameOrGone(file, later) && visits != [] && visits[0].now <= t ==>
               r <= Rank(Read(later, key, schema, limits, t, decode).0)
    ensures |Visits(file, key, limits, visits, decode)| == |visits|
    ensures forall k :: 0 <= k < |visits| ==> r <= Rank(Visits(file, key, limits, visits, decode)[k])
    decreases |visits|
  {
    if visits != [] {
      var v := visits[0];
      var next := After(file, key, limits, v, decode);
      assert SameOrGone(file, next) && SameOrGone(file, file);
      forall later: Option<File>, t: nat | SameOrGone(next, later) && |visits| > 1 && visits[1].now <= t
        ensures r <= Rank(Read(later, key, schema, limits, t, decode).0)
      {
        assert SameOrGone(file, later);
      }
      LaterRanks(r, next, key, schema, limits, visits[1..], decode);
    }
  }

  /** With a clock that does not go back and no write between, the reads of one key by one schema
      and value type run Fresh, then Stale, then Miss, and never go back. */
  lemma {:induction false} HorizonsAreOneWay<V>(
      file: Option<File>, key: Key, schema: nat, limits: Limits, visits: seq<Visit>, decode: Bytes -> Option<V>)
    requires Timed(visits, schema)
    ensures var answers := Visits(file, key, limits, visits, decode);
            && |answers| == |visits|
            && forall i, j :: 0 <= i < j < |visits| ==> Rank(answers[i]) <= Rank(answers[j])
    decreases |visits|
  {
    if visits != [] {
      var v := visits[0];
      var answer := Read(file, key, schema, limits, v.now, decode).0;
      var next := After(file, key, limits, v, decode);
      var rest := visits[1..];
      forall later: Option<File>, t: nat | SameOrGone(next, later) && rest != [] && rest[0].now <= t
        ensures Rank(answer) <= Rank(Read(later, key, schema, limits, t, decode).0)
      {
        assert SameOrGone(file, later);
        ReadIsOneWay(file, later, key, schema, limits, v.now, t, decode);
      }
      LaterRanks(Rank(answer), next, key, schema, limits, rest, decode);
      HorizonsAreOneWay(next, key, schema, limits, rest, decode);
    }
  }

  /** What an entry with a good header of this key answers. */
  lemma GoodHeaderAnswers<V>(
      file: File, h: Header, key: Key, reader: nat, limits: Limits, t: nat, decode: Bytes -> Option<V>)
    requires file.Regular? && |file.bytes| <= limits.maxEntryBytes && FullHeader(file.bytes) == Some(h)
    requires Consistent(h) && h.digest == key.digest && h.namespace == key.namespace && decode(file.bytes).Some?
    ensures var (answer, effect) := Read(Some(file), key, reader, limits, t, decode);
            && (answer.Fresh? <==> h.schema == reader && t <= h.freshUntil)
            && (answer.Stale? <==>
                  h.schema <= reader && t <= h.staleUntil && !(h.schema == reader && t <= h.freshUntil))
            && (!answer.Miss? ==> Some(answer.hit.value) == decode(file.bytes) && answer.hit.storedAt == h.storedAt)
            && (reader < h.schema ==> effect == Leave)
  {
  }

  /** A stored entry, read by its own key at `t`: its horizons are ordered, whatever saturates;
      and exactly when it is Fresh, Stale and Miss, and what it then answers. */
  lemma StoredEntryAnswers<V>(
      key: Key, stored: nat, reader: nat, now: nat, policy: Policy, v: ValueText, modified: nat, limits: Limits,
      t: nat, decode: Bytes -> Option<V>)
    requires now <= U64_MAX && stored <= U32_MAX
    requires var bytes := Print(HeaderFor(key, stored, now, policy), v);
             |bytes| <= limits.maxEntryBytes && decode(bytes).Some?
    ensures var h := HeaderFor(key, stored, now, policy);
            var file := Regular(Print(h, v), modified);
            var (answer, effect) := Read(Some(file), key, reader, limits, t, decode);
            && now == h.storedAt <= h.freshUntil <= h.staleUntil <= U64_MAX
            && (answer.Fresh? <==> stored == reader && t <= Min(now + policy.fresh_, U64_MAX))
            && (answer.Stale? <==>
                  && stored <= reader && t <= Min(now + policy.fresh_ + policy.staleIfError, U64_MAX)
                  && !(stored == reader && t <= Min(now + policy.fresh_, U64_MAX)))
            && (!answer.Miss? ==>
                  && Some(answer.hit.value) == decode(file.bytes) && answer.hit.storedAt == now
                  && answer.hit.age == (if t < now then 0 else t - now) && answer.hit.source == policy.source)
            && (reader < stored ==> AfterRead(Some(file), effect, true, t) == Some(file))
  {
    var h := HeaderFor(key, stored, now, policy);
    StoredHeadersAreConsistent(key, stored, now, policy);
    ScanEqualsFullParse(h, v);
    var file := Regular(Print(h, v), modified);
    GoodHeaderAnswers(file, h, key, reader, limits, t, decode);
    if !Read(Some(file), key, reader, limits, t, decode).0.Miss? {
      ServedIsWhatIsStored(Some(file), key, reader, limits, t, decode);
    }
  }

  // ---- Any file ----

  /** Exactly which files are served: those that are regular, within the limit and parse, of a schema
      no newer than the reader's, with this layout, ordered horizons and this very key, not past their
      stale horizon, whose value decodes. */
  lemma ServedExactly<V>(
      file: Option<File>, key: Key, reader: nat, limits: Limits, t: nat, decode: Bytes -> Option<V>)
    ensures !Read(file, key, reader, limits, t, decode).0.Miss?
       <==> && file.Some? && file.value.Regular? && |file.value.bytes| <= limits.maxEntryBytes
            && FullHeader(file.value.bytes).Some?
            && (var h := FullHeader(file.value.bytes).value;
                && h.schema <= reader && h.format == 1 && h.storedAt <= h.freshUntil <= h.staleUntil
                && h.digest == key.digest && h.namespace == key.namespace && t <= h.staleUntil)
            && decode(file.value.bytes).Some?
  {
  }

  /** What is served, for any file: the decoded value, when it was stored, how long ago, and where its
      horizons came from; Fresh exactly to its own schema within its fresh horizon. */
  lemma ServedIsWhatIsStored<V>(
      file: Option<File>, key: Key, reader: nat, limits: Limits, t: nat, decode: Bytes -> Option<V>)
    requires !Read(file, key, reader, limits, t, decode).0.Miss?
    ensures var answer, h := Read(file, key, reader, limits, t, decode).0, FullHeader(file.value.bytes).value;
            && decode(file.value.bytes) == Some(answer.hit.value)
            && answer.hit.storedAt == h.storedAt && answer.hit.source == h.source
            && answer.hit.age == (if t < h.storedAt then 0 else t - h.storedAt)
            && (answer.Fresh? <==> h.schema == reader && t <= h.freshUntil)
  {
  }

  /** What a read leaves. A hit keeps the bytes, and records this use if the last one on record is
      longer ago than the touch interval. A locked miss removes the file, unless it is a newer
      schema's; an unlocked one removes nothing. */
  lemma ReadLeaves<V>(file: Option<File>, key: Key, v: Visit, limits: Limits, decode: Bytes -> Option<V>)
    ensures var answer := Read(file, key, v.schema, limits, v.now, decode).0;
            var after := After(file, key, limits, v, decode);
            if answer.Miss? then
              after == if v.locked && !Newer(file, v.schema, limits) then None else file
            else
              && file.Some? && file.value.Regular?
              && after == Some(Regular(
                   file.value.bytes,
                   if v.now > file.value.modified + limits.touchAfter then v.now else file.value.modified))
  {
  }

  /** The file is within the limit and parses as of a newer schema. */
  predicate Newer(file: Option<File>, schema: nat, limits: Limits) {
    && file.Some? && file.value.Regular? && |file.value.bytes| <= limits.maxEntryBytes
    && FullHeader(file.value.bytes).Some? && FullHeader(file.value.bytes).value.schema > schema
  }

  // ---- Schemas ----

  /** The schema of a file that a read within the limit parses, if it does. */
  function SchemaOf(file: Option<File>, limits: Limits): Option<nat> {
    match Readable(file, limits.maxEntryBytes)
    case None => None
    case Some(bytes) => match FullHeader(bytes) case None => None case Some(h) => Some(h.schema)
  }

  /** A newer-schema reader never gets Fresh; an older-schema reader misses and leaves the file. */
  lemma SchemasApart<V>(file: Option<File>, key: Key, v: Visit, limits: Limits, decode: Bytes -> Option<V>)
    requires SchemaOf(file, limits).Some?
    ensures v.schema > SchemaOf(file, limits).value ==> !Read(file, key, v.schema, limits, v.now, decode).0.Fresh?
    ensures v.schema < SchemaOf(file, limits).value ==>
              && Read(file, key, v.schema, limits, v.now, decode).0.Miss?
              && After(file, key, limits, v, decode) == file
  {
  }

  /** A visit leaves the file's schema, or nothing. */
  lemma SchemaStays<V>(file: Option<File>, key: Key, v: Visit, limits: Limits, decode: Bytes -> Option<V>)
    ensures var next := After(file, key, limits, v, decode);
            next == None || SchemaOf(next, limits) == SchemaOf(file, limits)
  {
  }

  /** The visits by readers of at least this schema. */
  function NotOlder(visits: seq<Visit>, schema: nat): seq<Visit> {
    if visits == [] then []
    else if visits[0].schema < schema then NotOlder(visits[1..], schema)
    else [visits[0]] + NotOlder(visits[1..], schema)
  }

  /** The answers that those visits got. */
  function AnswersOf<V>(visits: seq<Visit>, answers: seq<Answer<V>>, schema: nat): seq<Answer<V>>
    requires |visits| == |answers|
  {
    if visits == [] then []
    else if visits[0].schema < schema then AnswersOf(visits[1..], answers[1..], schema)
    else [answers[0]] + AnswersOf(visits[1..], answers[1..], schema)
  }

  /** Once the file is gone, everybody misses. */
  lemma {:induction false} GoneMisses<V>(
      key: Key, limits: Limits, visits: seq<Visit>, schema: nat, decode: Bytes -> Option<V>)
    ensures |Visits(None, key, limits, visits, decode)| == |visits|
    ensures forall k :: 0 <= k < |visits| ==> Visits(None, key, limits, visits, decode)[k] == Miss
    ensures |Visits(None, key, limits, NotOlder(visits, schema), decode)| == |NotOlder(visits, schema)|
    ensures AnswersOf(visits, Visits(None, key, limits, visits, decode), schema)
         == Visits(None, key, limits, NotOlder(visits, schema), decode)
    decreases |visits|
  {
    if visits != [] {
      GoneMisses(key, limits, visits[1..], schema, decode);
      VisitsCons(None, key, limits, visits, schema, decode);
    }
  }

  lemma VisitsCons<V>(
      file: Option<File>, key: Key, limits: Limits, visits: seq<Visit>, schema: nat, decode: Bytes -> Option<V>)
    requires visits != []
    ensures var v, rest := visits[0], visits[1..];
            var next := After(file, key, limits, v, decode);
            && Visits(file, key, limits, visits, decode)[1..] == Visits(next, key, limits, rest, decode)
            && Visits(file, key, limits, visits, decode)[0] == Read(file, key, v.schema, limits, v.now, decode).0
            && (v.schema >= schema ==>
                  Visits(file, key, limits, NotOlder(visits, schema), decode)
                  == [Read(file, key, v.schema, limits, v.now, decode).0]
                     + Visits(next, key, limits, NotOlder(rest, schema), decode))
  {
    var kept := NotOlder(visits, schema);
    if visits[0].schema >= schema {
      assert kept[0] == visits[0] && kept[1..] == NotOlder(visits[1..], schema);
    }
  }

  /** One visit: older readers miss and leave the file, newer ones never get Fresh. */
  lemma OneVisit<V>(file: Option<File>, key: Key, limits: Limits, v: Visit, schema: nat, decode: Bytes -> Option<V>)
    requires SchemaOf(file, limits) == Some(schema)
    ensures var answer, next := Read(file, key, v.schema, limits, v.now, decode).0, After(file, key, limits, v, decode);
            && (v.schema < schema ==> answer.Miss? && next == file)
            && (v.schema > schema ==> !answer.Fresh?)
            && (next == None || SchemaOf(next, limits) == Some(schema))
  {
    SchemasApart(file, key, v, limits, decode);
    SchemaStays(file, key, v, limits, decode);
  }

  /** Caches of different schemas can share a root. Over every run of reads of one file, by readers
      of any schemas, locked or not: those older than the file's schema all miss, the others get the
      answers they would have got had no older one read, and none newer gets Fresh. */
  lemma {:induction false} OlderReadersAreInvisible<V>(
      file: Option<File>, key: Key, limits: Limits, visits: seq<Visit>, schema: nat, decode: Bytes -> Option<V>)
    requires SchemaOf(file, limits) == Some(schema)
    ensures var answers := Visits(file, key, limits, visits, decode);
            && |answers| == |visits|
            && AnswersOf(visits, answers, schema) == Visits(file, key, limits, NotOlder(visits, schema), decode)
            && forall k :: 0 <= k < |visits| ==>
                 && (visits[k].schema < schema ==> answers[k].Miss?)
                 && (visits[k].schema > schema ==> !answers[k].Fresh?)
    decreases |visits|
  {
    if visits != [] {
      var next := After(file, key, limits, visits[0], decode);
      OneVisit(file, key, limits, visits[0], schema, decode);
      VisitsCons(file, key, limits, visits, schema, decode);
      if next == None {
        GoneMisses(key, limits, visits[1..], schema, decode);
      } else {
        OlderReadersAreInvisible(next, key, limits, visits[1..], schema, decode);
      }
    }
  }
}
