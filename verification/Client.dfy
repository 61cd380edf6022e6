/** The blocking client's frame writer and reader, over a socket that splits and interrupts as it
    pleases until the deadline. */
module Client {
  import opened Common

  const CHUNK: nat := 8192

  datatype Error = Timeout | FrameTooLarge | Closed | InvalidFrame | Io(kind: string)

  datatype Result<+T> = Ok(value: T) | Err(error: Error)

  // ---- Reading ----

  /** What one read of the socket gives; nothing more comes after the last event, because the
      deadline has passed. */
  datatype ReadEvent = Interrupted | Chunk(bytes: Bytes) | Eof | ReadFailed(error: Error)

  predicate ReadsOk(events: seq<ReadEvent>) {
    forall e :: e in events && e.Chunk? ==> 0 < |e.bytes| <= CHUNK
  }

  /** The bytes the socket delivers before its end. */
  function Stream(events: seq<ReadEvent>): Bytes {
    if events == [] then ""
    else match events[0]
      case Interrupted => Stream(events[1..])
      case Chunk(b) => b + Stream(events[1..])
      case _ => ""
  }

  /** How the socket ends: its first event that is neither bytes nor an interruption. */
  function End(events: seq<ReadEvent>): ReadEvent {
    if events == [] then ReadFailed(Timeout)
    else if events[0].Interrupted? || events[0].Chunk? then End(events[1..])
    else events[0]
  }

  /** The position of the first newline, or the length when there is none. */
  function Newline(s: Bytes): (p: nat)
    ensures p <= |s| && (p < |s| ==> s[p] == '\n') && forall k :: 0 <= k < p ==> s[k] != '\n'
  {
    if s == "" then 0 else if s[0] == '\n' then 0 else 1 + Newline(s[1..])
  }

  /** The frame of a whole stream: up to the first newline if that is below the cap. */
  function Framed(stream: Bytes, end: ReadEvent, max: nat): Result<Bytes> {
    var p := Newline(stream);
    if p < |stream| && p < max then Ok(stream[..p])
    else if stream != "" && max <= |stream| then Err(FrameTooLarge)
    else match end
      case Eof => Err(if stream == "" then Closed else InvalidFrame)
      case ReadFailed(e) => Err(e)
      case _ => Err(Timeout)
  }

  lemma NewlineIs(s: Bytes, p: nat)
    requires p <= |s| && (p < |s| ==> s[p] == '\n') && forall k :: 0 <= k < p ==> s[k] != '\n'
    ensures Newline(s) == p
  {
  }

  lemma NewlineAppend(a: Bytes, b: Bytes)
    ensures Newline(a + b) == if Newline(a) < |a| then Newline(a) else |a| + Newline(b)
  {
    NewlineIs(a + b, if Newline(a) < |a| then Newline(a) else |a| + Newline(b));
  }

  /** What has been read settles the frame once it holds a newline or reaches the cap. */
  lemma Settled(seen: Bytes, rest: Bytes, end: ReadEvent, max: nat)
    requires seen != "" && (Newline(seen) < |seen| || max <= |seen|)
    ensures Framed(seen + rest, end, max)
         == if Newline(seen) < |seen| && Newline(seen) < max then Ok(seen[..Newline(seen)]) else Err(FrameTooLarge)
  {
    NewlineAppend(seen, rest);
    if Newline(seen) < |seen| {
      assert (seen + rest)[..Newline(seen)] == seen[..Newline(seen)];
    }
  }

  /** No newline yet, and still below the cap. */
  predicate Unsettled(seen: Bytes, max: nat) {
    Newline(seen) == |seen| && (seen == "" || |seen| < max)
  }

  lemma ChunkSettles(seen: Bytes, chunk: Bytes, rest: Bytes, end: ReadEvent, max: nat)
    requires Unsettled(seen, max) && chunk != ""
    ensures var all, newline := seen + chunk, |seen| + Newline(chunk);
            if Newline(chunk) < |chunk|
            then Framed(all + rest, end, max) == if newline < max then Ok(all[..newline]) else Err(FrameTooLarge)
            else if max <= |all| then Framed(all + rest, end, max) == Err(FrameTooLarge)
            else Unsettled(all, max)
  {
    NewlineAppend(seen, chunk);
    if Newline(chunk) < |chunk| || max <= |seen + chunk| {
      Settled(seen + chunk, rest, end, max);
    }
  }

  /** The socket ended first. */
  lemma EndSettles(seen: Bytes, end: ReadEvent, max: nat)
    requires Unsettled(seen, max)
    ensures Framed(seen, end, max)
         == match end
            case Eof => Err(if seen == "" then Closed else InvalidFrame)
            case ReadFailed(e) => Err(e)
            case _ => Err(Timeout)
  {
  }

  /** The result of framing what was read and what is still to come. */
  function Pending(seen: Bytes, events: seq<ReadEvent>, max: nat): Result<Bytes> {
    Framed(seen + Stream(events), End(events), max)
  }

  lemma PendingChunk(seen: Bytes, events: seq<ReadEvent>, max: nat)
    requires events != [] && events[0].Chunk?
    ensures Pending(seen, events, max) == Pending(seen + events[0].bytes, events[1..], max)
  {
    var b, s := events[0].bytes, Stream(events[1..]);
    assert Stream(events) == b + s;
    assert seen + (b + s) == (seen + b) + s;
  }

  lemma PendingEnd(seen: Bytes, events: seq<ReadEvent>, max: nat)
    requires events == [] || events[0].Eof? || events[0].ReadFailed?
    ensures Pending(seen, events, max) == Framed(seen, if events == [] then ReadFailed(Timeout) else events[0], max)
  {
    assert seen + "" == seen;
  }

  /** Reads up to the first newline, searching only the new bytes of each read. The result is that
      of framing the whole stream, however it was split; `peak` is the longest the buffer got. */
  method ReadFrame(events: seq<ReadEvent>, max: nat) returns (r: Result<Bytes>, ghost peak: nat)
    requires ReadsOk(events)
    ensures r == Framed(Stream(events), End(events), max)
    ensures peak < (if max == 0 then 1 else max) + CHUNK
  {
    var frame: Bytes := "";
    var rest := events;
    peak := 0;
    assert "" + Stream(events) == Stream(events);
    while rest != []
      invariant ReadsOk(rest)
      invariant Unsettled(frame, max)
      invariant Framed(Stream(events), End(events), max) == Pending(frame, rest, max)
      invariant peak < (if max == 0 then 1 else max) + CHUNK
      decreases |rest|
    {
      var event := rest[0];
      match event {
        case Interrupted =>
        case Eof =>
          PendingEnd(frame, rest, max);
          EndSettles(frame, event, max);
          return Err(if frame == "" then Closed else InvalidFrame), peak;
        case ReadFailed(error) =>
          PendingEnd(frame, rest, max);
          EndSettles(frame, event, max);
          return Err(error), peak;
        case Chunk(chunk) =>
          PendingChunk(frame, rest, max);
          var start := |frame|;
          assert chunk != "";
          ChunkSettles(frame, chunk, Stream(rest[1..]), End(rest[1..]), max);
          frame := frame + chunk;
          peak := if |frame| > peak then |frame| else peak;
          var offset := Newline(chunk);
          if offset < |chunk| {
            var newline := start + offset;
            if newline >= max {
              return Err(FrameTooLarge), peak;
            }
            return Ok(frame[..newline]), peak;
          }
          if |frame| >= max {
            return Err(FrameTooLarge), peak;
          }
      }
      rest := rest[1..];
    }
    PendingEnd(frame, rest, max);
    EndSettles(frame, ReadFailed(Timeout), max);
    return Err(Timeout), peak;
  }

  /** The bytes of these reads, interruptions left out. */
  function Gathered(events: seq<ReadEvent>): Bytes {
    if events == [] then "" else (if events[0].Chunk? then events[0].bytes else "") + Gathered(events[1..])
  }

  /** An interruption is tried again: the stream is all bytes up to the first end or error, which is
      how it ends; without one it ends at the deadline. */
  lemma {:induction false} InterruptedReadsGoOn(some: seq<ReadEvent>, stop: Option<ReadEvent>, rest: seq<ReadEvent>)
    requires forall e :: e in some ==> e.Interrupted? || e.Chunk?
    requires stop.Some? ==> stop.value.Eof? || stop.value.ReadFailed?
    ensures var events := if stop.Some? then some + [stop.value] + rest else some;
            && Stream(events) == Gathered(some)
            && End(events) == if stop.Some? then stop.value else ReadFailed(Timeout)
  {
    if some != [] {
      InterruptedReadsGoOn(some[1..], stop, rest);
      assert some[0] in some;
      if stop.Some? { assert (some + [stop.value] + rest)[1..] == some[1..] + [stop.value] + rest; }
    } else if stop.Some? {
      assert [] + [stop.value] + rest == [stop.value] + rest;
    }
  }

  /** What a frame is, in bytes: the text before a newline that lies below the cap; with no newline
      below a cap that the stream reaches, too large; and otherwise whatever ended the stream. */
  lemma FramedPlainly(stream: Bytes, end: ReadEvent, max: nat)
    requires end.Eof? || end.ReadFailed?
    ensures var r := Framed(stream, end, max);
            && (forall p :: 0 <= p < |stream| && p < max && stream[p] == '\n' && '\n' !in stream[..p] ==>
                  r == Ok(stream[..p]))
            && ((forall p :: 0 <= p < |stream| && p < max ==> stream[p] != '\n') ==>
                  r == if stream != "" && max <= |stream| then Err(FrameTooLarge)
                       else if end.ReadFailed? then Err(end.error)
                       else Err(if stream == "" then Closed else InvalidFrame))
  {
    forall p | 0 <= p < |stream| && stream[p] == '\n' && '\n' !in stream[..p] ensures Newline(stream) == p {
      forall k | 0 <= k < p ensures stream[k] != '\n' { assert stream[k] == stream[..p][k]; }
      NewlineIs(stream, p);
    }
  }

  // ---- Writing ----

  /** What one write gives: how many bytes the socket would take, an interruption, or an error. */
  datatype WriteEvent = WriteInterrupted | Takes(count: nat) | WriteFailed(error: Error)

  /** The bytes the socket is willing to take before the first failure, zero write or the deadline. */
  function Willing(events: seq<WriteEvent>): nat {
    if events == [] then 0
    else match events[0]
      case WriteInterrupted => Willing(events[1..])
      case Takes(n) => if n == 0 then 0 else n + Willing(events[1..])
      case WriteFailed(_) => 0
  }

  /** Why a write that ran out of willing events failed. */
  function WriteEnd(events: seq<WriteEvent>): Error {
    if events == [] then Timeout
    else match events[0]
      case WriteInterrupted => WriteEnd(events[1..])
      case Takes(n) => if n == 0 then Closed else WriteEnd(events[1..])
      case WriteFailed(e) => e
  }

  /** Sends the frame. `sent` is what reached the socket: always the front of the frame, and all of
      it exactly when the socket was willing to take that much before the deadline. */
  method WriteFrame(frame: Bytes, events: seq<WriteEvent>) returns (r: Result<()>, sent: Bytes)
    ensures sent == frame[..Min(Willing(events), |frame|)]
    ensures r == if Willing(events) >= |frame| then Ok(()) else Err(WriteEnd(events))
  {
    var rest, left := frame, events;
    r, sent := Ok(()), "";
    while rest != ""
      invariant frame == sent + rest && r == Ok(())
      invariant Willing(events) == |sent| + Willing(left) || (rest == "" && Willing(events) >= |frame|)
      invariant rest != "" ==> WriteEnd(events) == WriteEnd(left)
      decreases |left|
    {
      if left == [] {
        return Err(Timeout), sent;
      }
      var event := left[0];
      left := left[1..];
      match event
      case WriteInterrupted =>
      case WriteFailed(error) =>
        return Err(error), sent;
      case Takes(n) =>
        var written := Min(n, |rest|);
        if written == 0 {
          return Err(Closed), sent;
        }
        sent, rest := sent + rest[..written], rest[written..];
    }
  }

  function Amount(events: seq<WriteEvent>): nat {
    if events == [] then 0 else (if events[0].Takes? then events[0].count else 0) + Amount(events[1..])
  }

  /** An interruption is tried again: the socket takes all it is willing to up to the first error or
      zero write, which is why the write then fails; without one it fails at the deadline. */
  lemma {:induction false} InterruptedWritesGoOn(some: seq<WriteEvent>, stop: Option<WriteEvent>, rest: seq<WriteEvent>)
    requires forall e :: e in some ==> e.WriteInterrupted? || (e.Takes? && e.count > 0)
    requires stop.Some? ==> stop.value.WriteFailed? || stop.value == Takes(0)
    ensures var events := if stop.Some? then some + [stop.value] + rest else some;
            && Willing(events) == Amount(some)
            && WriteEnd(events) == if stop.None? then Timeout
                                   else if stop.value.WriteFailed? then stop.value.error else Closed
  {
    if some != [] {
      InterruptedWritesGoOn(some[1..], stop, rest);
      assert some[0] in some;
      if stop.Some? { assert (some + [stop.value] + rest)[1..] == some[1..] + [stop.value] + rest; }
    } else if stop.Some? {
      assert [] + [stop.value] + rest == [stop.value] + rest;
    }
  }
}
