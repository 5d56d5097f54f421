/** Reassembling frames from a byte stream with a bounded buffer (`FrameReader`). */
module FrameStream {
  import opened Basics
  import opened Protocol

  /** What greedy decoding of a byte string yields: the frames, what is left, and whether what is left
      can never become a frame. */
  datatype Parsed = Parsed(frames: seq<Frame>, rest: seq<byte>, bad: bool)

  function Parse(data: seq<byte>): (r: Parsed)
    decreases |data|
  {
    if data == [] then Parsed([], [], false)
    else match DecodeFrame(data)
      case Incomplete => Parsed([], data, false)
      case Malformed => Parsed([], data, true)
      case Got(frame, n) =>
        var rest := Parse(data[n..]);
        Parsed([frame] + rest.frames, rest.rest, rest.bad)
  }

  function Chained(first: Parsed, later: Parsed): Parsed {
    Parsed(first.frames + later.frames, later.rest, later.bad)
  }

  lemma ParseGot(a: seq<byte>, b: seq<byte>)
    requires DecodeFrame(a).Got?
    ensures DecodeFrame(a + b) == DecodeFrame(a)
    ensures (a + b)[DecodeFrame(a).consumed..] == a[DecodeFrame(a).consumed..] + b
  {
    DecodeStable(a, b);
  }

  /** Parsing can stop anywhere and go on from what was left. */
  lemma {:induction false} ParseAppend(a: seq<byte>, b: seq<byte>)
    ensures !Parse(a).bad ==> Parse(a + b) == Chained(Parse(a), Parse(Parse(a).rest + b))
    ensures Parse(a).bad ==> Parse(a + b) == Parsed(Parse(a).frames, Parse(a).rest + b, true)
    decreases |a|
  {
    if a == [] {
      assert a + b == b;
    } else if DecodeFrame(a).Incomplete? {
    } else if DecodeFrame(a).Malformed? {
      DecodeStable(a, b);
    } else {
      ParseGot(a, b);
      var n := DecodeFrame(a).consumed;
      ParseAppend(a[n..], b);
      var f, p, q := [DecodeFrame(a).frame], Parse(a[n..]), Parse(Parse(a[n..]).rest + b);
      assert f + (p.frames + q.frames) == f + p.frames + q.frames;
    }
  }

  lemma {:induction false} LeftoverIsShort(data: seq<byte>)
    requires !Parse(data).bad
    ensures |Parse(data).rest| <= 2055
    decreases |data|
  {
    if data != [] {
      match DecodeFrame(data)
      case Incomplete => IncompleteIsShort(data);
      case Malformed =>
      case Got(_, n) => LeftoverIsShort(data[n..]);
    }
  }

  function WireAll(frames: seq<Frame>): seq<byte> {
    if frames == [] then [] else Wire(frames[0]) + WireAll(frames[1..])
  }

  /** Decoding the concatenated encodings of any list of frames with payloads of at most 2045 bytes
      gives back exactly that list, and leaves nothing. */
  lemma {:induction false} StreamRoundTrip(frames: seq<Frame>)
    requires forall i :: 0 <= i < |frames| ==> |frames[i].payload| <= 2045
    ensures Parse(WireAll(frames)) == Parsed(frames, [], false)
  {
    if frames != [] {
      var tail := WireAll(frames[1..]);
      FrameRoundTripIff(frames[0], tail);
      StreamRoundTrip(frames[1..]);
      assert (Wire(frames[0]) + tail)[|Wire(frames[0])|..] == tail;
    }
  }

  // -- the reader

  const MAX_BUFFER := MAX_PAYLOAD_BYTES * 4

  datatype Fed = Frames(frames: seq<Frame>) | Overflow | BadFrame

  /** `feed`: what it answers and what stays buffered. On overflow the buffer is dropped; on a bad frame
      the frames decoded earlier in the same call are lost and the bad head stays. */
  function Feed(buffer: seq<byte>, chunk: seq<byte>): (Fed, seq<byte>) {
    if |buffer + chunk| > MAX_BUFFER then (Overflow, [])
    else
      var p := Parse(buffer + chunk);
      (if p.bad then BadFrame else Frames(p.frames), p.rest)
  }

  class FrameReader {
    var buffer: seq<byte>

    constructor ()
      ensures buffer == []
    {
      buffer := [];
    }

    method FeedChunk(chunk: seq<byte>) returns (r: Fed)
      modifies this
      ensures (r, buffer) == Feed(old(buffer), chunk)
    {
      buffer := buffer + chunk;
      if |buffer| > MAX_BUFFER {
        buffer := [];
        return Overflow;
      }
      ghost var whole := buffer;
      var frames := [];
      while buffer != []
        invariant Parse(whole) == Chained(Parsed(frames, buffer, false), Parse(buffer))
        decreases |buffer|
      {
        var decoded := DecodeFrame(buffer);
        if decoded.Incomplete? {
          break;
        }
        if decoded.Malformed? {
          assert Parse(whole) == Parsed(frames + [], buffer, true);
          return BadFrame;
        }
        ghost var rest := Parse(buffer[decoded.consumed..]);
        assert frames + ([decoded.frame] + rest.frames) == frames + [decoded.frame] + rest.frames;
        buffer := buffer[decoded.consumed..];
        frames := frames + [decoded.frame];
      }
      assert Parse(whole) == Parsed(frames + [], buffer, false) && frames + [] == frames;
      r := Frames(frames);
    }
  }

  // -- many chunks

  function Concat(chunks: seq<seq<byte>>): seq<byte> {
    if chunks == [] then [] else chunks[0] + Concat(chunks[1..])
  }

  /** Feeding chunk after chunk until one is refused: the frames handed out, the verdict, the buffer. */
  datatype Session = Session(frames: seq<Frame>, refused: Option<Fed>, buffer: seq<byte>, fed: nat)

  function FeedAll(buffer: seq<byte>, chunks: seq<seq<byte>>): Session
    decreases |chunks|
  {
    if chunks == [] then Session([], None, buffer, 0)
    else
      var (answer, left) := Feed(buffer, chunks[0]);
      if !answer.Frames? then Session([], Some(answer), left, 0)
      else
        var later := FeedAll(left, chunks[1..]);
        Session(answer.frames + later.frames, later.refused, later.buffer, later.fed + 1)
  }

  lemma SmallChunk(buffer: seq<byte>, chunk: seq<byte>)
    requires Parse(buffer) == Parsed([], buffer, false) && |chunk| <= 6137
    ensures !Feed(buffer, chunk).0.Overflow?
  {
    LeftoverIsShort(buffer);
  }

  lemma {:induction false} LeftoverIsStuck(data: seq<byte>)
    requires !Parse(data).bad
    ensures Parse(Parse(data).rest) == Parsed([], Parse(data).rest, false)
    decreases |data|
  {
    if data != [] && DecodeFrame(data).Got? { LeftoverIsStuck(data[DecodeFrame(data).consumed..]); }
  }

  /** Chunk independence: for a byte stream without a framing error, however it is cut into chunks of at
      most 6137 bytes, the frames handed out call by call are those of the whole, nothing is refused, and
      the same bytes are left. */
  lemma {:induction false} ChunkIndependence(buffer: seq<byte>, chunks: seq<seq<byte>>)
    requires Parse(buffer) == Parsed([], buffer, false)
    requires forall i :: 0 <= i < |chunks| ==> |chunks[i]| <= 6137
    requires !Parse(buffer + Concat(chunks)).bad
    ensures var p := Parse(buffer + Concat(chunks));
            FeedAll(buffer, chunks) == Session(p.frames, None, p.rest, |chunks|)
    decreases |chunks|
  {
    if chunks == [] {
      assert buffer + [] == buffer;
    } else {
      var head, tail := buffer + chunks[0], Concat(chunks[1..]);
      assert buffer + Concat(chunks) == head + tail;
      ParseAppend(head, tail);
      LeftoverIsStuck(head);
      SmallChunk(buffer, chunks[0]);
      ChunkIndependence(Parse(head).rest, chunks[1..]);
    }
  }

  /** What the first `n` chunks amount to. */
  function ParsedAfter(buffer: seq<byte>, chunks: seq<seq<byte>>, n: nat): Parsed
    requires n <= |chunks|
  {
    Parse(buffer + Concat(chunks[..n]))
  }

  /** The session stopped at the chunk that completed a framing error. */
  ghost predicate StoppedAtError(buffer: seq<byte>, chunks: seq<seq<byte>>, s: Session) {
    && s.refused == Some(BadFrame) && s.fed < |chunks|
    && var before, at := ParsedAfter(buffer, chunks, s.fed), ParsedAfter(buffer, chunks, s.fed + 1);
       !before.bad && at.bad && s.frames == before.frames && s.buffer == at.rest
  }

  /** With a framing error somewhere, the session stops at the first chunk that completes it: the frames of
      all earlier chunks have been handed out, those decoded in the failing call are lost. */
  lemma {:induction false} FirstErrorStops(buffer: seq<byte>, chunks: seq<seq<byte>>)
    requires Parse(buffer) == Parsed([], buffer, false)
    requires forall i :: 0 <= i < |chunks| ==> |chunks[i]| <= 6137
    requires Parse(buffer + Concat(chunks)).bad
    ensures StoppedAtError(buffer, chunks, FeedAll(buffer, chunks))
    decreases |chunks|, 1
  {
    assert buffer + [] == buffer;
    SmallChunk(buffer, chunks[0]);
    if Parse(buffer + chunks[0]).bad {
      ErrorNow(buffer, chunks);
    } else {
      ErrorInTail(buffer, chunks, Parse(buffer + chunks[0]));
    }
  }

  lemma {:induction false} ErrorInTail(buffer: seq<byte>, chunks: seq<seq<byte>>, first: Parsed)
    requires chunks != [] && first == Parse(buffer + chunks[0]) && !first.bad
    requires Feed(buffer, chunks[0]) == (Frames(first.frames), first.rest)
    requires forall i :: 0 <= i < |chunks| ==> |chunks[i]| <= 6137
    requires Parse(buffer + Concat(chunks)).bad
    ensures StoppedAtError(buffer, chunks, FeedAll(buffer, chunks))
    decreases |chunks|, 0
  {
    var tail := Concat(chunks[1..]);
    assert buffer + Concat(chunks) == buffer + chunks[0] + tail;
    GoesOn(buffer + chunks[0], tail);
    FirstErrorStops(first.rest, chunks[1..]);
    var later := FeedAll(first.rest, chunks[1..]);
    ErrorLater(buffer, chunks, later);
  }

  lemma GoesOn(head: seq<byte>, tail: seq<byte>)
    requires !Parse(head).bad
    ensures Parse(Parse(head).rest) == Parsed([], Parse(head).rest, false)
    ensures Parse(Parse(head).rest + tail).bad == Parse(head + tail).bad
  {
    LeftoverIsStuck(head);
    ParseAppend(head, tail);
  }

  lemma ErrorNow(buffer: seq<byte>, chunks: seq<seq<byte>>)
    requires chunks != [] && Parse(buffer) == Parsed([], buffer, false) && Parse(buffer + chunks[0]).bad
    requires !Feed(buffer, chunks[0]).0.Overflow?
    ensures StoppedAtError(buffer, chunks, FeedAll(buffer, chunks))
  {
    assert chunks[..0] == [] && buffer + Concat([]) == buffer;
    assert chunks[..1] == [chunks[0]] && Concat([chunks[0]]) == chunks[0] + Concat([]);
    assert buffer + Concat(chunks[..1]) == buffer + chunks[0];
  }

  lemma ErrorLater(buffer: seq<byte>, chunks: seq<seq<byte>>, later: Session)
    requires chunks != [] && !Parse(buffer + chunks[0]).bad
    requires StoppedAtError(Parse(buffer + chunks[0]).rest, chunks[1..], later)
    ensures var first := Parse(buffer + chunks[0]).frames;
            StoppedAtError(buffer, chunks, Session(first + later.frames, later.refused, later.buffer, later.fed + 1))
  {
    PrefixStep(buffer, chunks, later.fed);
    PrefixStep(buffer, chunks, later.fed + 1);
  }

  lemma PrefixStep(buffer: seq<byte>, chunks: seq<seq<byte>>, n: nat)
    requires n < |chunks| && !Parse(buffer + chunks[0]).bad
    ensures ParsedAfter(buffer, chunks, n + 1)
            == Chained(Parse(buffer + chunks[0]), ParsedAfter(Parse(buffer + chunks[0]).rest, chunks[1..], n))
  {
    assert chunks[..n + 1][1..] == chunks[1..][..n];
    var head := buffer + chunks[0];
    assert buffer + Concat(chunks[..n + 1]) == head + Concat(chunks[1..][..n]);
    ParseAppend(head, Concat(chunks[1..][..n]));
  }

  lemma {:induction false} BadRestIsBad(data: seq<byte>)
    requires Parse(data).bad
    ensures Parse(Parse(data).rest) == Parsed([], Parse(data).rest, true)
    decreases |data|
  {
    if DecodeFrame(data).Got? { BadRestIsBad(data[DecodeFrame(data).consumed..]); }
  }

  /** The bad head stays buffered: once a call was refused for a framing error every later call is refused
      too, until the buffer overflows and is dropped. */
  lemma ErrorSticks(buffer: seq<byte>, chunk: seq<byte>, more: seq<byte>)
    requires Feed(buffer, chunk).0.BadFrame?
    ensures var left := Feed(buffer, chunk).1;
            Feed(left, more) == if |left + more| > MAX_BUFFER then (Overflow, []) else (BadFrame, left + more)
  {
    BadRestIsBad(buffer + chunk);
    ParseAppend(Feed(buffer, chunk).1, more);
  }

  /** The client reads 4096 bytes at a time, so the overflow branch is never taken: after every
      accepted chunk at most 2055 bytes are pending. */
  lemma {:induction false} NeverOverflows(chunks: seq<seq<byte>>)
    requires forall i :: 0 <= i < |chunks| ==> |chunks[i]| <= 4096
    ensures FeedAll([], chunks).refused != Some(Overflow)
    ensures FeedAll([], chunks).refused == None ==> |FeedAll([], chunks).buffer| <= 2055
  {
    assert [] + Concat(chunks) == Concat(chunks);
    if Parse(Concat(chunks)).bad {
      FirstErrorStops([], chunks);
    } else {
      ChunkIndependence([], chunks);
      LeftoverIsShort(Concat(chunks));
    }
  }
}
