// The two-part wire frame, shared by Session.cpp, TcpTransport.cpp and Frame.kt:
// [4-byte big-endian body length][4-byte little-endian type][payload].

module Framing {
  import opened Bytes

  const MAX_PACK_LEN: nat := 10 * 1024 * 1024

  datatype Frame = Frame(kind: nat, payload: bytes)

  datatype Read<T> = Got(item: T, rest: bytes) | Incomplete | Illegal

  /** A body behind its length; the cast to 32 bits is the source's. */
  function EncodeBody(body: bytes): (r: bytes)
    ensures |r| == 4 + |body|
  {
    BigEndian32(|body|) + body
  }

  function Body(f: Frame): bytes { LittleEndian32(f.kind) + f.payload }

  function Encode(f: Frame): (r: bytes)
    ensures |r| == 8 + |f.payload|
  {
    EncodeBody(Body(f))
  }

  /** doReadHeader and doReadBody: `least` is 4 for Session and Frame.readFrom and 1 for
      TcpTransport. */
  function ReadBody(stream: bytes, least: nat): (r: Read<bytes>)
    ensures r.Got? ==> |r.rest| + |r.item| + 4 == |stream| && least <= |r.item| <= MAX_PACK_LEN
  {
    if |stream| < 4 then Incomplete
    else
      var len := ReadBigEndian32(stream);
      if len < least || len > MAX_PACK_LEN then Illegal
      else if |stream| < 4 + len then Incomplete
      else Got(stream[4..4 + len], stream[4 + len..])
  }

  function ReadFrame(stream: bytes): Read<Frame> {
    match ReadBody(stream, 4)
    case Got(body, rest) => Got(Frame(ReadLittleEndian32(body), body[4..]), rest)
    case Incomplete => Incomplete
    case Illegal => Illegal
  }

  datatype Reading<T> = Reading(items: seq<T>, rest: bytes, broken: bool)

  /** Reading until the stream is exhausted or malformed. */
  function ReadBodies(stream: bytes, least: nat): Reading<bytes>
    decreases |stream|
  {
    match ReadBody(stream, least)
    case Got(body, rest) =>
      var more := ReadBodies(rest, least);
      Reading([body] + more.items, more.rest, more.broken)
    case Incomplete => Reading([], stream, false)
    case Illegal => Reading([], stream, true)
  }

  function ReadFrames(stream: bytes): Reading<Frame>
    decreases |stream|
  {
    match ReadFrame(stream)
    case Got(f, rest) =>
      var more := ReadFrames(rest);
      Reading([f] + more.items, more.rest, more.broken)
    case Incomplete => Reading([], stream, false)
    case Illegal => Reading([], stream, true)
  }

  predicate Legal(body: bytes, least: nat) { least <= |body| <= MAX_PACK_LEN }

  function EncodeBodies(bodies: seq<bytes>): seq<bytes> {
    seq(|bodies|, i requires 0 <= i < |bodies| => EncodeBody(bodies[i]))
  }

  function EncodeFrames(frames: seq<Frame>): seq<bytes> {
    seq(|frames|, i requires 0 <= i < |frames| => Encode(frames[i]))
  }

  lemma ReadFramesStep(stream: bytes)
    ensures match ReadFrame(stream)
            case Got(f, rest) =>
              && |rest| < |stream| && |ReadFrames(stream).items| > 0
              && ReadFrames(stream).items[0] == f && ReadFrames(stream).items[1..] == ReadFrames(rest).items
              && ReadFrames(stream).rest == ReadFrames(rest).rest
              && ReadFrames(stream).broken == ReadFrames(rest).broken
            case Incomplete => ReadFrames(stream) == Reading([], stream, false)
            case Illegal => ReadFrames(stream) == Reading([], stream, true)
  {
  }

  /** A body is read back, with what follows it untouched, exactly when its length is legal. */
  lemma BodyRoundTrip(body: bytes, rest: bytes, least: nat)
    ensures ReadBody(EncodeBody(body) + rest, least) == Got(body, rest) <==> Legal(body, least)
  {
    hide BigEndian32, ReadBigEndian32, LittleEndian32, ReadLittleEndian32;
    var s := EncodeBody(body) + rest;
    BigEndian32RoundTrip(|body|);
    HeaderStays(BigEndian32(|body|), body + rest);
    assert s == BigEndian32(|body|) + (body + rest);
    if Legal(body, least) {
      assert s[4..4 + |body|] == body && s[4 + |body|..] == rest;
    }
  }

  /** The frame law with its exact condition: the peer recovers the frame if and only if
      type and payload together are within the 10 MB limit. */
  lemma FrameRoundTrip(f: Frame, rest: bytes)
    requires f.kind < TWO32
    ensures ReadFrame(Encode(f) + rest) == Got(f, rest) <==> 4 + |f.payload| <= MAX_PACK_LEN
  {
    hide BigEndian32, ReadBigEndian32, LittleEndian32, ReadLittleEndian32;
    BodyRoundTrip(Body(f), rest, 4);
    LittleEndian32RoundTrip(f.kind);
    KindStays(LittleEndian32(f.kind), f.payload);
    assert Body(f)[4..] == f.payload;
    var r := ReadBody(Encode(f) + rest, 4);
    if ReadFrame(Encode(f) + rest) == Got(f, rest) {
      assert r.rest == rest && |r.item| == |Body(f)|;
    }
  }

  /** Repeated reading recovers exactly the list of bodies, however long it is. */
  lemma {:induction false} BodyStream(bodies: seq<bytes>, least: nat)
    requires forall b :: b in bodies ==> Legal(b, least)
    requires least > 0
    ensures ReadBodies(Concat(EncodeBodies(bodies)), least) == Reading(bodies, [], false)
  {
    hide BigEndian32, ReadBigEndian32, LittleEndian32, ReadLittleEndian32;
    var parts := EncodeBodies(bodies);
    if |bodies| == 0 {
      assert Concat(parts) == [];
    } else {
      ConcatHead(parts);
      assert parts[1..] == EncodeBodies(bodies[1..]);
      BodyRoundTrip(bodies[0], Concat(parts[1..]), least);
      BodyStream(bodies[1..], least);
      assert bodies == [bodies[0]] + bodies[1..];
    }
  }

  lemma {:induction false} FrameStream(frames: seq<Frame>)
    requires forall f :: f in frames ==> f.kind < TWO32 && 4 + |f.payload| <= MAX_PACK_LEN
    ensures ReadFrames(Concat(EncodeFrames(frames))) == Reading(frames, [], false)
  {
    hide BigEndian32, ReadBigEndian32, LittleEndian32, ReadLittleEndian32;
    var parts := EncodeFrames(frames);
    if |frames| == 0 {
      assert Concat(parts) == [];
    } else {
      ConcatHead(parts);
      assert parts[1..] == EncodeFrames(frames[1..]);
      FrameRoundTrip(frames[0], Concat(parts[1..]));
      FrameStream(frames[1..]);
      assert frames == [frames[0]] + frames[1..];
    }
  }

  /** What has been read never changes when more bytes arrive: the frames read from any
      prefix of a stream are a prefix of the frames read from the stream. */
  lemma {:induction false} ReadingIsMonotone(stream: bytes, more: bytes)
    ensures ReadFrames(stream).items <= ReadFrames(stream + more).items
    decreases |stream|
  {
    hide BigEndian32, ReadBigEndian32, LittleEndian32, ReadLittleEndian32;
    match ReadFrame(stream)
    case Got(f, rest) =>
      FrameStays(stream, more);
      ReadingIsMonotone(rest, more);
    case Incomplete =>
    case Illegal =>
  }

  lemma FrameStays(stream: bytes, more: bytes)
    requires ReadFrame(stream).Got?
    ensures ReadFrame(stream + more) == Got(ReadFrame(stream).item, ReadFrame(stream).rest + more)
  {
    hide LittleEndian32, ReadLittleEndian32;
    var s := stream + more;
    var len := ReadBigEndian32(stream);
    HeaderStays(stream, more);
    assert s[4..4 + len] == stream[4..4 + len];
    assert s[4 + len..] == stream[4 + len..] + more;
  }

  lemma KindStays(body: bytes, more: bytes)
    requires |body| >= 4
    ensures ReadLittleEndian32(body + more) == ReadLittleEndian32(body)
  {
  }

  lemma HeaderStays(stream: bytes, more: bytes)
    requires |stream| >= 4
    ensures ReadBigEndian32(stream + more) == ReadBigEndian32(stream)
  {
  }

  /** A stream cut anywhere yields a prefix of the frames that were sent. */
  lemma CutStream(frames: seq<Frame>, n: nat)
    requires forall f :: f in frames ==> f.kind < TWO32 && 4 + |f.payload| <= MAX_PACK_LEN
    requires n <= |Concat(EncodeFrames(frames))|
    ensures ReadFrames(Concat(EncodeFrames(frames))[..n]).items <= frames
  {
    hide BigEndian32, ReadBigEndian32, LittleEndian32, ReadLittleEndian32;
    var s := Concat(EncodeFrames(frames));
    FrameStream(frames);
    ReadingIsMonotone(s[..n], s[n..]);
    assert s == s[..n] + s[n..];
  }

  lemma OversizedHeader(bad: Frame, rest: bytes)
    requires MAX_PACK_LEN < 4 + |bad.payload| < TWO32
    ensures ReadFrame(Encode(bad) + rest) == Illegal
  {
    hide BigEndian32, ReadBigEndian32;
    var body := Body(bad);
    BigEndian32RoundTrip(|body|);
    HeaderStays(BigEndian32(|body|), body + rest);
    assert Encode(bad) + rest == BigEndian32(|body|) + (body + rest);
  }

  /** An oversized frame ends the reading: its predecessors are recovered, nothing after it is. */
  lemma {:induction false} OversizedFrameBreaks(frames: seq<Frame>, bad: Frame, rest: bytes)
    requires forall f :: f in frames ==> f.kind < TWO32 && 4 + |f.payload| <= MAX_PACK_LEN
    requires MAX_PACK_LEN < 4 + |bad.payload| < TWO32
    ensures var r := ReadFrames(Concat(EncodeFrames(frames)) + Encode(bad) + rest);
            r.items == frames && r.broken
  {
    hide ReadFrame, Encode;
    var parts := EncodeFrames(frames);
    var tail := Encode(bad) + rest;
    assert Concat(parts) + Encode(bad) + rest == Concat(parts) + tail;
    if |frames| == 0 {
      assert Concat(parts) + tail == tail;
      OversizedHeader(bad, rest);
    } else {
      ConcatHead(parts);
      assert parts[1..] == EncodeFrames(frames[1..]);
      var following := Concat(parts[1..]) + tail;
      assert Concat(parts) + tail == parts[0] + following;
      FrameRoundTrip(frames[0], following);
      OversizedFrameBreaks(frames[1..], bad, rest);
      assert following == Concat(parts[1..]) + Encode(bad) + rest;
      assert frames == [frames[0]] + frames[1..];
    }
  }
}

/** Frame.kt: the encoder fills an array, the reader consumes a stream. */
module FrameKt {
  import opened Bytes
  import opened Framing

  /** Frame.encode; a JVM array holds fewer than 2^31 bytes. */
  method EncodeArray(kind: nat, payload: array<byte>) returns (out: array<byte>)
    requires 8 + payload.Length < 0x8000_0000
    ensures fresh(out) && out[..] == Encode(Frame(kind, payload[..]))
  {
    var bodyLen := 4 + payload.Length;
    out := new byte[4 + bodyLen](i => 0);
    out[0] := (bodyLen / 0x100_0000) % 256;
    out[1] := (bodyLen / 0x1_0000) % 256;
    out[2] := (bodyLen / 0x100) % 256;
    out[3] := bodyLen % 256;
    out[4] := kind % 256;
    out[5] := (kind / 0x100) % 256;
    out[6] := (kind / 0x1_0000) % 256;
    out[7] := (kind / 0x100_0000) % 256;
    assert out[..8] == BigEndian32(bodyLen) + LittleEndian32(kind);
    hide BigEndian32, LittleEndian32;
    CopyInto(out, 8, payload[..]);
    assert out[..] == out[..8 + payload.Length];
    assert Body(Frame(kind, payload[..])) == LittleEndian32(kind) + payload[..];
  }

  /** java.io.DataInputStream over the bytes that will arrive before the peer closes. */
  class DataInput {
    var rest: bytes

    constructor (all: bytes)
      ensures rest == all
    {
      rest := all;
    }

    /** readInt: a signed big-endian int, or the end of the stream. */
    method ReadInt() returns (ok: bool, v: int)
      modifies this
      ensures ok == (|old(rest)| >= 4)
      ensures ok ==> rest == old(rest)[4..]
      ensures ok ==> v == var u := ReadBigEndian32(old(rest)); if u < 0x8000_0000 then u else u - TWO32
    {
      if |rest| < 4 {
        rest := [];
        return false, 0;
      }
      var u := ReadBigEndian32(rest);
      rest := rest[4..];
      return true, if u < 0x8000_0000 then u else u - TWO32;
    }

    method ReadFully(n: nat) returns (ok: bool, b: bytes)
      modifies this
      ensures ok == (|old(rest)| >= n)
      ensures ok ==> b == old(rest)[..n] && rest == old(rest)[n..]
    {
      if |rest| < n {
        rest := [];
        return false, [];
      }
      b := rest[..n];
      rest := rest[n..];
      ok := true;
    }
  }

  datatype Outcome = Next(frame: Frame) | PeerClosed | Violation

  /** A clean end gives no frame, an illegal or truncated one throws. */
  function OutcomeOf(stream: bytes): Outcome {
    match ReadFrame(stream)
    case Got(f, rest) => Next(f)
    case Incomplete => if |stream| < 4 then PeerClosed else Violation
    case Illegal => Violation
  }

  /** Frame.readFrom. */
  method ReadFrom(input: DataInput) returns (r: Outcome)
    modifies input
    ensures r == OutcomeOf(old(input.rest))
    ensures r.Next? ==> ReadFrame(old(input.rest)) == Got(r.frame, input.rest)
  {
    var ok, len := input.ReadInt();
    if !ok {
      return PeerClosed;
    }
    if len < 4 || len > MAX_PACK_LEN {
      return Violation;
    }
    var full, body := input.ReadFully(len);
    if !full {
      return Violation;
    }
    r := Next(Frame(ReadLittleEndian32(body), body[4..]));
  }

  lemma ReadLoopStep(stream: bytes, sent: seq<Frame>, k: nat)
    requires k <= |sent| && ReadFrames(stream) == Reading(sent[k..], [], false)
    ensures k == |sent| ==> OutcomeOf(stream) == PeerClosed
    ensures k < |sent| ==> ReadFrame(stream).Got? && OutcomeOf(stream) == Next(sent[k])
    ensures k < |sent| ==> ReadFrames(ReadFrame(stream).rest) == Reading(sent[k + 1..], [], false)
    ensures k < |sent| ==> |ReadFrame(stream).rest| < |stream|
  {
    ReadFramesStep(stream);
    hide ReadFrames;
    assert k < |sent| ==> sent[k..][1..] == sent[k + 1..];
  }

  /** The read loop of the client: every frame that was sent is handed up, in order, and
      then the clean end. */
  method ReadLoop(sent: seq<Frame>) returns (frames: seq<Frame>, last: Outcome)
    requires forall f :: f in sent ==> f.kind < TWO32 && 4 + |f.payload| <= MAX_PACK_LEN
    ensures frames == sent && last == PeerClosed
  {
    var input := new DataInput(Concat(EncodeFrames(sent)));
    FrameStream(sent);
    hide *;
    frames := [];
    last := PeerClosed;
    while true
      invariant |frames| <= |sent| && frames == sent[..|frames|]
      invariant ReadFrames(input.rest) == Reading(sent[|frames|..], [], false)
      decreases |input.rest|
    {
      ReadLoopStep(input.rest, sent, |frames|);
      last := ReadFrom(input);
      if !last.Next? {
        return;
      }
      frames := frames + [last.frame];
    }
  }
}
