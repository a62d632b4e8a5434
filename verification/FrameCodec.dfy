/** The broadcast framing: four length bytes, most significant first, then the body.
    The reading side decodes every frame it can whenever at least six bytes are there. */
module FrameCodec {
  import opened Basics

  const WORD: int := 0x1_0000_0000
  const MAX_BODY: nat := 16 * 1024 * 1024
  const WATERMARK: nat := 6

  /** The length as a 32-bit number, byte by byte. */
  function Header(n: nat): (h: Bytes)
    ensures |h| == 4
  {
    var m := n % WORD;
    [m / 0x100_0000 % 256, m / 0x1_0000 % 256, m / 0x100 % 256, m % 256]
  }

  function Length(h: Bytes): nat
    requires |h| == 4
  {
    h[0] as int * 0x100_0000 + h[1] as int * 0x1_0000 + h[2] as int * 0x100 + h[3] as int
  }

  lemma LengthOfHeader(n: nat)
    ensures Length(Header(n)) == n % WORD
  {
    var m := n % WORD;
    var a := m / 256;
    var b := a / 256;
    assert m / 0x1_0000 == b;
    assert m / 0x100_0000 == b / 256 < 256;
    assert m == 256 * a + m % 256;
    assert a == 256 * b + a % 256;
    assert b == 256 * (b / 256) + b % 256;
  }

  function Frame(body: Bytes): Bytes { Header(|body|) + body }

  function Stream(bodies: seq<Bytes>): Bytes {
    if bodies == [] then [] else Frame(bodies[0]) + Stream(bodies[1..])
  }

  function Concat(segments: seq<Bytes>): Bytes {
    if segments == [] then [] else segments[0] + Concat(segments[1..])
  }

  /** One frame, or nothing and the input as it was. A length of zero gives nothing too,
      but takes the header. */
  function Decode(input: Bytes): (r: (Bytes, Bytes))
    ensures r.0 != [] ==> |r.1| < |input|
  {
    if |input| < 4 then ([], input)
    else
      var n := Length(input[..4]);
      if n > MAX_BODY || |input| < 4 + n then ([], input) else (input[4..4 + n], input[4 + n..])
  }

  /** The decode loop: every frame up to the first that is not all there. */
  function DecodeAll(input: Bytes): (r: (seq<Bytes>, Bytes))
    decreases |input|
  {
    var one := Decode(input);
    if one.0 == [] then ([], one.1)
    else
      var rest := DecodeAll(one.1);
      ([one.0] + rest.0, rest.1)
  }

  /** A segment arrives: the read callback runs if the watermark is reached. */
  function Arrive(held: Bytes, segment: Bytes): (seq<Bytes>, Bytes) {
    if |held + segment| < WATERMARK then ([], held + segment) else DecodeAll(held + segment)
  }

  /** The bodies delivered over a whole run of segments, and what is still held. */
  function Receive(held: Bytes, segments: seq<Bytes>): (seq<Bytes>, Bytes)
    decreases |segments|
  {
    if segments == [] then ([], held)
    else
      var now := Arrive(held, segments[0]);
      var later := Receive(now.1, segments[1..]);
      (now.0 + later.0, later.1)
  }

  /** Bodies the sender may write and the receiver takes. */
  predicate Sendable(bodies: seq<Bytes>) {
    forall i :: 0 <= i < |bodies| ==> 0 < |bodies[i]| <= MAX_BODY
  }

  lemma {:induction false} StreamConcat(a: seq<Bytes>, b: seq<Bytes>)
    ensures Stream(a + b) == Stream(a) + Stream(b)
    decreases |a|
  {
    if a == [] {
      assert a + b == b;
    } else {
      StreamConcat(a[1..], b);
      assert (a + b)[1..] == a[1..] + b;
    }
  }

  lemma DecodeFrame(body: Bytes, rest: Bytes)
    requires |body| <= MAX_BODY
    ensures Decode(Frame(body) + rest) == (body, rest)
  {
    LengthOfHeader(|body|);
    assert (Frame(body) + rest)[..4] == Header(|body|);
    assert Frame(body) + rest == Header(|body|) + body + rest;
  }

  lemma DecodePartial(body: Bytes, rest: Bytes, input: Bytes)
    requires |body| <= MAX_BODY && input <= Frame(body) + rest && |input| < |Frame(body)|
    ensures Decode(input) == ([], input)
  {
    if |input| >= 4 {
      assert input[..4] == (Frame(body) + rest)[..4] == Header(|body|);
      LengthOfHeader(|body|);
    }
  }

  /** What the decode loop leaves holds no whole frame. */
  predicate Partial(bodies: seq<Bytes>, held: Bytes) {
    if bodies == [] then held == [] else |held| < |Frame(bodies[0])|
  }

  /** What may be held between callbacks: less than a frame, or too little for one. */
  predicate Waiting(bodies: seq<Bytes>, held: Bytes) {
    Partial(bodies, held) || (bodies != [] && |held| < WATERMARK)
  }

  /** Of `input`, the first `k` bodies are `out`, and `rest` is what follows. */
  predicate Delivered(bodies: seq<Bytes>, input: Bytes, k: nat, out: seq<Bytes>, rest: Bytes) {
    k <= |bodies| && out == bodies[..k] && Stream(out) + rest == input
  }

  lemma DeliveredCons(body: Bytes, later: seq<Bytes>, tail: Bytes, j: nat, out: seq<Bytes>, rest: Bytes)
    requires Delivered(later, tail, j, out, rest)
    ensures Delivered([body] + later, Frame(body) + tail, j + 1, [body] + out, rest)
    ensures ([body] + later)[j + 1..] == later[j..]
  {
    assert ([body] + out)[1..] == out;
    assert Frame(body) + (Stream(out) + rest) == Frame(body) + Stream(out) + rest;
  }

  lemma DecodeAllFrame(body: Bytes, tail: Bytes)
    requires 0 < |body| <= MAX_BODY
    ensures DecodeAll(Frame(body) + tail) == ([body] + DecodeAll(tail).0, DecodeAll(tail).1)
  {
    DecodeFrame(body, tail);
  }

  /** The loop takes every whole frame of a piece of the stream, in order. */
  lemma {:induction false} DecodePrefix(bodies: seq<Bytes>, input: Bytes) returns (k: nat)
    requires Sendable(bodies) && input <= Stream(bodies)
    ensures Delivered(bodies, input, k, DecodeAll(input).0, DecodeAll(input).1)
    ensures Partial(bodies[k..], DecodeAll(input).1)
    decreases |bodies|
  {
    k := 0;
    if bodies != [] {
      var body, later := bodies[0], bodies[1..];
      var size := |Frame(body)|;
      assert bodies == [body] + later;
      if |input| < size {
        DecodePartial(body, Stream(later), input);
      } else {
        var tail := input[size..];
        assert input == Frame(body) + tail && tail <= Stream(later);
        DecodeAllFrame(body, tail);
        var j := DecodePrefix(later, tail);
        DeliveredCons(body, later, tail, j, DecodeAll(tail).0, DecodeAll(tail).1);
        k := j + 1;
      }
    }
  }

  lemma DeliveredThen(bodies: seq<Bytes>, input: Bytes, i: nat, out: seq<Bytes>, held: Bytes,
                      later: Bytes, j: nat, more: seq<Bytes>, rest: Bytes)
    requires Delivered(bodies, input, i, out, held) && Delivered(bodies[i..], held + later, j, more, rest)
    ensures Delivered(bodies, input + later, i + j, out + more, rest)
    ensures bodies[i + j..] == bodies[i..][j..]
  {
    StreamConcat(out, more);
    assert Stream(out) + (Stream(more) + rest) == Stream(out) + held + later;
    assert Stream(out) + Stream(more) + rest == Stream(out) + (Stream(more) + rest);
  }

  lemma RestOfPrefix(bodies: seq<Bytes>, input: Bytes, i: nat, out: seq<Bytes>, held: Bytes, later: Bytes)
    requires Delivered(bodies, input, i, out, held) && input + later <= Stream(bodies)
    ensures held + later <= Stream(bodies[i..])
  {
    assert bodies == out + bodies[i..];
    StreamConcat(out, bodies[i..]);
    var n := |Stream(out)|;
    assert (input + later)[n..] == held + later;
    assert Stream(bodies)[n..] == Stream(bodies[i..]);
  }

  lemma ArrivePrefix(bodies: seq<Bytes>, held: Bytes, segment: Bytes) returns (i: nat)
    requires Sendable(bodies) && Waiting(bodies, held) && held + segment <= Stream(bodies)
    ensures Delivered(bodies, held + segment, i, Arrive(held, segment).0, Arrive(held, segment).1)
    ensures Waiting(bodies[i..], Arrive(held, segment).1)
  {
    i := 0;
    if |held + segment| >= WATERMARK {
      i := DecodePrefix(bodies, held + segment);
    } else {
      assert bodies[0..] == bodies;
    }
  }

  /** However a piece of the stream is cut into segments, the bodies delivered are a
      front of those sent, in order, and only what is not yet deliverable is held. */
  lemma {:induction false} ReceivePrefix(bodies: seq<Bytes>, held: Bytes, segments: seq<Bytes>) returns (k: nat)
    requires Sendable(bodies) && Waiting(bodies, held) && held + Concat(segments) <= Stream(bodies)
    ensures Delivered(bodies, held + Concat(segments), k, Receive(held, segments).0, Receive(held, segments).1)
    ensures Waiting(bodies[k..], Receive(held, segments).1)
    decreases |segments|
  {
    if segments == [] {
      k := 0;
    } else {
      var first, later := segments[0], Concat(segments[1..]);
      var now := Arrive(held, first);
      var next := Receive(now.1, segments[1..]);
      assert held + Concat(segments) == (held + first) + later;
      assert held + first <= Stream(bodies) by {
        assert (held + first + later)[..|held + first|] == held + first;
      }
      var i := ArrivePrefix(bodies, held, first);
      RestOfPrefix(bodies, held + first, i, now.0, now.1, later);
      var j := ReceivePrefix(bodies[i..], now.1, segments[1..]);
      DeliveredThen(bodies, held + first, i, now.0, now.1, later, j, next.0, next.1);
      k := i + j;
    }
  }

  // ----- Main results

  predicate LastNotTiny(bodies: seq<Bytes>) { bodies == [] || |bodies[|bodies| - 1]| >= 2 }

  lemma StreamOne(body: Bytes)
    ensures Stream([body]) == Frame(body)
  {
    assert Frame(body) + [] == Frame(body);
  }

  lemma LongEnough(bodies: seq<Bytes>)
    requires Sendable(bodies) && bodies != [] && LastNotTiny(bodies)
    ensures |Stream(bodies)| >= WATERMARK
  {
    var last := bodies[|bodies| - 1];
    assert bodies == bodies[..|bodies| - 1] + [last];
    StreamConcat(bodies[..|bodies| - 1], [last]);
    StreamOne(last);
  }

  lemma NothingWholeHeld(bodies: seq<Bytes>)
    requires Sendable(bodies) && LastNotTiny(bodies) && Waiting(bodies, Stream(bodies))
    ensures bodies == []
  {
    if bodies != [] {
      LongEnough(bodies);
    }
  }

  lemma LeftOver(bodies: seq<Bytes>, k: nat, out: seq<Bytes>, rest: Bytes)
    requires Delivered(bodies, Stream(bodies), k, out, rest)
    ensures rest == Stream(bodies[k..])
  {
    assert bodies == out + bodies[k..];
    StreamConcat(out, bodies[k..]);
    assert (Stream(out) + rest)[|Stream(out)|..] == rest;
    assert Stream(bodies)[|Stream(out)|..] == Stream(bodies[k..]);
  }

  /** The round trip: however the stream of the frames is cut, exactly the bodies sent
      come out, in order, with nothing left over. */
  lemma RoundTrip(bodies: seq<Bytes>, segments: seq<Bytes>)
    requires Sendable(bodies) && LastNotTiny(bodies) && Concat(segments) == Stream(bodies)
    ensures Receive([], segments) == (bodies, [])
  {
    assert [] + Concat(segments) == Concat(segments);
    var k := ReceivePrefix(bodies, [], segments);
    var got := Receive([], segments);
    LeftOver(bodies, k, got.0, got.1);
    NothingWholeHeld(bodies[k..]);
    assert got.0 == bodies && got.1 == [];
  }

  /** With bodies of at least two bytes nothing whole is ever held back: after any piece
      of the stream all frames that are complete in it have been delivered. */
  lemma PromptDelivery(bodies: seq<Bytes>, segments: seq<Bytes>) returns (k: nat)
    requires Sendable(bodies) && (forall i :: 0 <= i < |bodies| ==> |bodies[i]| >= 2)
    requires Concat(segments) <= Stream(bodies)
    ensures Delivered(bodies, Concat(segments), k, Receive([], segments).0, Receive([], segments).1)
    ensures Partial(bodies[k..], Receive([], segments).1)
  {
    assert [] + Concat(segments) == Concat(segments);
    k := ReceivePrefix(bodies, [], segments);
  }

  /** The last four bytes arrive after the rest. */
  function LateTail(stream: Bytes): seq<Bytes>
    requires |stream| >= 4
  {
    [stream[..|stream| - 4], stream[|stream| - 4..]]
  }

  lemma LateTailIsACut(stream: Bytes)
    requires |stream| >= 4
    ensures Concat(LateTail(stream)) == stream
  {
    var cut := LateTail(stream);
    var rest: seq<Bytes> := cut[1..];
    assert rest == [cut[1]] && |rest[1..]| == 0;
    assert Concat(rest) == cut[1] + Concat(rest[1..]) == cut[1];
    assert cut[0] + cut[1] == stream;
  }

  lemma ThreePieces(a: Bytes, b: Bytes, c: Bytes)
    ensures a + b + c == a + (b + c)
  {
  }

  /** Whole frames and then bytes that make none: the frames are taken, the bytes stay. */
  lemma {:induction false} DecodeFrames(bodies: seq<Bytes>, x: Bytes)
    requires Sendable(bodies) && DecodeAll(x) == ([], x)
    ensures DecodeAll(Stream(bodies) + x) == (bodies, x)
    decreases |bodies|
  {
    if bodies == [] {
      assert Stream(bodies) + x == x;
    } else {
      var body, later := bodies[0], bodies[1..];
      DecodeFrames(later, x);
      DecodeAllFrame(body, Stream(later) + x);
      ThreePieces(Frame(body), Stream(later), x);
      assert bodies == [body] + later;
    }
  }

  lemma ArriveFrames(front: seq<Bytes>, x: Bytes)
    requires Sendable(front) && |x| == 1
    ensures Arrive([], Stream(front) + x) == (front, x)
  {
    assert [] + (Stream(front) + x) == Stream(front) + x;
    DecodeFrames(front, x);
    if front == [] {
      assert Stream(front) + x == x;
    } else {
      assert |Stream(front)| >= 5;
    }
  }

  /** A one-byte body at the end: its frame is shorter than the watermark and stays. */
  lemma LateTailIsHeld(front: seq<Bytes>, last: Bytes)
    requires Sendable(front) && |last| == 1
    ensures |Stream(front + [last])| >= 4
    ensures Receive([], LateTail(Stream(front + [last]))) == (front, Frame(last))
  {
    var stream, frame := Stream(front + [last]), Frame(last);
    StreamConcat(front, [last]);
    StreamOne(last);
    var cut := LateTail(stream);
    assert cut[0] == Stream(front) + frame[..1] && cut[1] == frame[1..];
    ArriveFrames(front, frame[..1]);
    assert frame[..1] + cut[1] == frame;
    assert Arrive(frame[..1], cut[1]) == ([], frame);
    var rest: seq<Bytes> := cut[1..];
    assert rest == [cut[1]] && |rest[1..]| == 0;
    assert Receive(frame[..1], rest) == ([], frame);
    assert front + [] == front;
  }

  lemma LengthOfFrame(body: Bytes, extra: Bytes)
    requires |body| < WORD
    ensures |Frame(body) + extra| >= 4 && Length((Frame(body) + extra)[..4]) == |body|
  {
    LengthOfHeader(|body|);
    assert (Frame(body) + extra)[..4] == Header(|body|);
  }

  lemma OversizeDecode(body: Bytes, extra: Bytes)
    requires MAX_BODY < |body| < WORD
    ensures DecodeAll(Frame(body) + extra) == ([], Frame(body) + extra)
  {
    var input := Frame(body) + extra;
    LengthOfFrame(body, extra);
    assert Decode(input) == ([], input);
  }

  predicate Framable(bodies: seq<Bytes>) { forall i :: 0 <= i < |bodies| ==> 0 < |bodies[i]| < WORD }

  predicate WithinLimit(bodies: seq<Bytes>) { forall i :: 0 <= i < |bodies| ==> |bodies[i]| <= MAX_BODY }

  lemma {:induction false} FirstOversize(bodies: seq<Bytes>) returns (k: nat)
    requires Framable(bodies) && !WithinLimit(bodies)
    ensures k < |bodies| && |bodies[k]| > MAX_BODY && Sendable(bodies[..k])
    decreases |bodies|
  {
    k := 0;
    if |bodies[0]| <= MAX_BODY {
      var j := FirstOversize(bodies[1..]);
      k := j + 1;
      assert bodies[..k] == [bodies[0]] + bodies[1..][..j];
    }
  }

  lemma ReceiveOne(stream: Bytes)
    requires |stream| >= WATERMARK
    ensures Concat([stream]) == stream && Receive([], [stream]) == DecodeAll(stream)
  {
    assert [stream][1..] == [] && stream + [] == stream && [] + stream == stream;
    assert DecodeAll(stream).0 + [] == DecodeAll(stream).0;
  }

  /** Sent in one piece, a stream with a body above the limit gives what is before it. */
  lemma OversizeStops(bodies: seq<Bytes>)
    requires Framable(bodies) && !WithinLimit(bodies)
    ensures Concat([Stream(bodies)]) == Stream(bodies) && Receive([], [Stream(bodies)]).0 != bodies
  {
    var k := FirstOversize(bodies);
    var front, big, later := bodies[..k], bodies[k], bodies[k + 1..];
    assert bodies == front + ([big] + later);
    StreamConcat(front, [big] + later);
    assert ([big] + later)[1..] == later;
    OversizeDecode(big, Stream(later));
    DecodeFrames(front, Frame(big) + Stream(later));
    ReceiveOne(Stream(bodies));
  }

  /** Of the bodies that the sender frames, every cut delivers all exactly when none is
      above the limit and the last has two bytes or more. */
  lemma EveryCutDelivers(bodies: seq<Bytes>)
    requires Framable(bodies)
    ensures (forall segments :: Concat(segments) == Stream(bodies) ==> Receive([], segments) == (bodies, []))
        <==> WithinLimit(bodies) && LastNotTiny(bodies)
  {
    if !WithinLimit(bodies) {
      OversizeStops(bodies);
    } else if LastNotTiny(bodies) {
      forall segments | Concat(segments) == Stream(bodies) ensures Receive([], segments) == (bodies, []) {
        RoundTrip(bodies, segments);
      }
    } else {
      var front, last := bodies[..|bodies| - 1], bodies[|bodies| - 1];
      assert bodies == front + [last];
      LateTailIsHeld(front, last);
      LateTailIsACut(Stream(bodies));
    }
  }

  /** A body above the limit, which the sender does not refuse, blocks all that follows. */
  lemma {:induction false} OversizeBlocks(body: Bytes, extra: Bytes, segments: seq<Bytes>)
    requires MAX_BODY < |body| < WORD
    ensures Receive(Frame(body) + extra, segments) == ([], Frame(body) + extra + Concat(segments))
    decreases |segments|
  {
    var held := Frame(body) + extra;
    if segments == [] {
      assert held + [] == held;
    } else {
      var more := extra + segments[0];
      assert held + segments[0] == Frame(body) + more;
      OversizeDecode(body, more);
      assert Arrive(held, segments[0]) == ([], Frame(body) + more);
      OversizeBlocks(body, more, segments[1..]);
      assert Receive(held, segments).0 == [] + Receive(Frame(body) + more, segments[1..]).0;
      assert held + (segments[0] + Concat(segments[1..])) == Frame(body) + more + Concat(segments[1..]);
    }
  }

  // ----- As the program does it

  /** One end of a connection: bytes written to it, or come in from it. */
  class Buffer {
    var bytes: Bytes

    constructor ()
      ensures bytes == []
    {
      bytes := [];
    }

    method Write(data: Bytes)
      modifies this
      ensures bytes == old(bytes) + data
    {
      bytes := bytes + data;
    }

    method Drain(n: nat)
      requires n <= |bytes|
      modifies this
      ensures bytes == old(bytes)[n..]
    {
      bytes := bytes[n..];
    }
  }

  method LengthBytes(size: nat) returns (h: Bytes)
    ensures h == Header(size)
  {
    var bodyLen := size % WORD;
    h := [bodyLen / 0x100_0000 % 256, bodyLen / 0x1_0000 % 256, bodyLen / 0x100 % 256, bodyLen % 256];
  }

  /** Writes one frame in two pieces; an empty body is refused. */
  method FrameEncode(bev: Buffer, json: Bytes) returns (ok: bool)
    modifies bev
    ensures ok <==> json != []
    ensures bev.bytes == old(bev.bytes) + (if ok then Frame(json) else [])
  {
    if json == [] {
      return false;
    }
    var lenBuf := LengthBytes(|json|);
    bev.Write(lenBuf);
    bev.Write(json);
    assert bev.bytes == old(bev.bytes) + (lenBuf + json);
    return true;
  }

  /** The server's own framing of a message for its queue: the same bytes. */
  method DeliveredFrame(jsonStr: Bytes) returns (frame: Bytes)
    ensures frame == Frame(jsonStr)
  {
    var lenBuf := LengthBytes(|jsonStr|);
    frame := [];
    frame := frame + lenBuf;
    frame := frame + jsonStr;
  }

  method FrameDecode(input: Buffer) returns (body: Bytes)
    modifies input
    ensures (body, input.bytes) == Decode(old(input.bytes))
  {
    if |input.bytes| < 4 {
      return [];
    }
    var bodyLen := Length(input.bytes[..4]);
    if bodyLen > MAX_BODY || |input.bytes| < 4 + bodyLen {
      return [];
    }
    ghost var was := input.bytes;
    input.Drain(4);
    assert was[4..][..bodyLen] == was[4..4 + bodyLen] && was[4..][bodyLen..] == was[4 + bodyLen..];
    body := input.bytes[..bodyLen];
    input.Drain(bodyLen);
  }

  /** The read callback: hands on every frame that is there. */
  method OnRead(input: Buffer) returns (handled: seq<Bytes>)
    modifies input
    ensures (handled, input.bytes) == DecodeAll(old(input.bytes))
  {
    handled := [];
    assert handled + DecodeAll(input.bytes).0 == DecodeAll(input.bytes).0;
    while true
      invariant DecodeAll(old(input.bytes)) == (handled + DecodeAll(input.bytes).0, DecodeAll(input.bytes).1)
      decreases |input.bytes|
    {
      var json := FrameDecode(input);
      if json == [] {
        assert handled + [] == handled;
        break;
      }
      assert handled + ([json] + DecodeAll(input.bytes).0) == handled + [json] + DecodeAll(input.bytes).0;
      handled := handled + [json];
    }
  }
}
