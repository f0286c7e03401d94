/** Length-prefixed frames (include/ports/transport.hpp) and the receive buffer that
    reassembles them from a TLS stream (src/infrastructure/asio_tls_transport.cpp). */
module Framing {
  import opened Bytes

  /** The largest length prefix a receiver accepts: 4 MiB. */
  const MAX_LEN := 4 * 1024 * 1024

  const AUTH: byte := 2
  const REGISTER: byte := 3
  const LOGOUT: byte := 4
  const ADMIN_ACTIVATE: byte := 5
  const ADMIN_DEACTIVATE: byte := 6
  const UPLOAD_INIT: byte := 7
  const UPLOAD_DATA: byte := 8
  const UPLOAD_COMMIT: byte := 9
  const DOWNLOAD_REQ: byte := 10
  const DOWNLOAD_DATA: byte := 11
  const LIST: byte := 12
  const ERR: byte := 255

  /** `kind` is any byte: the source casts it to `MsgType` unchecked. */
  datatype Frame = Frame(kind: byte, requestId: u32, body: Text)

  /** The frames every receiver accepts. */
  predicate Fits(f: Frame)
  {
    |f.body| <= MAX_LEN - 5
  }

  function Payload(f: Frame): Text
  {
    [f.kind] + Be32(f.requestId) + f.body
  }

  function Encode(f: Frame): (wire: Text)
    ensures |wire| == 9 + |f.body|
  {
    Be32(|Payload(f)| % TWO32) + Payload(f)
  }

  /** The frame laid out at the start of a buffer that is long enough to hold it. */
  function FrameAt(buf: Text, len: nat): Frame
    requires 5 <= len && 4 + len <= |buf|
  {
    Frame(buf[4], Get32(buf[5..]), buf[9..4 + len])
  }

  /** `tryDecode`: the first frame of a buffer and the number of bytes it takes. */
  function TryDecode(buf: Text): Option<(Frame, nat)>
  {
    if |buf| < 4 then None
    else
      var len := Get32(buf);
      if len > MAX_LEN || |buf| < 4 + len || len < 5 then None
      else Some((FrameAt(buf, len), 4 + len))
  }

  /** `encodeFrame`: the payload is built first, then prefixed with its length. */
  method EncodeFrame(f: Frame) returns (wire: Text)
    ensures wire == Encode(f)
  {
    hide Be32;
    var payload := [f.kind];
    payload := Put32(payload, f.requestId);
    payload := payload + f.body;
    wire := Put32([], |payload| % TWO32);
    wire := wire + payload;
  }

  function Concat(input: seq<Text>): Text
  {
    if input == [] then [] else input[0] + Concat(input[1..])
  }

  function EncodeAll(frames: seq<Frame>): Text
  {
    if frames == [] then [] else Encode(frames[0]) + EncodeAll(frames[1..])
  }

  /** What one `recvFrame` call leaves: the buffer and the reads not yet made. */
  datatype Received =
    | Delivered(frame: Frame, buf: Text, input: seq<Text>)
    | Closed(buf: Text, input: seq<Text>)

  predicate BadLength(buf: Text)
  {
    |buf| >= 4 && !(5 <= Get32(buf) <= MAX_LEN)
  }

  /** One `recvFrame` call, the socket replaced by the list of reads it will return. An
      exhausted list stands for a read error, an empty read for end of stream. */
  function Receive(buf: Text, input: seq<Text>): Received
    decreases |input|
  {
    if BadLength(buf) then Closed([], input)
    else if |buf| >= 4 && |buf| >= 4 + Get32(buf) then
      var len := Get32(buf);
      Delivered(FrameAt(buf, len), buf[4 + len..], input)
    else if input == [] then Closed(buf, [])
    else if input[0] == [] then Closed(buf, input[1..])
    else Receive(buf + input[0], input[1..])
  }

  /** `AsioTlsTransport`, receiving side. */
  class Receiver {
    var rxBuf: Text
    var incoming: seq<Text>

    constructor (input: seq<Text>)
      ensures rxBuf == [] && incoming == input
    {
      rxBuf, incoming := [], input;
    }

    method RecvFrame() returns (out: Option<Frame>)
      modifies this
      ensures var r := old(Receive(rxBuf, incoming));
              && rxBuf == r.buf && incoming == r.input
              && out == (if r.Delivered? then Some(r.frame) else None)
    {
      while true
        invariant Receive(rxBuf, incoming) == old(Receive(rxBuf, incoming))
        decreases |incoming|
      {
        if |rxBuf| >= 4 {
          var len := Get32(rxBuf);
          if len < 5 || len > MAX_LEN {
            rxBuf := [];
            return None;
          }
          if |rxBuf| >= 4 + len {
            out := Some(FrameAt(rxBuf, len));
            rxBuf := rxBuf[4 + len..];
            return;
          }
        }
        if incoming == [] {
          return None;
        }
        var chunk := incoming[0];
        incoming := incoming[1..];
        if chunk == [] {
          return None;
        }
        rxBuf := rxBuf + chunk;
      }
    }

    /** A connection loop that collects frames until `recvFrame` fails or `n` have come. */
    method RecvFrames(n: nat) returns (frames: seq<Frame>)
      modifies this
      ensures var r := old(ReceiveMany(n, rxBuf, incoming));
              frames == r.0 && rxBuf == r.1 && incoming == r.2
    {
      frames := [];
      var left := n;
      ghost var all := ReceiveMany(n, rxBuf, incoming).0;
      assert [] + all == all;
      while left > 0
        invariant 0 <= left <= n
        invariant var r, r0 := ReceiveMany(left, rxBuf, incoming), old(ReceiveMany(n, rxBuf, incoming));
                  r0 == (frames + r.0, r.1, r.2)
      {
        var f := RecvFrame();
        if f.None? {
          return;
        }
        ghost var rest := ReceiveMany(left - 1, rxBuf, incoming).0;
        assert frames + ([f.value] + rest) == frames + [f.value] + rest;
        frames := frames + [f.value];
        left := left - 1;
      }
    }
  }

  /** Up to `n` successive `recvFrame` calls, stopping at the first that fails. */
  function ReceiveMany(n: nat, buf: Text, input: seq<Text>): (r: (seq<Frame>, Text, seq<Text>))
    ensures |r.0| <= n
  {
    if n == 0 then ([], buf, input)
    else
      match Receive(buf, input)
      case Closed(b, rs) => ([], b, rs)
      case Delivered(f, b, rs) =>
        var rest := ReceiveMany(n - 1, b, rs);
        ([f] + rest.0, rest.1, rest.2)
  }

  // ---------------------------------------------------------------------------------------
  // Encoding and decoding one frame
  // ---------------------------------------------------------------------------------------

  lemma Layout(len: Text, kind: byte, id: Text, body: Text, rest: Text)
    requires |len| == |id| == 4
    ensures var buf := len + ([kind] + id + body) + rest;
            && buf == len + (([kind] + id + body) + rest)
            && buf[4] == kind && buf[5..] == id + (body + rest) && buf[9..9 + |body|] == body
  {
  }

  lemma DecodeEncode(f: Frame, rest: Text)
    requires Fits(f)
    ensures TryDecode(Encode(f) + rest) == Some((f, |Encode(f)|))
  {
    hide Be32, Get32;
    var len: u32 := 5 + |f.body|;
    Layout(Be32(len), f.kind, Be32(f.requestId), f.body, rest);
    Get32OfBe32(len, Payload(f) + rest);
    Get32OfBe32(f.requestId, f.body + rest);
  }

  /** Whatever bytes `tryDecode` accepts, they begin with the encoding of the frame it returns. */
  lemma EncodeDecode(buf: Text)
    requires TryDecode(buf).Some?
    ensures var (f, n) := TryDecode(buf).value;
            Fits(f) && n <= |buf| && buf[..n] == Encode(f)
  {
    hide Be32, Get32;
    var len := Get32(buf);
    var f := FrameAt(buf, len);
    Be32OfGet32(buf);
    Be32OfGet32(buf[5..]);
    assert buf[5..][..4] == buf[5..9];
    assert buf[..4 + len] == buf[..4] + buf[4..5] + buf[5..9] + buf[9..4 + len];
  }

  /** `recvFrame` decides every buffer as `tryDecode` does: it hands out a frame without
      reading exactly when `tryDecode` accepts, the same frame, and drops the same bytes. */
  lemma ReceiveAgreesWithTryDecode(buf: Text, input: seq<Text>)
    ensures TryDecode(buf).Some? ==>
              var (f, n) := TryDecode(buf).value;
              n <= |buf| && Receive(buf, input) == Delivered(f, buf[n..], input)
    ensures TryDecode(buf).None? ==> Receive(buf, []).Closed?
  {
  }

  // ---------------------------------------------------------------------------------------
  // Reassembly of a stream
  // ---------------------------------------------------------------------------------------

  /** Conservation: for any bytes at all, a delivered frame is exactly what was taken off the
      front of the stream, and nothing behind it is lost. */
  lemma {:induction false} ReceiveConserves(buf: Text, input: seq<Text>)
    ensures var r := Receive(buf, input);
            r.Delivered? ==> Fits(r.frame) && buf + Concat(input) == Encode(r.frame) + r.buf + Concat(r.input)
    decreases |input|
  {
    hide Get32, Encode;
    if TryDecode(buf).Some? {
      EncodeDecode(buf);
      var n := TryDecode(buf).value.1;
      assert buf == buf[..n] + buf[n..];
    } else if !BadLength(buf) && input != [] && input[0] != [] {
      ReceiveConserves(buf + input[0], input[1..]);
      assert buf + input[0] + Concat(input[1..]) == buf + Concat(input);
    }
  }

  lemma PrefixLength(a: Text, b: Text, f: Frame, rest: Text)
    requires |f.body| < TWO32 - 5 && a + b == Encode(f) + rest && |a| >= 4
    ensures Get32(a) == 5 + |f.body|
  {
    hide Be32;
    Get32OfBe32(5 + |f.body|, Payload(f) + rest);
    assert a[..4] == (a + b)[..4] == (Be32(5 + |f.body|) + (Payload(f) + rest))[..4];
  }

  /** Any split of `Encode(f) + rest` into non-empty reads delivers `f` and keeps `rest`. */
  lemma {:induction false} ReceiveOne(buf: Text, input: seq<Text>, f: Frame, rest: Text)
    requires Fits(f) && [] !in input
    requires buf + Concat(input) == Encode(f) + rest
    ensures var r := Receive(buf, input);
            && r.Delivered? && r.frame == f && [] !in r.input
            && r.buf + Concat(r.input) == rest
    decreases |input|
  {
    hide Get32, Encode;
    if |buf| >= 4 {
      PrefixLength(buf, Concat(input), f, rest);
    }
    if |buf| >= |Encode(f)| {
      var extra := buf[|Encode(f)|..];
      assert (buf + Concat(input))[..|Encode(f)|] == Encode(f);
      assert buf == Encode(f) + extra;
      DecodeEncode(f, extra);
      ReceiveAgreesWithTryDecode(buf, input);
      assert extra + Concat(input) == (buf + Concat(input))[|Encode(f)|..] == rest;
    } else {
      assert input != [];
      assert buf + input[0] + Concat(input[1..]) == buf + Concat(input);
      ReceiveOne(buf + input[0], input[1..], f, rest);
    }
  }

  /** Stream reassembly: frames sent back to back and split anywhere into non-empty reads come
      out of repeated `recvFrame` calls unchanged and in order; only `rest` is left. */
  lemma {:induction false} Reassembly(frames: seq<Frame>, buf: Text, input: seq<Text>, rest: Text)
    requires forall f :: f in frames ==> Fits(f)
    requires [] !in input
    requires buf + Concat(input) == EncodeAll(frames) + rest
    ensures var r := ReceiveMany(|frames|, buf, input);
            && r.0 == frames && [] !in r.2
            && r.1 + Concat(r.2) == rest
  {
    hide Encode, Receive;
    if frames != [] {
      var rest' := EncodeAll(frames[1..]) + rest;
      assert EncodeAll(frames) + rest == Encode(frames[0]) + rest';
      ReceiveOne(buf, input, frames[0], rest');
      var r := Receive(buf, input);
      Reassembly(frames[1..], r.buf, r.input, rest);
    }
  }

  lemma Regroup(e: Text, a: Text, b: Text, c: Text, d: Text)
    requires a + b == c + d
    ensures e + a + b == e + c + d
  {
    assert e + a + b == e + (a + b) && e + c + d == e + (c + d);
  }

  /** The stream determines the frames: on any bytes, the frames delivered re-encode to the
      consumed part of the stream, so no two different frame lists share a wire. */
  lemma {:induction false} ReceiveManyConserves(n: nat, buf: Text, input: seq<Text>)
    requires |ReceiveMany(n, buf, input).0| == n
    ensures var r := ReceiveMany(n, buf, input);
            buf + Concat(input) == EncodeAll(r.0) + (r.1 + Concat(r.2))
  {
    hide Encode, Receive;
    if n > 0 {
      ReceiveConserves(buf, input);
      var r := Receive(buf, input);
      ReceiveManyConserves(n - 1, r.buf, r.input);
      var rest := ReceiveMany(n - 1, r.buf, r.input);
      assert ([r.frame] + rest.0)[1..] == rest.0;
      Regroup(Encode(r.frame), r.buf, Concat(r.input), EncodeAll(rest.0), rest.1 + Concat(rest.2));
    }
  }

  /** A frame over the limit is never delivered, however its bytes are split. */
  lemma {:induction false} OversizeRefused(buf: Text, input: seq<Text>, f: Frame, rest: Text)
    requires !Fits(f) && |f.body| < TWO32 - 5 && [] !in input
    requires buf + Concat(input) == Encode(f) + rest
    ensures Receive(buf, input).Closed?
    decreases |input|
  {
    hide Get32, Encode;
    if |buf| >= 4 {
      PrefixLength(buf, Concat(input), f, rest);
    } else {
      assert input != [];
      assert buf + input[0] + Concat(input[1..]) == buf + Concat(input);
      OversizeRefused(buf + input[0], input[1..], f, rest);
    }
  }

  /** So a frame gets through exactly when its body is at most 4 MiB less 5 bytes. */
  lemma DeliveredIffFits(input: seq<Text>, f: Frame, rest: Text)
    requires [] !in input && Concat(input) == Encode(f) + rest
    ensures var r := Receive([], input); (r.Delivered? && r.frame == f) <==> Fits(f)
  {
    assert [] + Concat(input) == Concat(input);
    if Fits(f) {
      ReceiveOne([], input, f, rest);
    }
    ReceiveConserves([], input);
  }
}
