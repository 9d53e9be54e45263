/**
 * The length-prefixed JPEG stream shared by the image and video channels: a 4-byte
 * big-endian signed length (`DataInputStream.readInt`), then that many payload bytes.
 * A missing header ends the connection quietly, a length outside (0, 5 000 000] ends it,
 * and a payload shorter than announced ends it.
 */
module Framing {
  import opened Bytes

  const MaxFrameBytes: int := 5_000_000

  /** `readInt`: four octets, most significant first, as a two's-complement 32-bit value. */
  function Int32BE(b: seq<Byte>): (r: int)
    requires |b| >= 4
    ensures -0x8000_0000 <= r < 0x8000_0000
    ensures r < 0 <==> b[0] >= 128
  {
    var u := b[0] as int * 0x100_0000 + b[1] as int * 0x1_0000 + b[2] as int * 0x100 + b[3] as int;
    if u >= 0x8000_0000 then u - 0x1_0000_0000 else u
  }

  /** The header a sender writes for a payload of `n` bytes: `writeInt`, one octet per 8-bit shift. */
  function LengthHeader(n: int): (r: seq<Byte>)
    requires 0 <= n < 0x8000_0000
    ensures |r| == 4
  {
    var q1 := n / 0x100;
    var q2 := q1 / 0x100;
    [q2 / 0x100, q2 % 0x100, q1 % 0x100, n % 0x100]
  }

  /** A length the receivers accept. */
  predicate ValidLength(len: int) {
    0 < len <= MaxFrameBytes
  }

  /** Why a connection's frame loop stopped. */
  datatype End = EndOfStream | BadLength(len: int) | Truncated

  /** One step of the read loop: a frame and the bytes after it, or the end of the connection. */
  datatype Next = Frame(payload: seq<Byte>, rest: seq<Byte>) | Closed(why: End)

  function NextFrame(stream: seq<Byte>): (r: Next)
    ensures r.Frame? ==> |r.rest| < |stream|
  {
    if |stream| < 4 then Closed(EndOfStream)
    else
      var len := Int32BE(stream);
      if !ValidLength(len) then Closed(BadLength(len))
      else if |stream| - 4 < len then Closed(Truncated)
      else Frame(stream[4..4 + len], stream[4 + len..])
  }

  /** Every frame of a connection, in order, and why it ended. */
  function Frames(stream: seq<Byte>): (r: (seq<seq<Byte>>, End))
    ensures forall k :: 0 <= k < |r.0| ==> ValidLength(|r.0[k]|)
    decreases |stream|
  {
    match NextFrame(stream)
    case Closed(why) => ([], why)
    case Frame(p, rest) =>
      HeaderOfFrame(stream);
      var (ps, e) := Frames(rest);
      ([p] + ps, e)
  }

  /** The payload bytes of a sequence of frames. */
  function TotalSize(frames: seq<seq<Byte>>): nat {
    if frames == [] then 0 else |frames[0]| + TotalSize(frames[1..])
  }

  /** What a well-behaved sender writes for a sequence of payloads: header then payload, frame after frame. */
  function Encode(frames: seq<seq<Byte>>): (r: seq<Byte>)
    requires forall k :: 0 <= k < |frames| ==> ValidLength(|frames[k]|)
    ensures |r| == 4 * |frames| + TotalSize(frames)
    ensures frames != [] ==> Int32BE(r) == |frames[0]|
  {
    if frames == [] then []
    else
      assert ValidLength(|frames[0]|);
      var h := LengthHeader(|frames[0]|);
      HeaderRoundTrip(|frames[0]|);
      var r := h + frames[0] + Encode(frames[1..]);
      assert r[..4] == h;
      assert Int32BE(r) == Int32BE(h);
      r
  }

  // ----- properties -----

  lemma HeaderRoundTrip(n: int)
    requires 0 <= n < 0x8000_0000
    ensures Int32BE(LengthHeader(n)) == n
  {
    var h := LengthHeader(n);
    var q1 := n / 0x100;
    var q2 := q1 / 0x100;
    var q3 := q2 / 0x100;
    assert n == q1 * 0x100 + h[3];
    assert q1 == q2 * 0x100 + h[2];
    assert q2 == q3 * 0x100 + h[1];
    assert q1 < 0x80_0000 && q2 < 0x8000 && q3 < 0x80;
    calc {
      h[0] as int * 0x100_0000 + h[1] as int * 0x1_0000 + h[2] as int * 0x100 + h[3] as int;
      ((q3 * 0x100 + h[1]) * 0x100 + h[2]) * 0x100 + h[3];
      (q2 * 0x100 + h[2]) * 0x100 + h[3];
      q1 * 0x100 + h[3];
      n;
    }
  }

  /** A frame the reader accepts carries a valid length and is exactly header, payload, rest. */
  lemma HeaderOfFrame(stream: seq<Byte>)
    requires NextFrame(stream).Frame?
    ensures var f := NextFrame(stream);
      ValidLength(|f.payload|) && stream == LengthHeader(|f.payload|) + f.payload + f.rest
  {
    var f := NextFrame(stream);
    var len := Int32BE(stream);
    var h := LengthHeader(len);
    HeaderRoundTrip(len);
    var u := stream[0] as int * 0x100_0000 + stream[1] as int * 0x1_0000 + stream[2] as int * 0x100 + stream[3] as int;
    assert u == len;
    assert h[0] == stream[0] && h[1] == stream[1] && h[2] == stream[2] && h[3] == stream[3];
    assert stream == stream[..4] + f.payload + f.rest;
  }

  /** The reader's answer on a stream that starts with a well-formed frame. */
  lemma NextOfEncoded(p: seq<Byte>, tail: seq<Byte>)
    requires ValidLength(|p|)
    ensures NextFrame(LengthHeader(|p|) + p + tail) == Frame(p, tail)
  {
    var s := LengthHeader(|p|) + p + tail;
    HeaderRoundTrip(|p|);
    assert s[..4] == LengthHeader(|p|);
    assert Int32BE(s) == Int32BE(s[..4]);
    assert s[4..4 + |p|] == p;
    assert s[4 + |p|..] == tail;
  }

  /** Reading what a sender wrote returns the same payloads, then a quiet end of stream. */
  lemma {:induction false} FramesOfEncode(frames: seq<seq<Byte>>, tail: seq<Byte>)
    requires forall k :: 0 <= k < |frames| ==> ValidLength(|frames[k]|)
    requires |tail| < 4
    ensures Frames(Encode(frames) + tail) == (frames, EndOfStream)
  {
    if frames == [] {
      assert Encode(frames) + tail == tail;
    } else {
      var rest := Encode(frames[1..]) + tail;
      assert Encode(frames) + tail == LengthHeader(|frames[0]|) + frames[0] + rest;
      NextOfEncoded(frames[0], rest);
      FramesOfEncode(frames[1..], tail);
      assert [frames[0]] + frames[1..] == frames;
    }
  }

  /** A header announcing zero, a negative length or more than 5 000 000 bytes ends the connection at once. */
  lemma BadHeaderEndsConnection(stream: seq<Byte>)
    requires |stream| >= 4 && !ValidLength(Int32BE(stream))
    ensures Frames(stream) == ([], BadLength(Int32BE(stream)))
  {
  }

  /** A header whose first octet has its top bit set announces a negative length. */
  lemma HighBitIsNegative(stream: seq<Byte>)
    requires |stream| >= 4 && stream[0] >= 128
    ensures Frames(stream).0 == [] && Frames(stream).1.BadLength?
  {
  }
}
