/**
 * The video channel: length-prefixed JPEG frames from the robot, relayed to the
 * console as IMAGE messages carrying the payload in Base64, only while a console is
 * connected; otherwise the frame is read and dropped.
 */
module VideoChannel {
  import opened Wrappers
  import opened Bytes
  import opened Messages
  import Base64
  import opened Framing

  /** One frame's relay: an IMAGE message to a connected console, nothing otherwise. */
  function RelayFrame(payload: seq<Byte>, guiConnected: bool): (r: seq<Outbound>)
    ensures guiConnected ==> r == [ToGui(Image(Base64.Encode(payload)))]
    ensures !guiConnected ==> r == []
  {
    if guiConnected then [ToGui(Image(Base64.Encode(payload)))] else []
  }

  /**
   * A whole connection: the frames read from `stream` in order, each relayed according to
   * whether the console was connected at that frame (`guiUp(k)` for frame k), and why it ended.
   */
  function RelayStream(stream: seq<Byte>, guiUp: nat -> bool, k: nat): (r: (seq<Outbound>, End))
    decreases |stream|
  {
    match NextFrame(stream)
    case Closed(why) => ([], why)
    case Frame(p, rest) =>
      var (out, why) := RelayStream(rest, guiUp, k + 1);
      (RelayFrame(p, guiUp(k)) + out, why)
  }

  /** The images the console receives for frames `frames`, numbered from `k`. */
  function Images(frames: seq<seq<Byte>>, guiUp: nat -> bool, k: nat): seq<Payload>
    decreases |frames|
  {
    if frames == [] then []
    else (if guiUp(k) then [Image(Base64.Encode(frames[0]))] else []) + Images(frames[1..], guiUp, k + 1)
  }

  // ----- properties -----

  /** The relay sends exactly the frame reader's frames, encoded, for the frames a console was there for. */
  lemma {:induction false} RelayMatchesFrames(stream: seq<Byte>, guiUp: nat -> bool, k: nat)
    ensures var (out, why) := RelayStream(stream, guiUp, k);
      GuiBound(out) == Images(Frames(stream).0, guiUp, k) && RobotBound(out) == []
      && why == Frames(stream).1
    decreases |stream|
  {
    match NextFrame(stream)
    case Closed(why) =>
    case Frame(p, rest) =>
      RelayMatchesFrames(rest, guiUp, k + 1);
      var out := RelayStream(rest, guiUp, k + 1).0;
      RobotBoundAppend(RelayFrame(p, guiUp(k)), out);
      GuiBoundAppend(RelayFrame(p, guiUp(k)), out);
      assert Frames(stream).0 == [p] + Frames(rest).0;
      assert ([p] + Frames(rest).0)[1..] == Frames(rest).0;
  }

  /** Every IMAGE the console receives decodes to exactly the bytes of its frame. */
  lemma ImageDecodesToFrame(payload: seq<Byte>)
    ensures var r := RelayFrame(payload, true);
      r[0].payload.Image? && Base64.Decode(r[0].payload.data) == Some(payload)
  {
    Base64.DecodeEncode(payload);
  }

  /** What a well-behaved camera writes is relayed frame for frame, then the connection ends quietly. */
  lemma CameraStreamRelayed(frames: seq<seq<Byte>>, guiUp: nat -> bool)
    requires forall k :: 0 <= k < |frames| ==> ValidLength(|frames[k]|)
    ensures var (out, why) := RelayStream(Framing.Encode(frames), guiUp, 0);
      GuiBound(out) == Images(frames, guiUp, 0) && why == EndOfStream
  {
    FramesOfEncode(frames, []);
    assert Framing.Encode(frames) + [] == Framing.Encode(frames);
    RelayMatchesFrames(Framing.Encode(frames), guiUp, 0);
  }
}
