/**
 * The operator console's input handling: keyboard drive keys, the gamepad poll with
 * its dead zone and send-on-change rule, and the zoom buttons' edge detection and
 * clamp. Java floats are modelled as reals.
 */
module DesktopInput {
  import opened Wrappers

  // ----- keyboard -----

  datatype Key = W | S | A | D | Space | OtherKey

  datatype DriveCmd = Forward | Backward | Left | Right | Stop

  function CmdName(c: DriveCmd): string {
    match c
    case Forward => "FORWARD"
    case Backward => "BACKWARD"
    case Left => "LEFT"
    case Right => "RIGHT"
    case Stop => "STOP"
  }

  function KeyCommand(k: Key): (r: Option<DriveCmd>)
    ensures r.None? <==> k == OtherKey
  {
    match k
    case W => Some(Forward)
    case S => Some(Backward)
    case A => Some(Left)
    case D => Some(Right)
    case Space => Some(Stop)
    case OtherKey => None
  }

  /** The line `{"type":"KEY","cmd":"<name>"}`. */
  function KeyLine(c: DriveCmd): string {
    "{\"type\":\"KEY\",\"cmd\":\"" + CmdName(c) + "\"}"
  }

  /** `sendDriveCommand`: the lines written for one key press (`connected`: the writer exists). */
  function SendDriveCommand(connected: bool, k: Key): (r: seq<string>)
    ensures |r| <= 1
    ensures r != [] <==> connected && k != OtherKey
    ensures r != [] ==> r[0] == KeyLine(KeyCommand(k).value)
  {
    if !connected then []
    else match KeyCommand(k)
      case None => []
      case Some(c) => [KeyLine(c)]
  }

  // ----- gamepad -----

  const PadDeadZone: real := 0.05
  const SendEpsilon: real := 0.01
  const ZoomInFactor: real := 1.2
  const ZoomOutFactor: real := 0.8

  function Abs(x: real): real {
    if x < 0.0 then -x else x
  }

  /** `deadZone(value, threshold)`. */
  function DeadZone(v: real, threshold: real): (r: real)
    ensures Abs(v) < threshold ==> r == 0.0
    ensures Abs(v) >= threshold ==> r == v
  {
    if Abs(v) < threshold then 0.0 else v
  }

  datatype Axes = Axes(lx: real, ly: real, rx: real)

  /** The poller's memory: the last sent stick values and the last button states. */
  datatype Pad = Pad(last: Axes, lastZoomIn: bool, lastZoomOut: bool)

  const InitialPad := Pad(Axes(0.0, 0.0, 0.0), false, false)

  /** One controller sample. */
  datatype Sample = Sample(padConnected: bool, stick: Axes, zoomOut: bool, zoomIn: bool)

  /** The effects of one poll: a PAD message with the axes sent, and the zoom multipliers applied in order. */
  datatype Poll = Poll(pad: Pad, sent: Option<Axes>, zooms: seq<real>)

  predicate Moved(a: Axes, b: Axes) {
    Abs(a.lx - b.lx) >= SendEpsilon || Abs(a.ly - b.ly) >= SendEpsilon || Abs(a.rx - b.rx) >= SendEpsilon
  }

  function Filtered(a: Axes): Axes {
    Axes(DeadZone(a.lx, PadDeadZone), DeadZone(a.ly, PadDeadZone), DeadZone(a.rx, PadDeadZone))
  }

  /** `pollGamepad`: `serverConnected` is the writer's existence, `hasMap` that of the LiDAR view. */
  function PollGamepad(p: Pad, s: Sample, serverConnected: bool, hasMap: bool): (r: Poll)
    ensures !s.padConnected || !serverConnected ==> r == Poll(p, None, [])
    ensures s.padConnected && serverConnected ==>
      && (r.sent.Some? <==> Moved(Filtered(s.stick), p.last))
      && (r.sent.Some? ==> r.sent.value == Filtered(s.stick) && r.pad.last == r.sent.value)
      && (r.sent.None? ==> r.pad.last == p.last)
      && r.pad.lastZoomIn == s.zoomIn && r.pad.lastZoomOut == s.zoomOut
      && (ZoomInFactor in r.zooms <==> hasMap && s.zoomIn && !p.lastZoomIn)
      && (ZoomOutFactor in r.zooms <==> hasMap && s.zoomOut && !p.lastZoomOut)
  {
    if !s.padConnected || !serverConnected then Poll(p, None, [])
    else
      var f := Filtered(s.stick);
      var sent := if Moved(f, p.last) then Some(f) else None;
      var last := if sent.Some? then f else p.last;
      var zin := if hasMap && s.zoomIn && !p.lastZoomIn then [ZoomInFactor] else [];
      var zout := if hasMap && s.zoomOut && !p.lastZoomOut then [ZoomOutFactor] else [];
      Poll(Pad(last, s.zoomIn, s.zoomOut), sent, zin + zout)
  }

  // ----- zoom -----

  const MinZoom: real := 0.2
  const MaxZoom: real := 10.0

  /** `LidarView.adjustZoom`: multiply, then clamp to [0.2, 10.0]. */
  function AdjustZoom(zoom: real, multiplier: real): (r: real)
    ensures MinZoom <= r <= MaxZoom
    ensures MinZoom <= zoom * multiplier <= MaxZoom ==> r == zoom * multiplier
    ensures zoom * multiplier < MinZoom ==> r == MinZoom
    ensures zoom * multiplier > MaxZoom ==> r == MaxZoom
  {
    var z := zoom * multiplier;
    var z1 := if z < MinZoom then MinZoom else z;
    if z1 > MaxZoom then MaxZoom else z1
  }

  function ApplyZooms(zoom: real, ms: seq<real>): (r: real)
    ensures ms != [] ==> MinZoom <= r <= MaxZoom
    decreases |ms|
  {
    if ms == [] then zoom else ApplyZooms(AdjustZoom(zoom, ms[0]), ms[1..])
  }

  // ----- properties -----

  /** Distinct commands give distinct lines, so the robot can tell the keys apart. */
  lemma KeyLinesDistinct(a: DriveCmd, b: DriveCmd)
    requires a != b
    ensures KeyLine(a) != KeyLine(b)
  {
    var prefix := "{\"type\":\"KEY\",\"cmd\":\"";
    assert KeyLine(a)[|prefix|..|prefix| + 1] == CmdName(a)[..1];
    assert KeyLine(b)[|prefix|..|prefix| + 1] == CmdName(b)[..1];
    // the five names start with five different letters
    assert CmdName(a)[0] != CmdName(b)[0];
  }

  /** Holding a zoom button across polls zooms once. */
  lemma HeldButtonFiresOnce(p: Pad, s1: Sample, s2: Sample, hasMap: bool)
    requires s1.padConnected && s2.padConnected && s1.zoomIn && s2.zoomIn
    ensures var r1 := PollGamepad(p, s1, true, hasMap);
      ZoomInFactor !in PollGamepad(r1.pad, s2, true, hasMap).zooms
  {
  }

  /** Repeating the sample just sent sends nothing more. */
  lemma SteadyStickIsQuiet(p: Pad, s: Sample, hasMap: bool)
    requires s.padConnected
    ensures var r1 := PollGamepad(p, s, true, hasMap);
      PollGamepad(r1.pad, s, true, hasMap).sent.None?
  {
  }

  /** A stick resting inside the dead zone after a movement sends all zeros once. */
  lemma ReleaseSendsZero(p: Pad, s: Sample, hasMap: bool)
    requires s.padConnected && Abs(s.stick.lx) < PadDeadZone && Abs(s.stick.ly) < PadDeadZone && Abs(s.stick.rx) < PadDeadZone
    requires Abs(p.last.lx) >= SendEpsilon
    ensures PollGamepad(p, s, true, hasMap).sent == Some(Axes(0.0, 0.0, 0.0))
  {
  }

  /** Zooming in from the maximum stays there; zooming out from the minimum stays there. */
  lemma ZoomSaturates()
    ensures AdjustZoom(MaxZoom, ZoomInFactor) == MaxZoom
    ensures AdjustZoom(MinZoom, ZoomOutFactor) == MinZoom
  {
  }
}
