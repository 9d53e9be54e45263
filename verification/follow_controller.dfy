/**
 * The follow controller: maps a vision result and the frame size to one of
 * FORWARD, LEFT, RIGHT, STOP, and suppresses repeating the same command within 250 ms.
 * Coordinates are reals; the double rounding of the Java arithmetic is not modelled.
 */
module FollowController {
  import opened Wrappers
  import opened Json

  datatype Command = Forward | Left | Right | Stop

  /** A centre offset within ±12 % of the half-width counts as straight ahead. */
  const CenterDeadband: real := 0.12
  /** A box covering 20 % of the frame or more means the person is close enough to stop. */
  const StopAreaRatio: real := 0.20
  /** The same command is not repeated within this many milliseconds. */
  const CmdCooldownMs: int := 250

  datatype Controller = Controller(imgW: int, imgH: int, lastCmd: Command, lastCmdAt: int)

  /** A new controller for a frame of the given size; no command emitted yet (last STOP at time 0). */
  function NewController(w: int, h: int): (c: Controller)
    ensures c.lastCmd == Stop && c.lastCmdAt == 0 && c.imgW == w && c.imgH == h
  {
    Controller(w, h, Stop, 0)
  }

  /** `updateFrameSize`: adopts the observed size only when both sides are positive. */
  function UpdateFrameSize(c: Controller, w: int, h: int): (r: Controller)
    ensures w > 0 && h > 0 ==> r.imgW == w && r.imgH == h
    ensures !(w > 0 && h > 0) ==> r == c
    ensures r.lastCmd == c.lastCmd && r.lastCmdAt == c.lastCmdAt
  {
    if w > 0 && h > 0 && (c.imgW != w || c.imgH != h) then c.(imgW := w, imgH := h) else c
  }

  /** A box with positive extent in a frame with positive size. */
  predicate WellFormed(x1: real, y1: real, x2: real, y2: real, w: int, h: int) {
    x1 < x2 && y1 < y2 && w > 0 && h > 0
  }

  /** Share of the frame the box covers. */
  function AreaRatio(x1: real, y1: real, x2: real, y2: real, w: int, h: int): real
    requires WellFormed(x1, y1, x2, y2, w, h)
  {
    ((x2 - x1) * (y2 - y1)) / (w as real * h as real)
  }

  /** Horizontal offset of the box centre from the frame centre, in half-widths (negative: left). */
  function CenterOffset(x1: real, x2: real, w: int): real
    requires w > 0
  {
    ((x1 + x2) / 2.0 - w as real / 2.0) / (w as real / 2.0)
  }

  /** The geometric part of `decide`, once the four coordinates have been read. */
  function Steer(x1: real, y1: real, x2: real, y2: real, w: int, h: int): (r: Command)
    ensures !WellFormed(x1, y1, x2, y2, w, h) ==> r == Stop
    ensures WellFormed(x1, y1, x2, y2, w, h) && AreaRatio(x1, y1, x2, y2, w, h) >= StopAreaRatio ==> r == Stop
    ensures r == Left ==> CenterOffset(x1, x2, w) < -CenterDeadband
    ensures r == Right ==> CenterOffset(x1, x2, w) > CenterDeadband
    ensures r == Forward ==> -CenterDeadband <= CenterOffset(x1, x2, w) <= CenterDeadband
    ensures r == Stop && WellFormed(x1, y1, x2, y2, w, h) ==> AreaRatio(x1, y1, x2, y2, w, h) >= StopAreaRatio
  {
    if x2 <= x1 || y2 <= y1 then Stop
    else if w <= 0 || h <= 0 then Stop
    else if AreaRatio(x1, y1, x2, y2, w, h) >= StopAreaRatio then Stop
    else
      var offset := CenterOffset(x1, x2, w);
      if offset < -CenterDeadband then Left
      else if offset > CenterDeadband then Right
      else Forward
  }

  /** What `decide` produced: a command and the controller after any frame-size update, or a throw. */
  datatype Decision = Decided(cmd: Command, ctl: Controller) | DecideThrew(ctl: Controller)

  /** Reads a box's four coordinates; `None` when one of them has no numeric value (Gson throws). */
  function Coordinates(xyxy: seq<Json>): Option<(real, real, real, real)>
    requires |xyxy| >= 4
  {
    var x1 :- AsDouble(xyxy[0]);
    var y1 :- AsDouble(xyxy[1]);
    var x2 :- AsDouble(xyxy[2]);
    var y2 :- AsDouble(xyxy[3]);
    Some((x1, y1, x2, y2))
  }

  /** The box of `best`, when the result names a person and a box of at least four entries. */
  predicate HasBox(o: Object) {
    HasObject(o, "best") && HasArray(o["best"].fields, "xyxy") && |o["best"].fields["xyxy"].items| >= 4
  }

  function Box(o: Object): seq<Json>
    requires HasBox(o)
  {
    o["best"].fields["xyxy"].items
  }

  /** The frame size carried in the result, when `w` and `h` are both present. */
  function ApplyReportedSize(o: Object, c: Controller): Option<Controller> {
    if "w" in o && "h" in o then
      match (AsInt(o["w"]), AsInt(o["h"]))
      case (Some(w), Some(h)) => Some(UpdateFrameSize(c, w, h))
      case _ => None
    else Some(c)
  }

  /** `decide` throws on an unreadable `w`/`h`, an unreadable `person`, or an unreadable coordinate of a person's box. */
  predicate DecideThrows(o: Object, c: Controller) {
    || ApplyReportedSize(o, c).None?
    || ("person" in o && AsBool(o["person"]).None?)
    || ("person" in o && AsBool(o["person"]) == Some(true) && HasBox(o) && Coordinates(Box(o)).None?)
  }

  /** `decide`: STOP unless a person with a usable box is reported; `w`/`h` update the size first. */
  function Decide(yolo: Option<Object>, c: Controller): (r: Decision)
    ensures yolo.None? ==> r == Decided(Stop, c)
    ensures r.ctl.lastCmd == c.lastCmd && r.ctl.lastCmdAt == c.lastCmdAt
    ensures yolo.Some? ==> (r.DecideThrew? <==> DecideThrows(yolo.value, c))
    ensures yolo.Some? ==> r.ctl == ApplyReportedSize(yolo.value, c).GetOr(c)
    ensures r.Decided? && yolo.Some? && !HasBox(yolo.value) ==> r.cmd == Stop
    ensures r.Decided? && yolo.Some? && ("person" !in yolo.value || AsBool(yolo.value["person"]) == Some(false)) ==> r.cmd == Stop
    ensures r.Decided? && yolo.Some? && "person" in yolo.value && AsBool(yolo.value["person"]) == Some(true) && HasBox(yolo.value) ==>
      var b := Coordinates(Box(yolo.value)).value;
      r.cmd == Steer(b.0, b.1, b.2, b.3, r.ctl.imgW, r.ctl.imgH)
  {
    match yolo
    case None => Decided(Stop, c)
    case Some(o) =>
      match ApplyReportedSize(o, c)
      case None => DecideThrew(c)
      case Some(c1) =>
        if "person" !in o then Decided(Stop, c1)
        else match AsBool(o["person"])
          case None => DecideThrew(c1)
          case Some(false) => Decided(Stop, c1)
          case Some(true) =>
            if !HasBox(o) then Decided(Stop, c1)
            else match Coordinates(Box(o))
              case None => DecideThrew(c1)
              case Some((x1, y1, x2, y2)) => Decided(Steer(x1, y1, x2, y2, c1.imgW, c1.imgH), c1)
  }

  /** A result naming a person with box `xyxy` and frame size `w` x `h`. */
  function PersonResult(xyxy: seq<Json>, w: Json, h: Json): Object {
    map["person" := JBool(true), "best" := JObj(map["xyxy" := JArr(xyxy)]), "w" := w, "h" := h]
  }

  /** For a person with a numeric box and a readable size, `decide` resizes the controller and steers by the box. */
  lemma DecideOnPersonResult(x1: real, y1: real, x2: real, y2: real, l: seq<string>, wj: Json, hj: Json, w: int, h: int, c: Controller)
    requires |l| == 4 && AsInt(wj) == Some(w) && AsInt(hj) == Some(h)
    ensures var xyxy := [JNum(x1, l[0]), JNum(y1, l[1]), JNum(x2, l[2]), JNum(y2, l[3])];
      var c1 := UpdateFrameSize(c, w, h);
      Decide(Some(PersonResult(xyxy, wj, hj)), c) == Decided(Steer(x1, y1, x2, y2, c1.imgW, c1.imgH), c1)
  {
    var xyxy := [JNum(x1, l[0]), JNum(y1, l[1]), JNum(x2, l[2]), JNum(y2, l[3])];
    var o := PersonResult(xyxy, wj, hj);
    assert ApplyReportedSize(o, c) == Some(UpdateFrameSize(c, w, h));
    assert HasBox(o) && Box(o) == xyxy;
  }

  /**
   * For a person with a numeric box, `decide` resizes the controller to the reported frame and
   * steers by the box; the size may be sent as a number or as its decimal text.
   */
  lemma DecideFollowsBox(x1: real, y1: real, x2: real, y2: real, w: int, h: int, l: seq<string>, c: Controller)
    requires |l| == 4
    ensures var xyxy := [JNum(x1, l[0]), JNum(y1, l[1]), JNum(x2, l[2]), JNum(y2, l[3])];
      var c1 := UpdateFrameSize(c, w, h);
      && Decide(Some(PersonResult(xyxy, IntNum(w), IntNum(h))), c) == Decided(Steer(x1, y1, x2, y2, c1.imgW, c1.imgH), c1)
      && Decide(Some(PersonResult(xyxy, JStr(IntNum(w).lexeme), JStr(IntNum(h).lexeme))), c)
         == Decided(Steer(x1, y1, x2, y2, c1.imgW, c1.imgH), c1)
  {
    assert TruncateToInt(w as real) == w && TruncateToInt(h as real) == h;
    DecideOnPersonResult(x1, y1, x2, y2, l, IntNum(w), IntNum(h), w, h, c);
    ParseLongOfLexeme(w);
    ParseLongOfLexeme(h);
    DecideOnPersonResult(x1, y1, x2, y2, l, JStr(IntNum(w).lexeme), JStr(IntNum(h).lexeme), w, h, c);
  }

  /** What `decideThrottled` produced: a command or `None` (suppressed), or a throw from `decide`. */
  datatype Throttled = Throttled(cmd: Option<Command>, ctl: Controller) | ThrottleThrew(ctl: Controller)

  /** A repeat of the last command within the cooldown is suppressed. */
  predicate Suppressed(cmd: Command, c: Controller, now: int) {
    cmd == c.lastCmd && now - c.lastCmdAt < CmdCooldownMs
  }

  /**
   * `decideThrottled`: `None` exactly when the decided command repeats the last one within
   * 250 ms; otherwise the command is emitted and recorded with its time.
   */
  function DecideThrottled(yolo: Option<Object>, c: Controller, now: int): (r: Throttled)
    ensures var d := Decide(yolo, c);
      && (d.DecideThrew? <==> r.ThrottleThrew?)
      && (d.DecideThrew? ==> r.ctl == d.ctl)
      && (d.Decided? ==>
            && (r.cmd.None? <==> Suppressed(d.cmd, c, now))
            && (r.cmd.None? ==> r.ctl == d.ctl)
            && (r.cmd.Some? ==> r.cmd.value == d.cmd && r.ctl == d.ctl.(lastCmd := d.cmd, lastCmdAt := now)))
  {
    match Decide(yolo, c)
    case DecideThrew(c1) => ThrottleThrew(c1)
    case Decided(cmd, c1) =>
      if cmd == c1.lastCmd && now - c1.lastCmdAt < CmdCooldownMs then Throttled(None, c1)
      else Throttled(Some(cmd), c1.(lastCmd := cmd, lastCmdAt := now))
  }

  // ----- properties -----

  /** 640×480 with box [100,100,200,300]: area ratio ≈ 0.065, offset ≈ −0.53, so LEFT. */
  lemma ExampleLeft()
    ensures Steer(100.0, 100.0, 200.0, 300.0, 640, 480) == Left
  {
    assert AreaRatio(100.0, 100.0, 200.0, 300.0, 640, 480) == 20000.0 / 307200.0;
    assert CenterOffset(100.0, 200.0, 640) == (150.0 - 320.0) / 320.0;
  }

  /** A box covering at least 20 % of the frame stops the robot wherever it sits horizontally. */
  lemma CloseBoxStopsAnywhere(x1: real, y1: real, x2: real, y2: real, w: int, h: int, shift: real)
    requires WellFormed(x1, y1, x2, y2, w, h) && AreaRatio(x1, y1, x2, y2, w, h) >= StopAreaRatio
    ensures Steer(x1 + shift, y1, x2 + shift, y2, w, h) == Stop
  {
    assert (x2 + shift) - (x1 + shift) == x2 - x1;
    assert AreaRatio(x1 + shift, y1, x2 + shift, y2, w, h) == AreaRatio(x1, y1, x2, y2, w, h);
  }

  function Mirror(c: Command): Command {
    match c
    case Left => Right
    case Right => Left
    case other => other
  }

  lemma MirrorOffset(x1: real, x2: real, w: int)
    requires w > 0
    ensures CenterOffset(w as real - x2, w as real - x1, w) == -CenterOffset(x1, x2, w)
  {
    var half := w as real / 2.0;
    assert (w as real - x2 + (w as real - x1)) / 2.0 - half == -((x1 + x2) / 2.0 - half);
  }

  /** Steering is symmetric: the mirror image of the box yields the mirrored command. */
  lemma {:induction false} SteerIsSymmetric(x1: real, y1: real, x2: real, y2: real, w: int, h: int)
    ensures Steer(w as real - x2, y1, w as real - x1, y2, w, h) == Mirror(Steer(x1, y1, x2, y2, w, h))
  {
    if WellFormed(x1, y1, x2, y2, w, h) {
      MirrorOffset(x1, x2, w);
      assert (w as real - x1) - (w as real - x2) == x2 - x1;
      assert AreaRatio(w as real - x2, y1, w as real - x1, y2, w, h) == AreaRatio(x1, y1, x2, y2, w, h);
    }
  }

  /** `w`/`h` in the result take effect before the decision: a stale cached size cannot matter. */
  lemma ReportedSizeWins(o: Object, c: Controller, w: int, h: int, c2: Controller)
    requires "w" in o && "h" in o && AsInt(o["w"]) == Some(w) && AsInt(o["h"]) == Some(h) && w > 0 && h > 0
    requires c2.lastCmd == c.lastCmd && c2.lastCmdAt == c.lastCmdAt
    ensures Decide(Some(o), c) == Decide(Some(o), c2)
  {
    assert UpdateFrameSize(c, w, h) == UpdateFrameSize(c2, w, h);
  }

  /** Two decisions with the same command less than 250 ms apart: the second is suppressed. */
  lemma RepeatWithinCooldownSuppressed(y1: Option<Object>, y2: Option<Object>, c: Controller, t1: int, t2: int)
    requires DecideThrottled(y1, c, t1).Throttled? && DecideThrottled(y1, c, t1).cmd.Some?
    requires t1 <= t2 < t1 + CmdCooldownMs
    requires Decide(y2, DecideThrottled(y1, c, t1).ctl).Decided?
    requires Decide(y2, DecideThrottled(y1, c, t1).ctl).cmd == DecideThrottled(y1, c, t1).cmd.value
    ensures DecideThrottled(y2, DecideThrottled(y1, c, t1).ctl, t2).cmd == None
  {
  }

  /** A changed command is never suppressed, whatever the timing. */
  lemma ChangedCommandPasses(y: Option<Object>, c: Controller, now: int)
    requires Decide(y, c).Decided? && Decide(y, c).cmd != c.lastCmd
    ensures DecideThrottled(y, c, now) == Throttled(Some(Decide(y, c).cmd), Decide(y, c).ctl.(lastCmd := Decide(y, c).cmd, lastCmdAt := now))
  {
  }
}
