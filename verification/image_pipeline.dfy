/**
 * The per-frame decisions of the image channel: re-pick the detection closest to the
 * frame centre, fold the vision result into the sensor record, steer the robot (with a
 * warm-up STOP after a person appears and a single STOP when the person is lost), and
 * call the LLM at most every 2000 ms while a person is seen.
 */
module ImagePipeline {
  import opened Wrappers
  import opened Json
  import opened JavaText
  import opened SensorState
  import opened StateUpdater
  import opened FollowController
  import opened Messages
  import opened PromptRules

  const DefaultFrameW: int := 640
  const DefaultFrameH: int := 480
  const FollowWarmupMs: int := 800
  const LlmCooldownMs: int := 2000
  const LlmTrigger: string := "VISION_PERSON_TRUE"

  // ----- re-picking the centre-most detection -----

  /** The candidate list: the first of `all`, `boxes`, `dets` that holds an array, even an empty one. */
  function Candidates(yolo: Object): Option<seq<Json>> {
    if HasArray(yolo, "all") then Some(yolo["all"].items)
    else if HasArray(yolo, "boxes") then Some(yolo["boxes"].items)
    else if HasArray(yolo, "dets") then Some(yolo["dets"].items)
    else None
  }

  /** A candidate the loop looks at: an object whose `xyxy` array has at least four entries. */
  predicate Shaped(det: Json) {
    det.JObj? && HasArray(det.fields, "xyxy") && |det.fields["xyxy"].items| >= 4
  }

  function X1(det: Json): Option<real>
    requires Shaped(det)
  {
    AsDouble(det.fields["xyxy"].items[0])
  }

  function X2(det: Json): Option<real>
    requires Shaped(det)
  {
    AsDouble(det.fields["xyxy"].items[2])
  }

  /** A shaped candidate whose x1 or x2 has no numeric value: `getAsDouble` throws. */
  predicate Unreadable(det: Json) {
    Shaped(det) && (X1(det).None? || X2(det).None?)
  }

  /** A candidate that competes: shaped, readable, and with x2 > x1. */
  predicate Valid(det: Json) {
    Shaped(det) && X1(det).Some? && X2(det).Some? && X2(det).value > X1(det).value
  }

  function Abs(x: real): real {
    if x < 0.0 then -x else x
  }

  /** Horizontal distance of the box centre from the frame centre. */
  function Dist(det: Json, frameW: int): real
    requires Valid(det)
  {
    Abs((X1(det).value + X2(det).value) / 2.0 - frameW as real / 2.0)
  }

  /** Candidate `i` is the first of `c[..n]` whose distance is minimal among the valid ones. */
  predicate ClosestFirst(c: seq<Json>, w: int, i: int, n: int)
    requires n <= |c|
  {
    0 <= i < n && Valid(c[i])
    && (forall j :: 0 <= j < n && Valid(c[j]) ==> Dist(c[i], w) <= Dist(c[j], w))
    && (forall j :: 0 <= j < i && Valid(c[j]) ==> Dist(c[i], w) < Dist(c[j], w))
  }

  predicate NoneValid(c: seq<Json>, n: int)
    requires n <= |c|
  {
    forall j :: 0 <= j < n ==> !Valid(c[j])
  }

  predicate SomeUnreadable(c: seq<Json>, from: int)
  {
    exists j :: from <= j < |c| && 0 <= j && Unreadable(c[j])
  }

  datatype Pick = Picked(index: nat) | NoCandidate | PickThrew

  /** The selection loop from index `i`, with the best candidate of `c[..i]` so far (strict `<` keeps the first). */
  function PickFrom(c: seq<Json>, w: int, i: nat, best: Option<nat>): (r: Pick)
    requires i <= |c|
    requires best.Some? ==> ClosestFirst(c, w, best.value, i)
    requires best.None? ==> NoneValid(c, i)
    ensures r.PickThrew? <==> SomeUnreadable(c, i)
    ensures r.Picked? ==> ClosestFirst(c, w, r.index, |c|)
    ensures r.NoCandidate? ==> NoneValid(c, |c|)
    decreases |c| - i
  {
    if i == |c| then
      if best.None? then NoCandidate else Picked(best.value)
    else if Unreadable(c[i]) then PickThrew
    else if Valid(c[i]) && (best.None? || Dist(c[i], w) < Dist(c[best.value], w)) then
      PickFrom(c, w, i + 1, Some(i))
    else
      PickFrom(c, w, i + 1, best)
  }

  /**
   * The loop over a whole candidate list: it throws iff some shaped candidate is unreadable;
   * otherwise it picks the first valid candidate nearest the centre, or nothing when none is valid.
   */
  function CenterMost(c: seq<Json>, w: int): (r: Pick)
    ensures r.PickThrew? <==> SomeUnreadable(c, 0)
    ensures r.Picked? ==> ClosestFirst(c, w, r.index, |c|)
    ensures r.NoCandidate? <==> !SomeUnreadable(c, 0) && NoneValid(c, |c|)
  {
    PickFrom(c, w, 0, None)
  }

  predicate PersonTrue(yolo: Object) {
    "person" in yolo && AsBool(yolo["person"]) == Some(true)
  }

  predicate PersonUnreadable(yolo: Object) {
    "person" in yolo && AsBool(yolo["person"]).None?
  }

  /**
   * `rewriteBestToCenterMost`: `None` when Gson throws. Only `best` may change, and only
   * to the centre-most valid candidate of a non-empty list while a person is reported.
   */
  function RewriteBest(yolo: Object, frameW: int): (r: Option<Object>)
    ensures r.None? <==> (PersonUnreadable(yolo)
      || (PersonTrue(yolo) && Candidates(yolo).Some? && SomeUnreadable(Candidates(yolo).value, 0)))
    ensures !PersonTrue(yolo) && r.Some? ==> r.value == yolo
    ensures r.Some? && r.value != yolo ==>
      PersonTrue(yolo) && Candidates(yolo).Some?
      && var c := Candidates(yolo).value;
         CenterMost(c, frameW).Picked? && r.value == yolo["best" := c[CenterMost(c, frameW).index]]
    ensures PersonTrue(yolo) && Candidates(yolo).Some? && CenterMost(Candidates(yolo).value, frameW).Picked? ==>
      var c := Candidates(yolo).value;
      r == Some(yolo["best" := c[CenterMost(c, frameW).index]])
  {
    if "person" !in yolo then Some(yolo)
    else match AsBool(yolo["person"])
      case None => None
      case Some(false) => Some(yolo)
      case Some(true) =>
        match Candidates(yolo)
        case None => Some(yolo)
        case Some(c) =>
          if |c| == 0 then Some(yolo)
          else match CenterMost(c, frameW)
            case PickThrew => None
            case NoCandidate => Some(yolo)
            case Picked(i) => Some(yolo["best" := c[i]])
  }

  // ----- the per-frame step -----

  /** The image channel's own fields (the follow controller it owns included). */
  datatype Pipeline = Pipeline(ctl: Controller, lastPerson: bool, personBecameTrueAtMs: int, lastLlmCallAtMs: int)

  const InitialPipeline: Pipeline := Pipeline(NewController(DefaultFrameW, DefaultFrameH), false, 0, 0)

  /** Phase rule of the LLM call: SEARCHING without person or speech, CONFIRMED_CONTACT with person only, else RESCUE_GUIDE. */
  function LlmPhase(st: State): (r: Phase)
    ensures r == Searching <==> st.visionPerson != Some(true) && (st.lastStt.None? || IsBlank(st.lastStt.value))
    ensures r == ConfirmedContact <==> st.visionPerson == Some(true) && (st.lastStt.None? || IsBlank(st.lastStt.value))
    ensures r == RescueGuide <==> st.lastStt.Some? && !IsBlank(st.lastStt.value)
  {
    var speech := st.lastStt.Some? && !IsBlank(st.lastStt.value);
    var person := st.visionPerson == Some(true);
    if !person && !speech then Searching
    else if person && !speech then ConfirmedContact
    else RescueGuide
  }

  /** `{type:VISION, path, ts, yolo}` as the channel builds it. */
  function VisionEventJson(path: string, now: int, yolo: Object): Json {
    JObj(map["type" := JStr("VISION"), "path" := JStr(path), "ts" := IntNum(now), "yolo" := JObj(yolo)])
  }

  /** Robot commands of one frame and the controller after it; `FollowThrew` when `decide` throws. */
  datatype Follow = Follow(cmds: seq<Command>, ctl: Controller) | FollowThrew(ctl: Controller)

  /**
   * The follow block: while a person is seen, STOP during the warm-up and the throttled
   * decision after it; on losing the person, STOP once.
   */
  function FollowStep(person: bool, lastPerson: bool, becameTrueAtMs: int, yolo: Object, ctl: Controller, now: int): (r: Follow)
    ensures person && now - becameTrueAtMs < FollowWarmupMs ==> r == Follow([Stop], ctl)
    ensures !person ==> r == Follow(if lastPerson then [Stop] else [], ctl)
    ensures r.Follow? ==> |r.cmds| <= 1
    ensures person && now - becameTrueAtMs >= FollowWarmupMs ==>
      var t := DecideThrottled(Some(yolo), ctl, now);
      (r.FollowThrew? <==> t.ThrottleThrew?) && r.ctl == t.ctl
      && (t.Throttled? ==> r.cmds == (if t.cmd.Some? then [t.cmd.value] else []))
  {
    if person then
      if now - becameTrueAtMs < FollowWarmupMs then Follow([Stop], ctl)
      else match DecideThrottled(Some(yolo), ctl, now)
        case ThrottleThrew(c) => FollowThrew(c)
        case Throttled(cmd, c) => Follow(if cmd.Some? then [cmd.value] else [], c)
    else Follow(if lastPerson then [Stop] else [], ctl)
  }

  function ToRobotCmds(cmds: seq<Command>): (r: seq<Outbound>)
    ensures |r| == |cmds|
    ensures forall k :: 0 <= k < |r| ==> r[k] == ToRobot(Cmd(cmds[k]))
  {
    if cmds == [] then [] else [ToRobot(Cmd(cmds[0]))] + ToRobotCmds(cmds[1..])
  }

  /** The LLM block: its new call time, the record, the console messages, and the phase asked under (if asked). */
  datatype LlmOut = LlmOut(lastLlmCallAtMs: int, state: State, sent: seq<Outbound>, asked: Option<Phase>)

  function LlmStep(person: bool, lastLlmCallAtMs: int, st: State, now: int, llm: Reply<string>): (r: LlmOut)
    ensures r.asked.Some? <==> person && now - lastLlmCallAtMs >= LlmCooldownMs
    ensures r.asked.Some? ==> r.lastLlmCallAtMs == now && r.asked.value == LlmPhase(st) && |r.sent| == 1
    ensures r.asked.None? ==> r == LlmOut(lastLlmCallAtMs, st, [], None)
    ensures llm.Answered? && r.asked.Some? ==>
      r.state == SetLastLlmRaw(st, Some(llm.value)) && r.sent == [ToGui(LlmEvent(now, LlmTrigger, llm.value))]
    ensures llm.Failed? ==> r.state == st
    ensures llm.Failed? && r.asked.Some? ==> r.sent == [ToGui(LlmFailed(llm.message))]
  {
    if person && now - lastLlmCallAtMs >= LlmCooldownMs then
      match llm
      case Answered(raw) => LlmOut(now, SetLastLlmRaw(st, Some(raw)), [ToGui(LlmEvent(now, LlmTrigger, raw))], Some(LlmPhase(st)))
      case Failed(msg) => LlmOut(now, st, [ToGui(LlmFailed(msg))], Some(LlmPhase(st)))
    else LlmOut(lastLlmCallAtMs, st, [], None)
  }

  /**
   * The result of one frame: the channel's fields, the shared record, the messages handed
   * to the send primitives in order, the phase of the LLM call (if one was made), and
   * whether an exception ended the connection.
   */
  datatype FrameResult = FrameResult(pipe: Pipeline, state: State, sent: seq<Outbound>, asked: Option<Phase>, ends: bool)

  /** The frame's width as decoded (640 when the image could not be read). */
  function FrameWidth(frameSize: Option<(int, int)>): int {
    if frameSize.Some? then frameSize.value.0 else DefaultFrameW
  }

  /** The controller after `updateFrameSize` with the decoded image's size; unchanged when it could not be read. */
  function Resized(c: Controller, frameSize: Option<(int, int)>): Controller {
    if frameSize.Some? then UpdateFrameSize(c, frameSize.value.0, frameSize.value.1) else c
  }

  /**
   * One iteration of the image loop after a frame was read. `frameSize` is the decoded
   * image's size, `vision` the inference outcome, `llm` what the LLM call would return.
   */
  function ProcessFrame(p: Pipeline, st: State, now: int, frameSize: Option<(int, int)>, path: string,
                        vision: Reply<Object>, llm: Reply<string>): (r: FrameResult)
    ensures vision.Failed? ==> !r.ends && r.state == st && r.sent == [ToGui(VisionFailed(path))] && r.asked.None?
    ensures vision.Failed? ==> r.pipe.ctl == Resized(p.ctl, frameSize)
    ensures r.ends ==> r.sent == [] && r.asked.None?
    ensures vision.Answered? && !r.ends ==> r.pipe.lastPerson == PersonTrue(vision.value)
    ensures vision.Answered? && !r.ends ==>
      ((exists k :: 0 <= k < |r.sent| && r.sent[k].ToGui? && r.sent[k].payload.VisionEvent?) <==> PersonTrue(vision.value))
  {
    var ctl := Resized(p.ctl, frameSize);
    var p1 := p.(ctl := ctl);
    match vision
    case Failed(_) => FrameResult(p1, st, [ToGui(VisionFailed(path))], None, false)
    case Answered(yolo0) =>
      match RewriteBest(yolo0, FrameWidth(frameSize))
      case None => FrameResult(p1, st, [], None, true)
      case Some(yolo) =>
        RewriteKeepsPerson(yolo0, FrameWidth(frameSize));
        match ApplyJson(Some(VisionEventJson(path, now, yolo)), st, now)
        case Threw(st1) => FrameResult(p1, st1, [], None, true)
        case Ok(st1) =>
          var person := PersonTrue(yolo);
          var became := if person && !p.lastPerson then now else p.personBecameTrueAtMs;
          match FollowStep(person, p.lastPerson, became, yolo, ctl, now)
          case FollowThrew(c) => FrameResult(p1.(ctl := c, personBecameTrueAtMs := became), st1, [], None, true)
          case Follow(cmds, c) =>
            var l := LlmStep(person, p.lastLlmCallAtMs, st1, now, llm);
            var vis := if person then [ToGui(VisionEvent(path, now, yolo))] else [];
            var out := ToRobotCmds(cmds) + l.sent + vis;
            assert person ==> out[|out| - 1].payload.VisionEvent?;
            FrameResult(Pipeline(c, person, became, l.lastLlmCallAtMs), l.state, out, l.asked, false)
  }

  // ----- properties -----

  /** A vision failure reports `yolo_infer_failed` to the console and changes nothing else but the frame size. */
  lemma VisionFailureContinues(p: Pipeline, st: State, now: int, size: Option<(int, int)>, path: string, msg: string, llm: Reply<string>)
    ensures var r := ProcessFrame(p, st, now, size, path, Failed(msg), llm);
      !r.ends && r.state == st && r.sent == [ToGui(VisionFailed(path))] && r.asked.None?
      && r.pipe.lastPerson == p.lastPerson && r.pipe.personBecameTrueAtMs == p.personBecameTrueAtMs
      && r.pipe.lastLlmCallAtMs == p.lastLlmCallAtMs
      && r.pipe.ctl.lastCmd == p.ctl.lastCmd && r.pipe.ctl.lastCmdAt == p.ctl.lastCmdAt
      && r.pipe.ctl == Resized(p.ctl, size)
  {
  }

  /**
   * The decoded image's size reaches the follow controller before the decision: once a
   * person has been tracked past the warm-up, the robot is sent exactly the throttled
   * decision of the resized controller, and without a reported `w`/`h` the controller
   * keeps the decoded size.
   */
  lemma FollowUsesFrameSize(p: Pipeline, st: State, now: int, w: int, h: int, path: string,
                            yolo0: Object, llm: Reply<string>)
    requires p.lastPerson && now - p.personBecameTrueAtMs >= FollowWarmupMs
    requires PersonTrue(yolo0)
    ensures var r := ProcessFrame(p, st, now, Some((w, h)), path, Answered(yolo0), llm);
      var yolo := RewriteBest(yolo0, w);
      var t := DecideThrottled(yolo, UpdateFrameSize(p.ctl, w, h), now);
      !r.ends ==>
        && yolo.Some? && t.Throttled? && r.pipe.ctl == t.ctl
        && var cmds := if t.cmd.Some? then [t.cmd.value] else [];
           |cmds| <= |r.sent| && r.sent[..|cmds|] == ToRobotCmds(cmds)
    ensures var r := ProcessFrame(p, st, now, Some((w, h)), path, Answered(yolo0), llm);
      w > 0 && h > 0 && "w" !in yolo0 && "h" !in yolo0 && !r.ends ==> r.pipe.ctl.imgW == w && r.pipe.ctl.imgH == h
  {
    var r := ProcessFrame(p, st, now, Some((w, h)), path, Answered(yolo0), llm);
    var c := UpdateFrameSize(p.ctl, w, h);
    assert Resized(p.ctl, Some((w, h))) == c;
    if !r.ends {
      var yolo := RewriteBest(yolo0, w).value;
      RewriteKeepsPerson(yolo0, w);
      assert FrameWidth(Some((w, h))) == w;
      var st1 := ApplyJson(Some(VisionEventJson(path, now, yolo)), st, now);
      assert st1.Ok?;
      var f := FollowStep(true, true, p.personBecameTrueAtMs, yolo, c, now);
      assert f.Follow?;
      var t := DecideThrottled(Some(yolo), c, now);
      assert r.pipe.ctl == f.ctl == t.ctl;
      if "w" !in yolo0 && "h" !in yolo0 {
        assert "w" !in yolo && "h" !in yolo;
        assert ApplyReportedSize(yolo, c) == Some(c);
      }
    }
  }

  /** The rewrite leaves `person` alone. */
  lemma RewriteKeepsPerson(yolo: Object, w: int)
    requires RewriteBest(yolo, w).Some?
    ensures PersonTrue(RewriteBest(yolo, w).value) == PersonTrue(yolo)
  {
  }

  /** A frame that completes records its person flag as `lastPerson`. */
  lemma LastPersonTracksFrame(p: Pipeline, st: State, now: int, size: Option<(int, int)>, path: string, yolo: Object, llm: Reply<string>)
    ensures var r := ProcessFrame(p, st, now, size, path, Answered(yolo), llm);
      !r.ends ==> r.pipe.lastPerson == PersonTrue(yolo)
  {
    var r := ProcessFrame(p, st, now, size, path, Answered(yolo), llm);
    if !r.ends {
      RewriteKeepsPerson(yolo, FrameWidth(size));
    }
  }

  /** On a false→true edge the warm-up starts now, and the robot gets exactly one STOP. */
  lemma PersonAppearsStops(p: Pipeline, st: State, now: int, size: Option<(int, int)>, path: string, yolo: Object, llm: Reply<string>)
    requires PersonTrue(yolo) && !p.lastPerson
    ensures var r := ProcessFrame(p, st, now, size, path, Answered(yolo), llm);
      !r.ends ==> r.pipe.personBecameTrueAtMs == now && RobotBound(r.sent) == [Cmd(Stop)]
  {
    var r := ProcessFrame(p, st, now, size, path, Answered(yolo), llm);
    if !r.ends {
      var yolo1 := RewriteBest(yolo, FrameWidth(size)).value;
      RewriteKeepsPerson(yolo, FrameWidth(size));
      OnlyRobotCommands([Stop], r.sent);
    }
  }

  /** During the warm-up the controller is not consulted: the robot gets exactly one STOP. */
  lemma WarmupStops(p: Pipeline, st: State, now: int, size: Option<(int, int)>, path: string, yolo: Object, llm: Reply<string>)
    requires PersonTrue(yolo) && p.lastPerson && now - p.personBecameTrueAtMs < FollowWarmupMs
    ensures var r := ProcessFrame(p, st, now, size, path, Answered(yolo), llm);
      !r.ends ==> RobotBound(r.sent) == [Cmd(Stop)] && r.pipe.ctl.lastCmd == p.ctl.lastCmd
  {
    var r := ProcessFrame(p, st, now, size, path, Answered(yolo), llm);
    if !r.ends {
      RewriteKeepsPerson(yolo, FrameWidth(size));
      OnlyRobotCommands([Stop], r.sent);
    }
  }

  /** Losing the person sends exactly one STOP; no person on either frame sends nothing to the robot. */
  lemma PersonLostStopsOnce(p: Pipeline, st: State, now: int, size: Option<(int, int)>, path: string, yolo: Object, llm: Reply<string>)
    requires !PersonTrue(yolo)
    ensures var r := ProcessFrame(p, st, now, size, path, Answered(yolo), llm);
      !r.ends ==> RobotBound(r.sent) == (if p.lastPerson then [Cmd(Stop)] else []) && r.sent == ToRobotCmds(if p.lastPerson then [Stop] else [])
  {
    var r := ProcessFrame(p, st, now, size, path, Answered(yolo), llm);
    if !r.ends {
      RewriteKeepsPerson(yolo, FrameWidth(size));
      OnlyRobotCommands(if p.lastPerson then [Stop] else [], r.sent);
    }
  }

  /** The robot-bound part of a frame's output is its command list. */
  lemma {:induction false} RobotBoundOfCmds(cmds: seq<Command>)
    ensures RobotBound(ToRobotCmds(cmds)) == seq(|cmds|, k requires 0 <= k < |cmds| => Cmd(cmds[k]))
    ensures GuiBound(ToRobotCmds(cmds)) == []
  {
    if cmds != [] {
      RobotBoundOfCmds(cmds[1..]);
      assert ToRobotCmds(cmds)[1..] == ToRobotCmds(cmds[1..]);
    }
  }

  /** Used by the edge lemmas: a frame's output is its commands followed by console messages only. */
  lemma OnlyRobotCommands(cmds: seq<Command>, sent: seq<Outbound>)
    requires |cmds| <= |sent| && sent[..|cmds|] == ToRobotCmds(cmds)
    requires forall k :: |cmds| <= k < |sent| ==> sent[k].ToGui?
    ensures RobotBound(sent) == seq(|cmds|, k requires 0 <= k < |cmds| => Cmd(cmds[k]))
  {
    var g := sent[|cmds|..];
    assert sent == ToRobotCmds(cmds) + g;
    RobotBoundAppend(ToRobotCmds(cmds), g);
    RobotBoundOfCmds(cmds);
    NoRobotIn(g);
  }

  /** The LLM is asked exactly when a completed frame sees a person and 2000 ms have passed since the last call. */
  lemma LlmGate(p: Pipeline, st: State, now: int, size: Option<(int, int)>, path: string, yolo: Object, llm: Reply<string>)
    ensures var r := ProcessFrame(p, st, now, size, path, Answered(yolo), llm);
      !r.ends ==> (r.asked.Some? <==> PersonTrue(yolo) && now - p.lastLlmCallAtMs >= LlmCooldownMs)
  {
    var r := ProcessFrame(p, st, now, size, path, Answered(yolo), llm);
    if !r.ends {
      RewriteKeepsPerson(yolo, FrameWidth(size));
    }
  }

  /** On this path the LLM is never asked in the SEARCHING phase: the vision event just stored the person. */
  lemma NeverSearchingWhenAsked(p: Pipeline, st: State, now: int, size: Option<(int, int)>, path: string, yolo: Object, llm: Reply<string>)
    ensures var r := ProcessFrame(p, st, now, size, path, Answered(yolo), llm);
      r.asked.Some? ==> r.asked.value != Searching
  {
    var r := ProcessFrame(p, st, now, size, path, Answered(yolo), llm);
    if r.asked.Some? {
      var yolo1 := RewriteBest(yolo, FrameWidth(size)).value;
      var evt := VisionEventJson(path, now, yolo1);
      assert evt.fields["type"] == JStr("VISION");
      var st1 := ApplyJson(Some(evt), st, now).state;
      assert ApplyJson(Some(evt), st, now) == ApplyVision(evt.fields, st, now);
      assert HasObject(evt.fields, "yolo") && evt.fields["yolo"].fields == yolo1;
      assert st1.visionPerson == Some(true);
    }
  }

  /** The VISION event reaches the console exactly when a completed frame sees a person. */
  lemma VisionForwardedIffPerson(p: Pipeline, st: State, now: int, size: Option<(int, int)>, path: string, yolo: Object, llm: Reply<string>)
    ensures var r := ProcessFrame(p, st, now, size, path, Answered(yolo), llm);
      !r.ends ==> ((exists k :: 0 <= k < |r.sent| && r.sent[k].ToGui? && r.sent[k].payload.VisionEvent?) <==> PersonTrue(yolo))
  {
    var r := ProcessFrame(p, st, now, size, path, Answered(yolo), llm);
    if !r.ends {
      RewriteKeepsPerson(yolo, FrameWidth(size));
      if PersonTrue(yolo) {
        assert r.sent[|r.sent| - 1].payload.VisionEvent?;
      }
    }
  }
}
