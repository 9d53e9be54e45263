/**
 * The dispatcher that turns one LLM decision into console and robot messages.
 * The parse of the raw reply is an input (`Line.parsed`); the log append is reported
 * as the first effect of every call.
 */
module DecisionDispatcher {
  import opened Wrappers
  import opened Json
  import opened JavaText
  import opened Messages

  /** What `getAsString` makes of a member of the decision object. */
  datatype FieldRead = Absent | Text(s: string) | Unreadable

  function ReadField(d: Object, key: string): (r: FieldRead)
    ensures r.Absent? <==> key !in d
    ensures r.Text? ==> key in d && AsString(d[key]) == Some(r.s)
    ensures r.Unreadable? <==> key in d && AsString(d[key]).None?
  {
    if key !in d then Absent
    else match AsString(d[key])
      case Some(s) => Text(s)
      case None => Unreadable
  }

  predicate Speaks(f: FieldRead) {
    f.Text? && !IsBlank(f.s)
  }

  datatype LogRecord = LogRecord(trigger: string, raw: string)

  /** The effects of one `dispatch`: the log record, the sends in order, and whether it ended by throwing. */
  datatype Dispatched = Dispatched(log: LogRecord, sent: seq<Outbound>, threw: bool)

  function GuiPart(f: FieldRead, now: int): (r: seq<Outbound>)
    ensures Speaks(f) ==> r == [ToGui(GuiMessage(f.s, Some(now)))]
    ensures !Speaks(f) ==> r == []
  {
    if Speaks(f) then [ToGui(GuiMessage(f.s, Some(now)))] else []
  }

  function RobotPart(f: FieldRead, now: int): (r: seq<Outbound>)
    ensures Speaks(f) ==> r == [ToRobot(Tts(f.s, Some(now)))]
    ensures !Speaks(f) ==> r == []
  {
    if Speaks(f) then [ToRobot(Tts(f.s, Some(now)))] else []
  }

  /** `dispatch(trigger, rawDecisionJson)` at clock reading `now`. */
  function Dispatch(trigger: string, reply: Line, now: int): (r: Dispatched)
    ensures r.log == LogRecord(trigger, reply.raw)
    ensures reply.parsed.None? || !reply.parsed.value.JObj? ==> r.threw && r.sent == []
    ensures reply.parsed.Some? && reply.parsed.value.JObj? ==>
      var d := reply.parsed.value.fields;
      var g := ReadField(d, "gui_message");
      var t := ReadField(d, "survivor_speech");
      && GuiBound(r.sent) == (if Speaks(g) then [GuiMessage(g.s, Some(now))] else [])
      && RobotBound(r.sent) == (if !g.Unreadable? && Speaks(t) then [Tts(t.s, Some(now))] else [])
      && (r.threw <==> g.Unreadable? || t.Unreadable?)
  {
    var log := LogRecord(trigger, reply.raw);
    if reply.parsed.None? || !reply.parsed.value.JObj? then Dispatched(log, [], true)
    else
      var d := reply.parsed.value.fields;
      var g := ReadField(d, "gui_message");
      if g.Unreadable? then Dispatched(log, [], true)
      else
        var t := ReadField(d, "survivor_speech");
        var gui := GuiPart(g, now);
        if t.Unreadable? then Dispatched(log, gui, true)
        else
          var robot := RobotPart(t, now);
          GuiRobotSplit(gui, robot);
          Dispatched(log, gui + robot, false)
  }

  lemma GuiRobotSplit(gui: seq<Outbound>, robot: seq<Outbound>)
    requires forall i :: 0 <= i < |gui| ==> gui[i].ToGui?
    requires forall i :: 0 <= i < |robot| ==> robot[i].ToRobot?
    requires |gui| <= 1 && |robot| <= 1
    ensures GuiBound(gui + robot) == GuiBound(gui)
    ensures RobotBound(gui + robot) == RobotBound(robot)
    ensures RobotBound(gui) == [] && GuiBound(robot) == []
  {
    GuiBoundAppend(gui, robot);
    RobotBoundAppend(gui, robot);
  }

  // ----- properties -----

  /** At most one message per channel, and none that is not a GUI_MESSAGE or a TTS. */
  lemma AtMostOnePerChannel(trigger: string, reply: Line, now: int)
    ensures var r := Dispatch(trigger, reply, now);
      |r.sent| <= 2
      && (forall i :: 0 <= i < |r.sent| ==> r.sent[i] == ToGui(r.sent[i].payload) ==> r.sent[i].payload.GuiMessage?)
      && (forall i :: 0 <= i < |r.sent| ==> r.sent[i].ToRobot? ==> r.sent[i].payload.Tts?)
  {
  }

  /** An unreadable `gui_message` stops the dispatch before the speech is looked at. */
  lemma UnreadableGuiMessageSilencesSpeech(trigger: string, d: Object, raw: string, now: int)
    requires "gui_message" in d && d["gui_message"] == JNull
    ensures var r := Dispatch(trigger, Line(raw, Some(JObj(d))), now);
      r.threw && r.sent == []
  {
  }
}

/** The background decision tick: gate on a seen person and a one-minute cooldown, ask, stamp, dispatch. */
module DecisionEngine {
  import opened Wrappers
  import opened Json
  import opened JavaText
  import opened SensorState
  import opened PromptRules
  import opened Messages
  import opened DecisionDispatcher

  const CooldownMs: int := 60_000
  const Trigger: string := "VISION_PERSON_TRUE"

  /** The arguments the prompt would be built from (the prompt text itself is not modelled). */
  datatype PromptRequest = PromptRequest(phase: Phase, visionPerson: bool, hasHumanLikeSpeech: bool, gas: Option<real>)

  /** `lastStt != null && !lastStt.isBlank()`. */
  predicate HasSpeech(st: State) {
    st.lastStt.Some? && !IsBlank(st.lastStt.value)
  }

  predicate GateOpen(st: State, now: int) {
    IsVisionPerson(st) && now - st.lastLlmCallAtMs >= CooldownMs
  }

  datatype EngineTick = EngineTick(state: State, asked: Option<PromptRequest>, dispatched: Option<Dispatched>)

  /** `tick`: `ask` is the reply of the agent; a failed call propagates out of the tick. */
  function Tick(st: State, now: int, ask: Reply<Line>): (r: EngineTick)
    ensures r.asked.Some? <==> GateOpen(st, now)
    ensures r.asked.Some? ==> r.asked.value == PromptRequest(ConfirmedContact, true, HasSpeech(st), st.co2)
    ensures !GateOpen(st, now) || ask.Failed? ==> r.state == st && r.dispatched.None?
    ensures GateOpen(st, now) && ask.Answered? ==>
      && r.state.lastLlmCallAtMs == now
      && r.state.lastLlmRaw == Some(ask.value.raw)
      && OnlyChanges(st, r.state, Llm)
      && r.dispatched == Some(Dispatch(Trigger, ask.value, now))
  {
    if !GateOpen(st, now) then EngineTick(st, None, None)
    else
      var req := PromptRequest(ConfirmedContact, true, HasSpeech(st), st.co2);
      match ask
      case Failed(_) => EngineTick(st, Some(req), None)
      case Answered(reply) =>
        var st1 := SetLastLlmRaw(SetLastLlmCallAtMs(st, now), Some(reply.raw));
        EngineTick(st1, Some(req), Some(Dispatch(Trigger, reply, now)))
  }

  /** Once a call completes, every tick in the following minute does nothing. */
  lemma CooldownAfterCall(st: State, now: int, reply: Line, later: int, ask: Reply<Line>)
    requires GateOpen(st, now) && now <= later < now + CooldownMs
    ensures var t1 := Tick(st, now, Answered(reply)).state;
      Tick(t1, later, ask) == EngineTick(t1, None, None)
  {
  }

  /** A failed call leaves the cooldown where it was, so the next tick asks again. */
  lemma FailureRetriesAtOnce(st: State, now: int, msg: string, later: int, ask: Reply<Line>)
    requires GateOpen(st, now) && later >= now
    ensures Tick(st, now, Failed(msg)).state == st
    ensures Tick(Tick(st, now, Failed(msg)).state, later, ask).asked.Some?
  {
  }
}

/** The LLM tick scheduled by the backend's entry point, and its `jstr` helper. */
module MainLoop {
  import opened Wrappers
  import opened Json
  import opened JavaText
  import opened SensorState
  import opened PromptRules
  import opened Messages
  import opened DecisionDispatcher
  import DecisionEngine

  const CooldownMs: int := 60_000

  /** `jstr(o, key)`: the member's string form, or "" when there is none. */
  function JStr(o: Option<Object>, key: string): (r: string)
    ensures o.None? || key !in o.value ==> r == []
    ensures o.Some? && key in o.value && o.value[key].JNull? ==> r == []
    ensures o.Some? && key in o.value && o.value[key].JStr? ==> r == o.value[key].s
    ensures r != [] ==> o.Some? && key in o.value && AsString(o.value[key]) == Some(r)
  {
    if o.None? || key !in o.value || o.value[key].JNull? then []
    else AsString(o.value[key]).GetOr([])
  }

  datatype MainTick = MainTick(state: State, asked: Option<PromptRequest>, sent: seq<Outbound>)

  /** The arguments of the prompt: the phase depends on whether speech was heard. */
  function Request(st: State): (r: DecisionEngine.PromptRequest)
    ensures r.visionPerson && r.gas == st.co2
    ensures r.phase == RescueGuide <==> DecisionEngine.HasSpeech(st)
    ensures r.phase == ConfirmedContact <==> !DecisionEngine.HasSpeech(st)
  {
    DecisionEngine.PromptRequest(
      if DecisionEngine.HasSpeech(st) then RescueGuide else ConfirmedContact,
      true, DecisionEngine.HasSpeech(st), st.co2)
  }

  type PromptRequest = DecisionEngine.PromptRequest

  /** The sends for one parsed reply object: TTS first, then GUI_MESSAGE, each only when non-blank. */
  function ReplySends(obj: Object): (r: seq<Outbound>)
    ensures RobotBound(r) == (if !IsBlank(JStr(Some(obj), "survivor_speech")) then [Tts(JStr(Some(obj), "survivor_speech"), None)] else [])
    ensures GuiBound(r) == (if !IsBlank(JStr(Some(obj), "gui_message")) then [GuiMessage(JStr(Some(obj), "gui_message"), None)] else [])
  {
    var speech := JStr(Some(obj), "survivor_speech");
    var gui := JStr(Some(obj), "gui_message");
    var robot := if !IsBlank(speech) then [ToRobot(Tts(speech, None))] else [];
    var console := if !IsBlank(gui) then [ToGui(GuiMessage(gui, None))] else [];
    RobotBoundAppend(robot, console);
    GuiBoundAppend(robot, console);
    robot + console
  }

  /** The body of the scheduled tick; `ask` is the agent's reply, whose parse (of the trimmed text) is part of it. */
  function Tick(st: State, now: int, ask: Reply<Line>): (r: MainTick)
    ensures r.asked.Some? <==> DecisionEngine.GateOpen(st, now)
    ensures r.asked.Some? ==> r.asked.value == Request(st)
    ensures !DecisionEngine.GateOpen(st, now) ==> r == MainTick(st, None, [])
    ensures DecisionEngine.GateOpen(st, now) ==> r.state == SetLastLlmCallAtMs(st, now)
    ensures ask.Failed? ==> r.sent == []
    ensures ask.Answered? && (ask.value.parsed.None? || !ask.value.parsed.value.JObj?) ==> r.sent == []
    ensures DecisionEngine.GateOpen(st, now) && ask.Answered? && ask.value.parsed.Some? && ask.value.parsed.value.JObj? ==>
      r.sent == ReplySends(ask.value.parsed.value.fields)
  {
    if !DecisionEngine.GateOpen(st, now) then MainTick(st, None, [])
    else
      var st1 := SetLastLlmCallAtMs(st, now);
      match ask
      case Failed(_) => MainTick(st1, Some(Request(st)), [])
      case Answered(reply) =>
        if reply.parsed.None? || !reply.parsed.value.JObj? then MainTick(st1, Some(Request(st)), [])
        else MainTick(st1, Some(Request(st)), ReplySends(reply.parsed.value.fields))
  }

  // ----- properties -----

  /** `jstr` is the dispatcher's field reading with every failure turned into "". */
  lemma JStrIsLenientRead(d: Object, key: string)
    ensures JStr(Some(d), key) == (match ReadField(d, key) case Text(s) => s case _ => [])
  {
  }

  /** Unlike the engine, this tick stamps before asking: a failed call still starts the cooldown. */
  lemma FailureStartsCooldown(st: State, now: int, msg: string, later: int, ask: Reply<Line>)
    requires DecisionEngine.GateOpen(st, now) && now <= later < now + CooldownMs
    ensures Tick(Tick(st, now, Failed(msg)).state, later, ask).asked.None?
    ensures DecisionEngine.Tick(DecisionEngine.Tick(st, now, Failed(msg)).state, later, ask).asked.Some?
  {
  }

  /** Where both fields are readable, this tick and the dispatcher send the same texts on each channel. */
  lemma AgreesWithDispatcher(st: State, now: int, raw: string, d: Object)
    requires DecisionEngine.GateOpen(st, now)
    requires !ReadField(d, "gui_message").Unreadable? && !ReadField(d, "survivor_speech").Unreadable?
    ensures var m := Tick(st, now, Answered(Line(raw, Some(JObj(d))))).sent;
      var e := Dispatch(DecisionEngine.Trigger, Line(raw, Some(JObj(d))), now).sent;
      && Texts(RobotBound(m)) == Texts(RobotBound(e))
      && Texts(GuiBound(m)) == Texts(GuiBound(e))
  {
    var reply := Line(raw, Some(JObj(d)));
    assert Tick(st, now, Answered(reply)).sent == ReplySends(d);
    RobotAgrees(d, reply, now);
    GuiAgrees(d, reply, now);
  }

  lemma RobotAgrees(d: Object, reply: Line, now: int)
    requires reply.parsed == Some(JObj(d))
    requires !ReadField(d, "gui_message").Unreadable? && !ReadField(d, "survivor_speech").Unreadable?
    ensures Texts(RobotBound(ReplySends(d))) == Texts(RobotBound(Dispatch(DecisionEngine.Trigger, reply, now).sent))
  {
    var t := ReadField(d, "survivor_speech");
    var sm := JStr(Some(d), "survivor_speech");
    assert RobotBound(Dispatch(DecisionEngine.Trigger, reply, now).sent) == (if Speaks(t) then [Tts(t.s, Some(now))] else []);
    assert RobotBound(ReplySends(d)) == (if !IsBlank(sm) then [Tts(sm, None)] else []);
    SameText(d, "survivor_speech", now);
    if Speaks(t) {
      OneText(Tts(t.s, None));
      OneText(Tts(t.s, Some(now)));
    }
  }

  lemma GuiAgrees(d: Object, reply: Line, now: int)
    requires reply.parsed == Some(JObj(d)) && !ReadField(d, "gui_message").Unreadable?
    ensures Texts(GuiBound(ReplySends(d))) == Texts(GuiBound(Dispatch(DecisionEngine.Trigger, reply, now).sent))
  {
    var g := ReadField(d, "gui_message");
    var gm := JStr(Some(d), "gui_message");
    assert GuiBound(Dispatch(DecisionEngine.Trigger, reply, now).sent) == (if Speaks(g) then [GuiMessage(g.s, Some(now))] else []);
    assert GuiBound(ReplySends(d)) == (if !IsBlank(gm) then [GuiMessage(gm, None)] else []);
    SameText(d, "gui_message", now);
    if Speaks(g) {
      OneText(GuiMessage(g.s, None));
      OneText(GuiMessage(g.s, Some(now)));
    }
  }

  lemma OneText(p: Payload)
    requires p.Tts? || p.GuiMessage?
    ensures Texts([p]) == [p.text]
  {
  }

  /** One field: the lenient and the strict reading agree on whether and what to send. */
  lemma SameText(d: Object, key: string, now: int)
    requires !ReadField(d, key).Unreadable?
    ensures var f := ReadField(d, key);
      var s := JStr(Some(d), key);
      && (Speaks(f) <==> !IsBlank(s))
      && (Speaks(f) ==> f.s == s)
  {
    JStrIsLenientRead(d, key);
  }

  /** The text of each TTS or GUI_MESSAGE, dropping the timestamp only the dispatcher adds. */
  function Texts(ps: seq<Payload>): seq<string> {
    if ps == [] then []
    else (match ps[0] case Tts(t, _) => [t] case GuiMessage(t, _) => [t] case _ => []) + Texts(ps[1..])
  }
}
