/**
 * The console channel's inbound side: each line the console sends is relayed to the
 * robot verbatim, except a MANUAL_LLM_TRIGGER, which only raises the shared flag.
 */
module GuiChannel {
  import opened Wrappers
  import opened Json
  import opened Messages

  /** How the handler's `try` block ends for one line. */
  datatype Handling = Forwarded | Triggered | Threw

  /**
   * The `try` block: PAD reads `lx`, `ly`, `rx` as numbers and KEY reads `cmd` as a string
   * before forwarding; any failed access (non-JSON, non-object, missing or null `type`,
   * malformed PAD/KEY) throws before anything was sent.
   */
  function Handle(parsed: Option<Json>): (r: Handling)
    ensures parsed.None? || !parsed.value.JObj? || "type" !in parsed.value.fields ==> r == Threw
    ensures r != Threw ==> AsString(parsed.value.fields["type"]).Some?
    ensures r == Triggered <==> r != Threw && AsString(parsed.value.fields["type"]) == Some("MANUAL_LLM_TRIGGER")
  {
    if parsed.None? || !parsed.value.JObj? || "type" !in parsed.value.fields then Threw
    else
      var json := parsed.value.fields;
      match AsString(json["type"])
      case None => Threw
      case Some(t) =>
        if t == "PAD" then
          if "lx" in json && "ly" in json && "rx" in json
             && AsDouble(json["lx"]).Some? && AsDouble(json["ly"]).Some? && AsDouble(json["rx"]).Some?
          then Forwarded else Threw
        else if t == "KEY" then
          if "cmd" in json && AsString(json["cmd"]).Some? then Forwarded else Threw
        else if t == "MANUAL_LLM_TRIGGER" then Triggered
        else Forwarded
  }

  /**
   * `handleGuiConnection`, one line. `flag` is the shared trigger flag (`None`: no flag
   * object was supplied). The catch forwards the raw line too, so a line is relayed once
   * whichever way the `try` block ends, unless it is a trigger.
   */
  function RouteGuiLine(line: Line, flag: Option<bool>): (r: (Option<bool>, seq<Outbound>))
    ensures Handle(line.parsed) == Triggered ==> r.1 == [] && r.0 == (if flag.Some? then Some(true) else None)
    ensures Handle(line.parsed) != Triggered ==> r.1 == [ToRobot(RawLine(line.raw))] && r.0 == flag
  {
    match Handle(line.parsed)
    case Triggered => (if flag.Some? then Some(true) else None, [])
    case Forwarded => (flag, [ToRobot(RawLine(line.raw))])
    case Threw => (flag, [ToRobot(RawLine(line.raw))])
  }

  // ----- properties -----

  /** A trigger is recognised exactly by a readable `type` equal to MANUAL_LLM_TRIGGER. */
  lemma TriggerIff(parsed: Option<Json>)
    ensures Handle(parsed) == Triggered <==>
      parsed.Some? && parsed.value.JObj? && "type" in parsed.value.fields
      && AsString(parsed.value.fields["type"]) == Some("MANUAL_LLM_TRIGGER")
  {
  }

  /** Malformed PAD and KEY lines, lines without a type and non-JSON lines are still relayed exactly once. */
  lemma MalformedStillRelayed(raw: string, flag: Option<bool>)
    ensures RouteGuiLine(Line(raw, None), flag) == (flag, [ToRobot(RawLine(raw))])
    ensures RouteGuiLine(Line(raw, Some(JObj(map["type" := JStr("PAD")]))), flag) == (flag, [ToRobot(RawLine(raw))])
    ensures RouteGuiLine(Line(raw, Some(JObj(map["type" := JStr("KEY"), "cmd" := JNull]))), flag) == (flag, [ToRobot(RawLine(raw))])
    ensures RouteGuiLine(Line(raw, Some(JObj(map[]))), flag) == (flag, [ToRobot(RawLine(raw))])
  {
    assert Handle(Some(JObj(map["type" := JStr("PAD")]))) == Threw;
    assert Handle(Some(JObj(map["type" := JStr("KEY"), "cmd" := JNull]))) == Threw;
  }

  /** Relaying a session: the robot receives exactly the non-trigger lines, in order, and nothing is ever sent to the console. */
  function Session(lines: seq<Line>, flag: Option<bool>): (r: (Option<bool>, seq<Outbound>))
    decreases |lines|
  {
    if lines == [] then (flag, [])
    else
      var (f1, out1) := RouteGuiLine(lines[0], flag);
      var (f2, out2) := Session(lines[1..], f1);
      (f2, out1 + out2)
  }

  /** The raw lines that are not triggers, in order. */
  function Relayed(lines: seq<Line>): seq<Payload>
    decreases |lines|
  {
    if lines == [] then []
    else (if Handle(lines[0].parsed) == Triggered then [] else [RawLine(lines[0].raw)]) + Relayed(lines[1..])
  }

  predicate AnyTrigger(lines: seq<Line>) {
    exists k :: 0 <= k < |lines| && Handle(lines[k].parsed) == Triggered
  }

  lemma {:induction false} SessionRelaysInOrder(lines: seq<Line>, flag: Option<bool>)
    ensures RobotBound(Session(lines, flag).1) == Relayed(lines)
    ensures GuiBound(Session(lines, flag).1) == []
    ensures Session(lines, flag).0 == (if flag.Some? && AnyTrigger(lines) then Some(true) else flag)
    decreases |lines|
  {
    if lines != [] {
      var (f1, out1) := RouteGuiLine(lines[0], flag);
      SessionRelaysInOrder(lines[1..], f1);
      var out2 := Session(lines[1..], f1).1;
      RobotBoundAppend(out1, out2);
      GuiBoundAppend(out1, out2);
      if AnyTrigger(lines[1..]) {
        var k :| 0 <= k < |lines[1..]| && Handle(lines[1..][k].parsed) == Triggered;
        assert Handle(lines[k + 1].parsed) == Triggered;
      }
      if AnyTrigger(lines) && Handle(lines[0].parsed) != Triggered {
        var k :| 0 <= k < |lines| && Handle(lines[k].parsed) == Triggered;
        assert k != 0;
        assert lines[1..][k - 1] == lines[k];
      }
    }
  }
}
