/**
 * What the relay hands to a channel's send primitive. Text serialisation of these
 * objects is not modelled; a forwarded line travels as its raw text.
 */
module Messages {
  import opened Wrappers
  import opened Json
  import FollowController

  /** The periodic normalised sensor report to the console. */
  datatype Snapshot = Snapshot(
    fire: bool,
    co2: real,
    pm25: real,
    pm10: real,
    dustSource: Option<string>,
    pir: bool,
    pirStale: bool,
    visionPerson: bool,
    visionStale: bool,
    visionConf: Option<real>
  )

  datatype Payload =
    | RawLine(text: string)                                   // a received line, forwarded verbatim
    | Cmd(cmd: FollowController.Command)                      // {"type":"CMD","cmd":...}
    | VisionFailed(path: string)                              // {"type":"VISION","ok":false,"error":"yolo_infer_failed",...}
    | VisionEvent(path: string, ts: int, yolo: Object)        // {"type":"VISION","path","ts","yolo"}
    | LlmEvent(ts: int, trigger: string, raw: string)         // {"type":"LLM","ts","trigger","raw"}
    | LlmFailed(msg: string)                                  // {"type":"LLM","ok":false,"error":"llm_call_failed","msg"}
    | Tts(text: string, stamp: Option<int>)                   // {"type":"TTS",["ts",]"text"}
    | GuiMessage(text: string, stamp: Option<int>)            // {"type":"GUI_MESSAGE",["ts",]"text"}
    | SnapshotReport(snap: Snapshot)                          // {"type":"SENSOR",...}
    | Image(data: string)                                     // {"type":"IMAGE","data":base64}

  /** One call of a channel's send primitive. */
  datatype Outbound = ToRobot(payload: Payload) | ToGui(payload: Payload)

  /** The messages of `sent` bound for the robot. */
  function RobotBound(sent: seq<Outbound>): (r: seq<Payload>)
    ensures |r| <= |sent|
  {
    if sent == [] then []
    else (if sent[0].ToRobot? then [sent[0].payload] else []) + RobotBound(sent[1..])
  }

  /** The messages of `sent` bound for the console. */
  function GuiBound(sent: seq<Outbound>): (r: seq<Payload>)
    ensures |r| <= |sent|
  {
    if sent == [] then []
    else (if sent[0].ToGui? then [sent[0].payload] else []) + GuiBound(sent[1..])
  }

  /** Outcome of an external call (vision inference, LLM): its answer, or the exception's message. */
  datatype Reply<T> = Answered(value: T) | Failed(message: string)

  /** Splitting a send sequence splits its robot-bound share the same way. */
  lemma {:induction false} RobotBoundAppend(a: seq<Outbound>, b: seq<Outbound>)
    ensures RobotBound(a + b) == RobotBound(a) + RobotBound(b)
  {
    if a == [] {
      assert a + b == b;
    } else {
      var h := if a[0].ToRobot? then [a[0].payload] else [];
      assert (a + b)[0] == a[0];
      assert (a + b)[1..] == a[1..] + b;
      RobotBoundAppend(a[1..], b);
      assert RobotBound(a + b) == h + RobotBound(a[1..] + b);
      assert h + (RobotBound(a[1..]) + RobotBound(b)) == (h + RobotBound(a[1..])) + RobotBound(b);
    }
  }

  /** Splitting a send sequence splits its console-bound share the same way. */
  lemma {:induction false} GuiBoundAppend(a: seq<Outbound>, b: seq<Outbound>)
    ensures GuiBound(a + b) == GuiBound(a) + GuiBound(b)
  {
    if a == [] {
      assert a + b == b;
    } else {
      var h := if a[0].ToGui? then [a[0].payload] else [];
      assert (a + b)[0] == a[0];
      assert (a + b)[1..] == a[1..] + b;
      GuiBoundAppend(a[1..], b);
      assert GuiBound(a + b) == h + GuiBound(a[1..] + b);
      assert h + (GuiBound(a[1..]) + GuiBound(b)) == (h + GuiBound(a[1..])) + GuiBound(b);
    }
  }

  /** A sequence of console sends has no robot-bound part. */
  lemma {:induction false} NoRobotIn(g: seq<Outbound>)
    requires forall k :: 0 <= k < |g| ==> g[k].ToGui?
    ensures RobotBound(g) == []
  {
    if g != [] {
      NoRobotIn(g[1..]);
    }
  }
}
