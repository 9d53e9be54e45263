/**
 * The robot channel: routing of each line the robot sends, and the periodic snapshot
 * task that normalises the sensor record for the console (demo dust when the robot's
 * dust is stale, a CO2 default, and stale PIR/vision forced to false).
 */
module RobotChannel {
  import opened Wrappers
  import opened Json
  import opened SensorState
  import opened StateUpdater
  import opened Messages

  const DustStaleMs: int := 3000
  const PirStaleMs: int := 3000
  const VisionStaleMs: int := 3000
  const Co2DemoDefault: real := 450.0

  // ----- line routing -----

  /** The line's `type` as the quick check reads it; `None` for non-JSON, non-object, missing, null or unreadable. */
  function LineType(parsed: Option<Json>): Option<string> {
    if parsed.Some? && parsed.value.JObj? && HasNonNull(parsed.value.fields, "type") then
      AsString(parsed.value.fields["type"])
    else None
  }

  predicate IsStateType(t: Option<string>) {
    t == Some("SENSOR") || t == Some("STT") || t == Some("VISION") || t == Some("PIR")
  }

  /**
   * `handleRobot`, one line: SENSOR/STT/VISION/PIR lines go through the router, whose
   * exception is swallowed (updates made before it stay); every line not typed SENSOR
   * is forwarded verbatim to a connected console.
   */
  function RouteRobotLine(line: Line, st: State, now: int, guiConnected: bool): (r: (State, seq<Outbound>))
    ensures !IsStateType(LineType(line.parsed)) ==> r.0 == st
    ensures IsStateType(LineType(line.parsed)) ==> r.0 == ApplyJson(line.parsed, st, now).state
    ensures r.1 == (if guiConnected && LineType(line.parsed) != Some("SENSOR") then [ToGui(RawLine(line.raw))] else [])
  {
    var t := LineType(line.parsed);
    var st1 := if IsStateType(t) then ApplyJson(line.parsed, st, now).state else st;
    (st1, if guiConnected && t != Some("SENSOR") then [ToGui(RawLine(line.raw))] else [])
  }

  // ----- snapshot task -----

  /** The demo dust generator's fields. */
  datatype Demo = Demo(pm25: real, pm10: real, tick: nat)

  const InitialDemo: Demo := Demo(18.0, 28.0, 0)

  /** `clamp(v, min, max)` = max(min, min(max, v)). */
  function Clamp(v: real, lo: real, hi: real): (r: real)
    requires lo <= hi
    ensures lo <= r <= hi
    ensures lo <= v <= hi ==> r == v
  {
    var upper := if hi < v then hi else v;
    if lo > upper then lo else upper
  }

  predicate DemoInRange(d: Demo) {
    12.0 <= d.pm25 <= 35.0 && 18.0 <= d.pm10 <= 50.0
  }

  /** One demo step: the tick advances, and on every fifth tick both values drift (up on even ticks, down on odd). */
  function DemoStep(d: Demo): (r: Demo)
    ensures r.tick == d.tick + 1
    ensures r.tick % 5 != 0 ==> r.pm25 == d.pm25 && r.pm10 == d.pm10
    ensures r.tick % 5 == 0 ==> DemoInRange(r)
    ensures DemoInRange(d) ==> DemoInRange(r)
  {
    var t := d.tick + 1;
    if t % 5 == 0 then
      Demo(Clamp(d.pm25 + (if t % 2 == 0 then 0.3 else -0.2), 12.0, 35.0),
           Clamp(d.pm10 + (if t % 2 == 0 then 0.4 else -0.3), 18.0, 50.0), t)
    else Demo(d.pm25, d.pm10, t)
  }

  /** A boolean reading as the snapshot reports it: the value if fresh (null as false), else false and stale. */
  function Fresh(v: Option<bool>, ts: Option<int>, now: int, staleMs: int): (r: (bool, bool))
    ensures r.1 <==> IsStale(ts, now, staleMs)
    ensures r.0 <==> v == Some(true) && !IsStale(ts, now, staleMs)
  {
    var valid := ts.Some? && now - ts.value <= staleMs;
    (if v.Some? && valid then v.value else false, !valid)
  }

  /** The snapshot composed from the record (after any demo dust) and the demo values. */
  function Compose(st: State, d: Demo, now: int): (snap: Snapshot)
    ensures snap.fire <==> st.flame.Some? && st.flame.value > 0.5
    ensures snap.co2 == (if st.co2.Some? then st.co2.value else Co2DemoDefault)
    ensures snap.pm25 == (if st.pm25.Some? then st.pm25.value else d.pm25)
    ensures snap.pm10 == (if st.pm10.Some? then st.pm10.value else d.pm10)
    ensures snap.dustSource == st.dustSource && snap.visionConf == st.visionConf
    ensures snap.pirStale <==> IsStale(st.pirTs, now, PirStaleMs)
    ensures snap.pir <==> st.pir == Some(true) && !IsStale(st.pirTs, now, PirStaleMs)
    ensures snap.visionStale <==> IsStale(st.visionTs, now, VisionStaleMs)
    ensures snap.visionPerson <==> st.visionPerson == Some(true) && !IsStale(st.visionTs, now, VisionStaleMs)
  {
    var (pir, pirStale) := Fresh(st.pir, st.pirTs, now, PirStaleMs);
    var (vp, visionStale) := Fresh(st.visionPerson, st.visionTs, now, VisionStaleMs);
    Snapshot(
      fire := st.flame.Some? && st.flame.value > 0.5,
      co2 := st.co2.GetOr(Co2DemoDefault),
      pm25 := st.pm25.GetOr(d.pm25),
      pm10 := st.pm10.GetOr(d.pm10),
      dustSource := st.dustSource,
      pir := pir,
      pirStale := pirStale,
      visionPerson := vp,
      visionStale := visionStale,
      visionConf := st.visionConf)
  }

  datatype Tick = Tick(state: State, demo: Demo, sent: seq<Outbound>)

  /**
   * One 500 ms tick: nothing unless both the console and the robot are connected;
   * stale dust is replaced by the next demo values tagged DEMO; then one snapshot goes out.
   */
  function SnapshotTick(st: State, d: Demo, now: int, guiConnected: bool, robotConnected: bool): (r: Tick)
    ensures !(guiConnected && robotConnected) ==> r == Tick(st, d, [])
    ensures guiConnected && robotConnected ==> |r.sent| == 1 && r.sent[0] == ToGui(SnapshotReport(Compose(r.state, r.demo, now)))
    ensures guiConnected && robotConnected && IsDustStale(st, now, DustStaleMs) ==>
      r.demo == DemoStep(d) && r.state == SetDust(st, Some(r.demo.pm25), Some(r.demo.pm10), Some("DEMO"), now)
    ensures !IsDustStale(st, now, DustStaleMs) ==> r.state == st && r.demo == d
    ensures OnlyChanges(st, r.state, Dust)
  {
    if !(guiConnected && robotConnected) then Tick(st, d, [])
    else
      var (st1, d1) := if IsDustStale(st, now, DustStaleMs) then
        var d1 := DemoStep(d);
        (SetDust(st, Some(d1.pm25), Some(d1.pm10), Some("DEMO"), now), d1)
      else (st, d);
      Tick(st1, d1, [ToGui(SnapshotReport(Compose(st1, d1, now)))])
  }

  // ----- properties -----

  /** A SENSOR line is never forwarded raw; a PIR line is routed but changes nothing. */
  lemma SensorNotForwardedPirInert(line: Line, st: State, now: int, gui: bool)
    ensures LineType(line.parsed) == Some("SENSOR") ==> RouteRobotLine(line, st, now, gui).1 == []
    ensures LineType(line.parsed) == Some("PIR") ==> RouteRobotLine(line, st, now, gui).0 == st
  {
    if LineType(line.parsed) == Some("PIR") {
      var obj := line.parsed.value.fields;
      assert AsString(obj["type"]) == Some("PIR");
    }
  }

  /** Lines that do not parse are forwarded to a connected console and leave the record alone. */
  lemma UnparsedLineForwarded(raw: string, st: State, now: int)
    ensures RouteRobotLine(Line(raw, None), st, now, true) == (st, [ToGui(RawLine(raw))])
  {
  }

  /** The demo values stay within [12, 35] and [18, 50] from the initial values on, for any number of ticks. */
  lemma {:induction false} DemoStaysInRange(d: Demo, n: nat)
    requires DemoInRange(d)
    ensures DemoInRange(DemoSteps(d, n)) && DemoSteps(d, n).tick == d.tick + n
  {
    if n > 0 {
      DemoStaysInRange(d, n - 1);
    }
  }

  function DemoSteps(d: Demo, n: nat): Demo {
    if n == 0 then d else DemoStep(DemoSteps(d, n - 1))
  }

  lemma InitialDemoInRange()
    ensures DemoInRange(InitialDemo)
  {
  }

  /** Tick 5 is the first drift: odd, so both values go down (18.0 → 17.8, 28.0 → 27.7). */
  lemma FirstDrift()
    ensures DemoSteps(InitialDemo, 4) == Demo(18.0, 28.0, 4)
    ensures DemoSteps(InitialDemo, 5) == Demo(17.8, 27.7, 5)
  {
    assert DemoSteps(InitialDemo, 1) == Demo(18.0, 28.0, 1);
    assert DemoSteps(InitialDemo, 2) == Demo(18.0, 28.0, 2);
    assert DemoSteps(InitialDemo, 3) == Demo(18.0, 28.0, 3);
  }

  /** Readings last set 4000 ms ago are reported as false and stale, whatever their value. */
  lemma StaleReadingsForcedFalse(st: State, now: int, d: Demo)
    requires st.pirTs == Some(now - 4000) && st.visionTs == Some(now - 4000)
    ensures var snap := Compose(st, d, now);
      !snap.pir && snap.pirStale && !snap.visionPerson && snap.visionStale
  {
  }

  /** With dust never reported, the first connected tick tags the record DEMO and reports the demo values. */
  lemma DemoDustWhenNeverSet(d: Demo, now: int)
    ensures var r := SnapshotTick(Initial, d, now, true, true);
      r.state.dustSource == Some("DEMO") && r.state.dustTs == Some(now)
      && r.sent == [ToGui(SnapshotReport(Compose(r.state, r.demo, now)))]
      && Compose(r.state, r.demo, now).pm25 == DemoStep(d).pm25
      && Compose(r.state, r.demo, now).co2 == Co2DemoDefault
      && !Compose(r.state, r.demo, now).fire
  {
  }

  /** Right after a demo fill the dust is fresh, so the next tick within 3000 ms keeps the record and demo as they are. */
  lemma DemoFillThenFresh(st: State, d: Demo, now: int, later: int)
    requires IsDustStale(st, now, DustStaleMs) && now <= later <= now + DustStaleMs
    ensures var r1 := SnapshotTick(st, d, now, true, true);
      var r2 := SnapshotTick(r1.state, r1.demo, later, true, true);
      r2.state == r1.state && r2.demo == r1.demo
  {
  }
}
