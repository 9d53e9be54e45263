/**
 * The shared sensor record of the relay: nullable readings, each with its own
 * last-update timestamp, a dust provenance tag, and the staleness tests built on them.
 * Every setter takes the clock reading `now` it would have read itself.
 */
module SensorState {
  import opened Wrappers

  datatype State = State(
    ultrasonic: Option<real>,
    lastStt: Option<string>,
    lastSttTime: int,
    flame: Option<real>,
    co2: Option<real>,
    pm25: Option<real>,
    pm10: Option<real>,
    pir: Option<bool>,
    visionPerson: Option<bool>,
    visionConf: Option<real>,
    visionTs: Option<int>,
    lastSensorUpdateAtMs: int,
    flameTs: Option<int>,
    co2Ts: Option<int>,
    dustTs: Option<int>,
    pirTs: Option<int>,
    ultrasonicTs: Option<int>,
    dustSource: Option<string>,
    // read and written by the LLM ticks although the record does not declare them
    lastLlmCallAtMs: int,
    lastLlmRaw: Option<string>
  )

  /** A freshly constructed record: every reading null, every long zero. */
  const Initial := State(None, None, 0, None, None, None, None, None, None, None, None, 0,
                         None, None, None, None, None, None, 0, None)

  /** The independent groups of the record; a setter touches exactly one of them. */
  datatype Field = Flame | Co2 | Dust | Pir | Ultrasonic | Vision | Stt | Llm

  /** `s` and `t` hold the same values and timestamps in group `f`. */
  predicate Agree(s: State, t: State, f: Field) {
    match f
    case Flame => s.flame == t.flame && s.flameTs == t.flameTs
    case Co2 => s.co2 == t.co2 && s.co2Ts == t.co2Ts
    case Dust => s.pm25 == t.pm25 && s.pm10 == t.pm10 && s.dustSource == t.dustSource && s.dustTs == t.dustTs
    case Pir => s.pir == t.pir && s.pirTs == t.pirTs
    case Ultrasonic => s.ultrasonic == t.ultrasonic && s.ultrasonicTs == t.ultrasonicTs
    case Vision => s.visionPerson == t.visionPerson && s.visionConf == t.visionConf && s.visionTs == t.visionTs
    case Stt => s.lastStt == t.lastStt && s.lastSttTime == t.lastSttTime
    case Llm => s.lastLlmCallAtMs == t.lastLlmCallAtMs && s.lastLlmRaw == t.lastLlmRaw
  }

  /** Every group other than `f` is untouched. */
  predicate OnlyChanges(s: State, t: State, f: Field) {
    && (f == Flame || Agree(s, t, Flame))
    && (f == Co2 || Agree(s, t, Co2))
    && (f == Dust || Agree(s, t, Dust))
    && (f == Pir || Agree(s, t, Pir))
    && (f == Ultrasonic || Agree(s, t, Ultrasonic))
    && (f == Vision || Agree(s, t, Vision))
    && (f == Stt || Agree(s, t, Stt))
    && (f == Llm || Agree(s, t, Llm))
  }

  function SetVisionPerson(s: State, v: Option<bool>, now: int): (r: State)
    ensures r.visionPerson == v && r.visionTs == Some(now) && r.lastSensorUpdateAtMs == now
    ensures r.visionConf == s.visionConf && OnlyChanges(s, r, Vision)
  {
    s.(visionPerson := v, visionTs := Some(now), lastSensorUpdateAtMs := now)
  }

  function SetVisionConf(s: State, v: Option<real>, now: int): (r: State)
    ensures r.visionConf == v && r.visionTs == Some(now) && r.lastSensorUpdateAtMs == now
    ensures r.visionPerson == s.visionPerson && OnlyChanges(s, r, Vision)
  {
    s.(visionConf := v, visionTs := Some(now), lastSensorUpdateAtMs := now)
  }

  /** `setVisionTs`, which the router calls but the record class does not declare; modelled as a plain field write. */
  function SetVisionTs(s: State, ts: int): (r: State)
    ensures r.visionTs == Some(ts) && r.visionPerson == s.visionPerson && r.visionConf == s.visionConf
    ensures r.lastSensorUpdateAtMs == s.lastSensorUpdateAtMs && OnlyChanges(s, r, Vision)
  {
    s.(visionTs := Some(ts))
  }

  /** `Boolean.TRUE.equals(visionPerson)`. */
  predicate IsVisionPerson(s: State)
    ensures s.visionPerson.None? ==> !IsVisionPerson(s)
  {
    s.visionPerson == Some(true)
  }

  function SetFlame(s: State, v: Option<real>, now: int): (r: State)
    ensures r.flame == v && r.flameTs == Some(now) && r.lastSensorUpdateAtMs == now
    ensures OnlyChanges(s, r, Flame)
  {
    s.(flame := v, flameTs := Some(now), lastSensorUpdateAtMs := now)
  }

  function SetCo2(s: State, v: Option<real>, now: int): (r: State)
    ensures r.co2 == v && r.co2Ts == Some(now) && r.lastSensorUpdateAtMs == now
    ensures OnlyChanges(s, r, Co2)
  {
    s.(co2 := v, co2Ts := Some(now), lastSensorUpdateAtMs := now)
  }

  /** Both dust readings arrive in one packet, so they are written together with their tag. */
  function SetDust(s: State, pm25: Option<real>, pm10: Option<real>, source: Option<string>, now: int): (r: State)
    ensures r.pm25 == pm25 && r.pm10 == pm10 && r.dustSource == source
    ensures r.dustTs == Some(now) && r.lastSensorUpdateAtMs == now
    ensures OnlyChanges(s, r, Dust)
  {
    s.(pm25 := pm25, pm10 := pm10, dustSource := source, dustTs := Some(now), lastSensorUpdateAtMs := now)
  }

  function SetPir(s: State, v: Option<bool>, now: int): (r: State)
    ensures r.pir == v && r.pirTs == Some(now) && r.lastSensorUpdateAtMs == now
    ensures OnlyChanges(s, r, Pir)
  {
    s.(pir := v, pirTs := Some(now), lastSensorUpdateAtMs := now)
  }

  function SetUltrasonic(s: State, v: Option<real>, now: int): (r: State)
    ensures r.ultrasonic == v && r.ultrasonicTs == Some(now) && r.lastSensorUpdateAtMs == now
    ensures OnlyChanges(s, r, Ultrasonic)
  {
    s.(ultrasonic := v, ultrasonicTs := Some(now), lastSensorUpdateAtMs := now)
  }

  function SetLastStt(s: State, text: Option<string>, now: int): (r: State)
    ensures r.lastStt == text && r.lastSttTime == now && r.lastSensorUpdateAtMs == now
    ensures OnlyChanges(s, r, Stt)
  {
    s.(lastStt := text, lastSttTime := now, lastSensorUpdateAtMs := now)
  }

  /** `setLastLlmCallAtMs`, called by the decision loops but not declared by the record class; a plain write of a field the model adds. */
  function SetLastLlmCallAtMs(s: State, t: int): (r: State)
    ensures r.lastLlmCallAtMs == t && r.lastLlmRaw == s.lastLlmRaw
    ensures r.lastSensorUpdateAtMs == s.lastSensorUpdateAtMs && OnlyChanges(s, r, Llm)
  {
    s.(lastLlmCallAtMs := t)
  }

  /** `setLastLlmRaw`, likewise called but not declared; a plain write of a field the model adds. */
  function SetLastLlmRaw(s: State, raw: Option<string>): (r: State)
    ensures r.lastLlmRaw == raw && r.lastLlmCallAtMs == s.lastLlmCallAtMs
    ensures r.lastSensorUpdateAtMs == s.lastSensorUpdateAtMs && OnlyChanges(s, r, Llm)
  {
    s.(lastLlmRaw := raw)
  }

  /** The tag a compatibility setter writes: the current one if any, else "ROBOT". */
  function KeptSource(s: State): (r: Option<string>)
    ensures s.dustSource.Some? ==> r == s.dustSource
    ensures s.dustSource.None? ==> r == Some("ROBOT")
  {
    if s.dustSource.None? then Some("ROBOT") else s.dustSource
  }

  /** Compatibility setter: pm2.5 alone, pm10 and (non-null) tag kept, so a DEMO tag survives. */
  function SetPm25(s: State, v: Option<real>, now: int): (r: State)
    ensures r.pm25 == v && r.pm10 == s.pm10 && r.dustTs == Some(now) && r.lastSensorUpdateAtMs == now
    ensures r.dustSource == (if s.dustSource.Some? then s.dustSource else Some("ROBOT"))
    ensures OnlyChanges(s, r, Dust)
  {
    SetDust(s, v, s.pm10, KeptSource(s), now)
  }

  /** Compatibility setter: pm10 alone, with the same tag rule as `SetPm25`. */
  function SetPm10(s: State, v: Option<real>, now: int): (r: State)
    ensures r.pm10 == v && r.pm25 == s.pm25 && r.dustTs == Some(now) && r.lastSensorUpdateAtMs == now
    ensures r.dustSource == (if s.dustSource.Some? then s.dustSource else Some("ROBOT"))
    ensures OnlyChanges(s, r, Dust)
  {
    SetDust(s, s.pm25, v, KeptSource(s), now)
  }

  /** A field last set at `ts` is stale at `now` if never set, or older than `staleMs`. */
  predicate IsStale(ts: Option<int>, now: int, staleMs: int) {
    ts.None? || now - ts.value > staleMs
  }

  predicate IsDustStale(s: State, now: int, staleMs: int) {
    IsStale(s.dustTs, now, staleMs)
  }

  /** Never-set dust is stale; once set, dust stays fresh exactly until its age exceeds the threshold. */
  lemma DustStaleness(s: State, pm25: Option<real>, pm10: Option<real>, src: Option<string>, t0: int, now: int, staleMs: int)
    ensures IsDustStale(Initial, now, staleMs)
    ensures var r := SetDust(s, pm25, pm10, src, t0);
      IsDustStale(r, now, staleMs) <==> now - t0 > staleMs
  {
  }

  /** A DEMO tag written by the snapshot task survives a later real single-reading update. */
  lemma DemoTagSurvivesRobotReading(s: State, a: real, b: real, t0: int, v: real, t1: int)
    ensures SetPm25(SetDust(s, Some(a), Some(b), Some("DEMO"), t0), Some(v), t1).dustSource == Some("DEMO")
    ensures SetPm10(SetDust(s, Some(a), Some(b), Some("DEMO"), t0), Some(v), t1).dustSource == Some("DEMO")
  {
  }

  /** `isVisionPerson` reads back what `setVisionPerson` stored, and a fresh record sees no person. */
  lemma VisionPersonAfterSet(s: State, v: Option<bool>, now: int)
    ensures IsVisionPerson(SetVisionPerson(s, v, now)) <==> v == Some(true)
    ensures !IsVisionPerson(Initial)
  {
  }

  /** Two independent setters commute: fields share nothing but the any-update stamp. */
  lemma FlameCo2Commute(s: State, f: Option<real>, c: Option<real>, now: int)
    ensures SetCo2(SetFlame(s, f, now), c, now) == SetFlame(SetCo2(s, c, now), f, now)
  {
  }
}
