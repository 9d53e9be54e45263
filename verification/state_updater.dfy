/**
 * The message router: decodes one parsed line into updates of the sensor record.
 * Two SENSOR dialects are accepted: named (`name` plus `value`/`detected`/`distance`/
 * `pm25`/`pm10`) and composite (`fire`, `co2_ppm` or `gas`, `dust{pm25,pm10}`).
 * A Gson accessor that throws part-way through leaves the updates already made.
 */
module StateUpdater {
  import opened Wrappers
  import opened Json
  import opened SensorState

  /** The record after applying a line, and whether the application threw part-way. */
  datatype Step = Ok(state: State) | Threw(state: State) {
    predicate IsFailure() {
      Threw?
    }

    function PropagateFailure(): Step
      requires Threw?
    {
      this
    }

    function Extract(): State
      requires Ok?
    {
      state
    }
  }

  /** Applies `update` to an accessor's answer; a failed accessor throws with `s` as left so far. */
  function Apply<T>(v: Option<T>, s: State, update: T -> State): (r: Step)
    ensures v.None? ==> r == Threw(s)
    ensures v.Some? ==> r == Ok(update(v.value))
  {
    match v
    case None => Threw(s)
    case Some(x) => Ok(update(x))
  }

  /** `StateUpdater.applyJson`: non-JSON, non-object and untyped lines are ignored. */
  function ApplyJson(parsed: Option<Json>, s: State, now: int): (r: Step)
    ensures Agree(s, r.state, Llm)
    ensures parsed.None? || !parsed.value.JObj? || "type" !in parsed.value.fields ==> r == Ok(s)
  {
    match parsed
    case None => Ok(s)
    case Some(j) =>
      if !j.JObj? || "type" !in j.fields then Ok(s)
      else
        var obj := j.fields;
        match AsString(obj["type"])
        case None => Threw(s)
        case Some(t) =>
          if t == "SENSOR" then ApplySensor(obj, s, now)
          else if t == "STT" then
            if "text" in obj then Apply(AsString(obj["text"]), s, x => SetLastStt(s, Some(x), now)) else Ok(s)
          else if t == "VISION" then ApplyVision(obj, s, now)
          else Ok(s)
  }

  /** `applySensor`: a message carrying `name` is handled in the named dialect only. */
  function ApplySensor(obj: Object, s: State, now: int): (r: Step)
    ensures Agree(s, r.state, Vision) && Agree(s, r.state, Stt) && Agree(s, r.state, Llm)
    ensures "name" in obj && AsString(obj["name"]) == Some("FLAME") ==> OnlyChanges(s, r.state, Flame)
    ensures "name" in obj && AsString(obj["name"]) == Some("CO2") ==> OnlyChanges(s, r.state, Co2)
    ensures "name" in obj && AsString(obj["name"]) == Some("DUST") ==> OnlyChanges(s, r.state, Dust)
    ensures "name" in obj && AsString(obj["name"]) == Some("PIR") ==> OnlyChanges(s, r.state, Pir)
    ensures "name" in obj && AsString(obj["name"]) == Some("ULTRASONIC") ==> OnlyChanges(s, r.state, Ultrasonic)
  {
    if "name" in obj then ApplyNamed(obj, s, now) else ApplyComposite(obj, s, now)
  }

  /** A named-dialect message naming sensor `name` and carrying the member `member`. */
  predicate Names(obj: Object, name: string, member: string)
    requires "name" in obj
  {
    AsString(obj["name"]) == Some(name) && member in obj
  }

  /**
   * The named dialect: each sensor stores its reading when it is readable and throws when
   * it is not; DUST stores pm25 before reading pm10, so a bad pm10 leaves pm25 stored.
   */
  function ApplyNamed(obj: Object, s: State, now: int): (r: Step)
    requires "name" in obj
    ensures Agree(s, r.state, Vision) && Agree(s, r.state, Stt) && Agree(s, r.state, Llm)
    ensures AsString(obj["name"]).None? ==> r == Threw(s)
    ensures AsString(obj["name"]).Some? && AsString(obj["name"]).value !in ["FLAME", "CO2", "DUST", "PIR", "ULTRASONIC"]
      ==> r == Ok(s)
    ensures Names(obj, "FLAME", "value") ==>
      r == (if AsDouble(obj["value"]).Some? then Ok(SetFlame(s, AsDouble(obj["value"]), now)) else Threw(s))
    ensures Names(obj, "CO2", "value") ==>
      r == (if AsDouble(obj["value"]).Some? then Ok(SetCo2(s, AsDouble(obj["value"]), now)) else Threw(s))
    ensures Names(obj, "PIR", "detected") ==>
      r == (if AsBool(obj["detected"]).Some? then Ok(SetPir(s, AsBool(obj["detected"]), now)) else Threw(s))
    ensures Names(obj, "ULTRASONIC", "distance") ==>
      r == (if AsDouble(obj["distance"]).Some? then Ok(SetUltrasonic(s, AsDouble(obj["distance"]), now)) else Threw(s))
    ensures Names(obj, "DUST", "pm25") && AsDouble(obj["pm25"]).None? ==> r == Threw(s)
    ensures Names(obj, "DUST", "pm25") && AsDouble(obj["pm25"]).Some? && "pm10" in obj ==>
      var s1 := SetPm25(s, AsDouble(obj["pm25"]), now);
      r == (if AsDouble(obj["pm10"]).Some? then Ok(SetPm10(s1, AsDouble(obj["pm10"]), now)) else Threw(s1))
    ensures Names(obj, "DUST", "pm25") && AsDouble(obj["pm25"]).Some? && "pm10" !in obj ==>
      r == Ok(SetPm25(s, AsDouble(obj["pm25"]), now))
    ensures Names(obj, "DUST", "pm10") && "pm25" !in obj ==>
      r == (if AsDouble(obj["pm10"]).Some? then Ok(SetPm10(s, AsDouble(obj["pm10"]), now)) else Threw(s))
    ensures AsString(obj["name"]) == Some("DUST") && "pm25" !in obj && "pm10" !in obj ==> r == Ok(s)
  {
    match AsString(obj["name"])
    case None => Threw(s)
    case Some(name) =>
      if name == "FLAME" then
        if "value" in obj then Apply(AsDouble(obj["value"]), s, v => SetFlame(s, Some(v), now)) else Ok(s)
      else if name == "CO2" then
        if "value" in obj then Apply(AsDouble(obj["value"]), s, v => SetCo2(s, Some(v), now)) else Ok(s)
      else if name == "DUST" then
        var s1 :- if "pm25" in obj then Apply(AsDouble(obj["pm25"]), s, v => SetPm25(s, Some(v), now)) else Ok(s);
        if "pm10" in obj then Apply(AsDouble(obj["pm10"]), s1, v => SetPm10(s1, Some(v), now)) else Ok(s1)
      else if name == "PIR" then
        if "detected" in obj then Apply(AsBool(obj["detected"]), s, b => SetPir(s, Some(b), now)) else Ok(s)
      else if name == "ULTRASONIC" then
        if "distance" in obj then Apply(AsDouble(obj["distance"]), s, v => SetUltrasonic(s, Some(v), now)) else Ok(s)
      else Ok(s)
  }

  /** The composite dialect; JSON-null members are skipped and `co2_ppm` wins over `gas`. */
  function ApplyComposite(obj: Object, s: State, now: int): (r: Step)
    ensures Agree(s, r.state, Vision) && Agree(s, r.state, Stt) && Agree(s, r.state, Llm)
    ensures Agree(s, r.state, Pir) && Agree(s, r.state, Ultrasonic)
  {
    var s1 :- ApplyFire(obj, s, now);
    var s2 :- ApplyGas(obj, s1, now);
    if HasObject(obj, "dust") then ApplyDustObject(obj["dust"].fields, s2, now) else Ok(s2)
  }

  /** Composite `fire`: a boolean mapped to flame level 1.0 or 0.0. */
  function ApplyFire(obj: Object, s: State, now: int): (r: Step)
    ensures OnlyChanges(s, r.state, Flame)
  {
    if HasNonNull(obj, "fire") then
      Apply(AsBool(obj["fire"]), s, b => SetFlame(s, Some(FireLevel(b)), now))
    else Ok(s)
  }

  /** The flame level a composite `fire` flag stands for. */
  function FireLevel(fire: bool): real {
    if fire then 1.0 else 0.0
  }

  /** Composite CO2: `co2_ppm` when non-null, else `gas`. */
  function ApplyGas(obj: Object, s: State, now: int): (r: Step)
    ensures OnlyChanges(s, r.state, Co2)
    ensures HasNonNull(obj, "co2_ppm") && AsDouble(obj["co2_ppm"]).Some? ==> r == Ok(SetCo2(s, AsDouble(obj["co2_ppm"]), now))
    ensures !HasNonNull(obj, "co2_ppm") && !HasNonNull(obj, "gas") ==> r == Ok(s)
  {
    if HasNonNull(obj, "co2_ppm") then Apply(AsDouble(obj["co2_ppm"]), s, v => SetCo2(s, Some(v), now))
    else if HasNonNull(obj, "gas") then Apply(AsDouble(obj["gas"]), s, v => SetCo2(s, Some(v), now))
    else Ok(s)
  }

  function ApplyDustObject(dust: Object, s: State, now: int): (r: Step)
    ensures OnlyChanges(s, r.state, Dust)
  {
    var s1 :- if HasNonNull(dust, "pm25") then Apply(AsDouble(dust["pm25"]), s, v => SetPm25(s, Some(v), now)) else Ok(s);
    if HasNonNull(dust, "pm10") then Apply(AsDouble(dust["pm10"]), s1, v => SetPm10(s1, Some(v), now)) else Ok(s1)
  }

  /** `applyVision`: person and confidence from the nested `yolo` result, then the event's `ts`. */
  function ApplyVision(obj: Object, s: State, now: int): (r: Step)
    ensures OnlyChanges(s, r.state, Vision)
    ensures r.state.lastSensorUpdateAtMs in {s.lastSensorUpdateAtMs, now}
    ensures !HasObject(obj, "yolo") || "person" !in obj["yolo"].fields ==> r.state.visionPerson == s.visionPerson
    ensures HasObject(obj, "yolo") && "person" in obj["yolo"].fields && r.Ok? ==>
      r.state.visionPerson == AsBool(obj["yolo"].fields["person"])
    ensures HasObject(obj, "yolo") && HasConf(obj["yolo"].fields) && r.Ok? ==>
      r.state.visionConf == AsDouble(obj["yolo"].fields["best"].fields["conf"])
    ensures !(HasObject(obj, "yolo") && HasConf(obj["yolo"].fields)) ==> r.state.visionConf == s.visionConf
    ensures "ts" in obj && r.Ok? ==> r.state.visionTs == AsInt(obj["ts"])
  {
    var s1 :- if HasObject(obj, "yolo") then ApplyYolo(obj["yolo"].fields, s, now) else Ok(s);
    if "ts" in obj then Apply(AsInt(obj["ts"]), s1, t => SetVisionTs(s1, t)) else Ok(s1)
  }

  /** `yolo.has("best") && best.isJsonObject() && best.has("conf")`. */
  predicate HasConf(yolo: Object) {
    HasObject(yolo, "best") && "conf" in yolo["best"].fields
  }

  function ApplyYolo(yolo: Object, s: State, now: int): (r: Step)
    ensures OnlyChanges(s, r.state, Vision)
    ensures r.state.lastSensorUpdateAtMs in {s.lastSensorUpdateAtMs, now}
    ensures "person" !in yolo ==> r.state.visionPerson == s.visionPerson
    ensures r.Ok? && "person" in yolo ==> AsBool(yolo["person"]).Some? && r.state.visionPerson == Some(AsBool(yolo["person"]).value)
    ensures r.Ok? && HasConf(yolo) ==> r.state.visionConf == AsDouble(yolo["best"].fields["conf"])
    ensures !HasConf(yolo) ==> r.state.visionConf == s.visionConf
  {
    var s1 :- if "person" in yolo then Apply(AsBool(yolo["person"]), s, b => SetVisionPerson(s, Some(b), now)) else Ok(s);
    if HasConf(yolo) then
      Apply(AsDouble(yolo["best"].fields["conf"]), s1, v => SetVisionConf(s1, Some(v), now))
    else Ok(s1)
  }

  // ----- properties of the router -----

  /** A well-typed line whose type is none of SENSOR, STT, VISION changes nothing. */
  lemma OtherTypesIgnored(obj: Object, s: State, now: int)
    requires "type" in obj && AsString(obj["type"]).Some?
    requires AsString(obj["type"]).value !in {"SENSOR", "STT", "VISION"}
    ensures ApplyJson(Some(JObj(obj)), s, now) == Ok(s)
  {
  }

  /** STT stores the utterance only when `text` is present and has a string form. */
  lemma SttNeedsText(obj: Object, s: State, now: int)
    requires "type" in obj && AsString(obj["type"]) == Some("STT")
    ensures "text" !in obj ==> ApplyJson(Some(JObj(obj)), s, now) == Ok(s)
    ensures "text" in obj && AsString(obj["text"]).Some? ==>
      ApplyJson(Some(JObj(obj)), s, now) == Ok(SetLastStt(s, AsString(obj["text"]), now))
  {
  }

  /** Named FLAME, CO2, PIR and ULTRASONIC without their reading member change nothing. */
  lemma NamedNeedsReading(obj: Object, s: State, now: int)
    requires "name" in obj && AsString(obj["name"]).Some?
    ensures var n := AsString(obj["name"]).value;
      (|| ((n == "FLAME" || n == "CO2") && "value" !in obj)
       || (n == "PIR" && "detected" !in obj)
       || (n == "ULTRASONIC" && "distance" !in obj))
      ==> ApplySensor(obj, s, now) == Ok(s)
  {
  }

  /** Named DUST with neither reading is a no-op; with one reading the other is preserved. */
  lemma NamedDustKeepsMissingReading(obj: Object, s: State, now: int)
    requires "name" in obj && AsString(obj["name"]) == Some("DUST")
    ensures "pm25" !in obj && "pm10" !in obj ==> ApplySensor(obj, s, now) == Ok(s)
    ensures "pm25" in obj && "pm10" !in obj && AsDouble(obj["pm25"]).Some? ==>
      var r := ApplySensor(obj, s, now).state;
      r.pm25 == AsDouble(obj["pm25"]) && r.pm10 == s.pm10 && r.dustTs == Some(now)
    ensures "pm10" in obj && "pm25" !in obj && AsDouble(obj["pm10"]).Some? ==>
      var r := ApplySensor(obj, s, now).state;
      r.pm10 == AsDouble(obj["pm10"]) && r.pm25 == s.pm25 && r.dustTs == Some(now)
  {
    assert ApplySensor(obj, s, now) == ApplyNamed(obj, s, now);
    if "pm25" in obj && "pm10" !in obj && AsDouble(obj["pm25"]).Some? {
      assert ApplyNamed(obj, s, now) == Ok(SetPm25(s, AsDouble(obj["pm25"]), now));
    }
    if "pm10" in obj && "pm25" !in obj && AsDouble(obj["pm10"]).Some? {
      assert ApplyNamed(obj, s, now) == Ok(SetPm10(s, AsDouble(obj["pm10"]), now));
    }
  }

  /** `o1` and `o2` agree on member `k`. */
  predicate SameMember(o1: Object, o2: Object, k: string) {
    (k in o1 <==> k in o2) && (k in o1 ==> o1[k] == o2[k])
  }

  /** A message with `name` is decided by its named-dialect members alone: the composite ones are never read. */
  lemma NamedIgnoresCompositeMembers(o1: Object, o2: Object, s: State, now: int)
    requires "name" in o1 && "name" in o2
    requires SameMember(o1, o2, "name") && SameMember(o1, o2, "value") && SameMember(o1, o2, "pm25")
    requires SameMember(o1, o2, "pm10") && SameMember(o1, o2, "detected") && SameMember(o1, o2, "distance")
    ensures ApplySensor(o1, s, now) == ApplySensor(o2, s, now)
  {
  }

  /** Composite members: JSON-null `fire` is skipped, `co2_ppm` wins over `gas`, null dust readings are skipped. */
  lemma CompositeMemberRules(obj: Object, s: State, now: int)
    requires "name" !in obj
    ensures "fire" in obj && obj["fire"].JNull? && !HasNonNull(obj, "co2_ppm") && !HasNonNull(obj, "gas") && "dust" !in obj
      ==> ApplySensor(obj, s, now) == Ok(s)
    ensures HasNonNull(obj, "co2_ppm") && AsDouble(obj["co2_ppm"]).Some? && ApplyFire(obj, s, now).Ok?
      ==> ApplySensor(obj, s, now).state.co2 == AsDouble(obj["co2_ppm"])
    ensures HasObject(obj, "dust") && "pm25" in obj["dust"].fields && obj["dust"].fields["pm25"].JNull?
      && !HasNonNull(obj["dust"].fields, "pm10") && ApplyFire(obj, s, now).Ok? && ApplyGas(obj, ApplyFire(obj, s, now).state, now).Ok?
      ==> Agree(ApplySensor(obj, s, now).state, ApplyGas(obj, ApplyFire(obj, s, now).state, now).state, Dust)
  {
    assert ApplySensor(obj, s, now) == ApplyComposite(obj, s, now);
    var f := ApplyFire(obj, s, now);
    if f.Ok? {
      var g := ApplyGas(obj, f.state, now);
      if g.Ok? && HasObject(obj, "dust") {
        assert ApplyComposite(obj, s, now) == ApplyDustObject(obj["dust"].fields, g.state, now);
      }
    }
  }

  /** A JSON number with the given value. */
  function Num(v: real): Json {
    JNum(v, "n")
  }

  /** `{type:SENSOR, fire:b, gas:g, dust:{pm25:a, pm10:c}}`. */
  function CompositeMessage(fire: bool, gas: real, pm25: real, pm10: real): Json {
    JObj(map["type" := JStr("SENSOR"), "fire" := JBool(fire), "gas" := Num(gas),
             "dust" := JObj(map["pm25" := Num(pm25), "pm10" := Num(pm10)])])
  }

  /** `{type:SENSOR, name:n}` with the given reading members. */
  function NamedMessage(name: string, readings: map<string, Json>): Json {
    JObj(readings["type" := JStr("SENSOR")]["name" := JStr(name)])
  }

  lemma NamedFlameStep(x: real, s: State, now: int)
    ensures ApplyJson(Some(NamedMessage("FLAME", map["value" := Num(x)])), s, now) == Ok(SetFlame(s, Some(x), now))
  {
    var o := NamedMessage("FLAME", map["value" := Num(x)]).fields;
    assert o["type"] == JStr("SENSOR") && o["name"] == JStr("FLAME") && o["value"] == Num(x);
  }

  lemma NamedCo2Step(x: real, s: State, now: int)
    ensures ApplyJson(Some(NamedMessage("CO2", map["value" := Num(x)])), s, now) == Ok(SetCo2(s, Some(x), now))
  {
    var o := NamedMessage("CO2", map["value" := Num(x)]).fields;
    assert o["type"] == JStr("SENSOR") && o["name"] == JStr("CO2") && o["value"] == Num(x);
  }

  lemma NamedDustStep(a: real, c: real, s: State, now: int)
    ensures ApplyJson(Some(NamedMessage("DUST", map["pm25" := Num(a), "pm10" := Num(c)])), s, now)
         == Ok(SetPm10(SetPm25(s, Some(a), now), Some(c), now))
  {
    var o := NamedMessage("DUST", map["pm25" := Num(a), "pm10" := Num(c)]).fields;
    assert o["type"] == JStr("SENSOR") && o["name"] == JStr("DUST") && o["pm25"] == Num(a) && o["pm10"] == Num(c);
    assert ApplyNamed(o, s, now) == Ok(SetPm10(SetPm25(s, Some(a), now), Some(c), now));
  }

  /** A typed SENSOR message with `name` stores each readable reading of the sensor it names. */
  lemma NamedReadingStored(obj: Object, s: State, now: int)
    requires "type" in obj && AsString(obj["type"]) == Some("SENSOR") && "name" in obj
    ensures var r := ApplyJson(Some(JObj(obj)), s, now);
      && (Names(obj, "FLAME", "value") && AsDouble(obj["value"]).Some? ==> r == Ok(SetFlame(s, AsDouble(obj["value"]), now)))
      && (Names(obj, "CO2", "value") && AsDouble(obj["value"]).Some? ==> r == Ok(SetCo2(s, AsDouble(obj["value"]), now)))
      && (Names(obj, "PIR", "detected") && AsBool(obj["detected"]).Some? ==> r == Ok(SetPir(s, AsBool(obj["detected"]), now)))
      && (Names(obj, "ULTRASONIC", "distance") && AsDouble(obj["distance"]).Some? ==>
            r == Ok(SetUltrasonic(s, AsDouble(obj["distance"]), now)))
  {
    assert ApplyJson(Some(JObj(obj)), s, now) == ApplyNamed(obj, s, now);
  }

  /** A typed SENSOR object without `name` is handled by the composite dialect. */
  lemma SensorDispatch(o: Object, s: State, now: int)
    requires "type" in o && o["type"] == JStr("SENSOR") && "name" !in o
    ensures ApplyJson(Some(JObj(o)), s, now) == ApplyComposite(o, s, now)
  {
    assert AsString(o["type"]) == Some("SENSOR");
  }

  lemma CompositeFireGas(fire: bool, gas: real, pm25: real, pm10: real, s: State, now: int)
    ensures var o := CompositeMessage(fire, gas, pm25, pm10).fields;
      var f := SetFlame(s, Some(FireLevel(fire)), now);
      ApplyFire(o, s, now) == Ok(f) && ApplyGas(o, f, now) == Ok(SetCo2(f, Some(gas), now))
  {
    var o := CompositeMessage(fire, gas, pm25, pm10).fields;
    assert "co2_ppm" !in o;
    assert o["fire"] == JBool(fire) && o["gas"] == Num(gas);
  }

  lemma CompositeStep(fire: bool, gas: real, pm25: real, pm10: real, s: State, now: int)
    ensures ApplyJson(Some(CompositeMessage(fire, gas, pm25, pm10)), s, now)
         == Ok(SetPm10(SetPm25(SetCo2(SetFlame(s, Some(FireLevel(fire)), now), Some(gas), now), Some(pm25), now), Some(pm10), now))
  {
    var o := CompositeMessage(fire, gas, pm25, pm10).fields;
    SensorDispatch(o, s, now);
    CompositeFireGas(fire, gas, pm25, pm10, s, now);
    var dust := o["dust"].fields;
    assert HasObject(o, "dust");
    assert dust["pm25"] == Num(pm25) && dust["pm10"] == Num(pm10);
    var c := SetCo2(SetFlame(s, Some(FireLevel(fire)), now), Some(gas), now);
    assert ApplyDustObject(dust, c, now) == Ok(SetPm10(SetPm25(c, Some(pm25), now), Some(pm10), now));
  }

  /**
   * The two dialects agree: one composite message and the named sequence FLAME, CO2, DUST
   * carrying the same readings leave identical records.
   */
  lemma CompositeMatchesNamedSequence(fire: bool, gas: real, pm25: real, pm10: real, s: State, now: int)
    ensures ApplyJson(Some(CompositeMessage(fire, gas, pm25, pm10)), s, now).Ok?
    ensures
      var s1 := ApplyJson(Some(NamedMessage("FLAME", map["value" := Num(FireLevel(fire))])), s, now);
      var s2 := ApplyJson(Some(NamedMessage("CO2", map["value" := Num(gas)])), s1.state, now);
      var s3 := ApplyJson(Some(NamedMessage("DUST", map["pm25" := Num(pm25), "pm10" := Num(pm10)])), s2.state, now);
      s1.Ok? && s2.Ok? && s3.Ok? && s3.state == ApplyJson(Some(CompositeMessage(fire, gas, pm25, pm10)), s, now).state
  {
    CompositeStep(fire, gas, pm25, pm10, s, now);
    NamedFlameStep(FireLevel(fire), s, now);
    var f := SetFlame(s, Some(FireLevel(fire)), now);
    NamedCo2Step(gas, f, now);
    NamedDustStep(pm25, pm10, SetCo2(f, Some(gas), now), now);
  }

  /** VISION copies `yolo.person` and `yolo.best.conf` when present, and the event's `ts` into the vision timestamp. */
  lemma VisionFromYolo(obj: Object, s: State, now: int)
    requires "type" in obj && AsString(obj["type"]) == Some("VISION")
    ensures var r := ApplyJson(Some(JObj(obj)), s, now);
      OnlyChanges(s, r.state, Vision)
      && (HasObject(obj, "yolo") && "person" in obj["yolo"].fields && r.Ok? ==>
            r.state.visionPerson == AsBool(obj["yolo"].fields["person"]))
      && ((!HasObject(obj, "yolo") || "person" !in obj["yolo"].fields) ==> r.state.visionPerson == s.visionPerson)
      && (HasObject(obj, "yolo") && HasConf(obj["yolo"].fields) && r.Ok? ==>
            r.state.visionConf == AsDouble(obj["yolo"].fields["best"].fields["conf"]))
      && (!(HasObject(obj, "yolo") && HasConf(obj["yolo"].fields)) ==> r.state.visionConf == s.visionConf)
      && ("ts" in obj && r.Ok? ==> r.state.visionTs == AsInt(obj["ts"]))
  {
  }
}
