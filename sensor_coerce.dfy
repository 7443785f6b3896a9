/**
 * The record coercer of `src/stores/useSensorData.ts`: `coerceNumber` and
 * `coerceSensorData`, which turn one untyped database record into a strict
 * sensor reading or reject it.
 */
module SensorCoerce {
  import opened Wrappers
  import opened JsValues

  /** `alert_severity`: the source's strings "critical" and "none". */
  datatype AlertSeverity = Critical | NoAlert {
    function Label(): string {
      if Critical? then "critical" else "none"
    }
  }

  /** `leaf_color`: the source's strings "Green", "Yellow" and "unknown". */
  datatype LeafColor = Green | Yellow | UnknownColor {
    function Label(): string {
      match this
      case Green => "Green"
      case Yellow => "Yellow"
      case UnknownColor => "unknown"
    }
  }

  /**
   * A validated reading, with the field names of the database records
   * (`SensorData` of src/types/sensor.ts, together with the alert and leaf
   * fields that the coercer adds).
   */
  datatype SensorReading = SensorReading(
    rt_ms: real,
    pi_temp: real,
    pi_hum: real,
    lux: real,
    soil: real,
    led: bool,
    rain: real,
    button_pressed: bool,
    ts_esp: real,
    alert_severity: AlertSeverity,
    alert_reasons: seq<string>,
    leaf_color: LeafColor)

  /**
   * `coerceNumber`: a number is taken as it is; a string is taken when it is
   * not all white space and `Number` parses it; nothing else has a value.
   */
  function CoerceNumber(p: Primitives, v: JsVal): (r: Option<real>)
    ensures v.JNum? ==> r == Some(v.n)
    ensures !v.JNum? && !v.JStr? ==> r == None
    ensures v.JStr? ==> (r.Some? <==> !Blank(v.s) && p.parseNumber(v.s).Some?)
    ensures v.JStr? && r.Some? ==> r == p.parseNumber(v.s)
  {
    if v.JNum? then Some(v.n)
    else if v.JStr? && Trim(v.s) != "" && p.parseNumber(v.s).Some? then p.parseNumber(v.s)
    else None
  }

  /** `coerceNumber(v) ?? 0`. */
  function NumberOrZero(p: Primitives, v: JsVal): (r: real)
    ensures CoerceNumber(p, v).Some? ==> r == CoerceNumber(p, v).value
    ensures CoerceNumber(p, v).None? ==> r == 0.0
  {
    CoerceNumber(p, v).GetOr(0.0)
  }

  /** `coerceNumber(primary) ?? coerceNumber(fallback) ?? 0`: the fallback is consulted only when the primary has no value. */
  function NumberWithFallback(p: Primitives, primary: JsVal, fallback: JsVal): (r: real)
    ensures CoerceNumber(p, primary).Some? ==> r == CoerceNumber(p, primary).value
    ensures CoerceNumber(p, primary).None? ==> r == NumberOrZero(p, fallback)
  {
    CoerceNumber(p, primary).OrElse(CoerceNumber(p, fallback)).GetOr(0.0)
  }

  /** `led` and `button_pressed`: a boolean as it is, otherwise true only for "true" and 1. */
  function CoerceFlag(v: JsVal): (r: bool)
    ensures r <==> v == JBool(true) || v == JStr("true") || v == JNum(1.0)
  {
    if v.JBool? then v.b else v == JStr("true") || v == JNum(1.0)
  }

  /** `rain`: a number as it is, otherwise 1 for "1" and true, and 0 for anything else. */
  function CoerceRain(v: JsVal): (r: real)
    ensures v.JNum? ==> r == v.n
    ensures !v.JNum? ==> (r == 1.0 <==> v == JStr("1") || v == JBool(true))
    ensures !v.JNum? ==> r == 0.0 || r == 1.0
  {
    if v.JNum? then v.n
    else if v == JStr("1") || v == JBool(true) then 1.0
    else 0.0
  }

  /** `alert_severity`: critical only for the exact string "critical". */
  function CoerceSeverity(v: JsVal): (r: AlertSeverity)
    ensures r == Critical <==> v == JStr("critical")
  {
    if v == JStr("critical") then Critical else NoAlert
  }

  /**
   * `alert_reasons`: the strings of an array, else the string values of an
   * object, else a string that is not all white space on its own, else none.
   */
  function CoerceReasons(v: JsVal): (r: seq<string>)
    ensures v.JArr? ==> r == Strings(v.elems)
    ensures v.JObj? ==> r == Strings(ObjectValues(v))
    ensures v.JStr? ==> r == if Blank(v.s) then [] else [v.s]
    ensures !v.JArr? && !v.JObj? && !v.JStr? ==> r == []
    ensures forall s :: s in r ==> JStr(s) in ObjectValues(v) || r == [v.s]
  {
    if v.JArr? then Strings(v.elems)
    else if !Falsy(v) && TypeofObject(v) then Strings(ObjectValues(v))
    else if v.JStr? && Trim(v.s) != "" then [v.s]
    else []
  }


  /** `leaf_color`: "green" or "yellow" in any mix of case, else unknown. */
  function CoerceLeafColor(v: JsVal): (r: LeafColor)
    ensures r == Green <==> v.JStr? && LowerAsciiString(v.s) == "green"
    ensures r == Yellow <==> v.JStr? && LowerAsciiString(v.s) == "yellow"
  {
    if v.JStr? then
      if MatchesIgnoreCase(v.s, "green") then Green
      else if MatchesIgnoreCase(v.s, "yellow") then Yellow
      else UnknownColor
    else UnknownColor
  }

  /** The record an entry stands for: a string is JSON text to decode (None when decoding throws). */
  function Decoded(p: Primitives, entry: JsVal): (r: Option<JsVal>)
    ensures !entry.JStr? ==> r == Some(entry)
    ensures entry.JStr? ==> r == p.parseJson(entry.s)
  {
    if entry.JStr? then p.parseJson(entry.s) else Some(entry)
  }

  /**
   * The entry decodes to an object whose `rt_ms` has a numeric value. Such
   * an object gets past the guard `!obj || typeof obj !== "object"`.
   */
  predicate HasTimestamp(p: Primitives, entry: JsVal)
    ensures HasTimestamp(p, entry) ==>
      Decoded(p, entry).Some? && !Falsy(Decoded(p, entry).value) && TypeofObject(Decoded(p, entry).value)
  {
    && Decoded(p, entry).Some?
    && Decoded(p, entry).value.JObj?
    && CoerceNumber(p, Get(Decoded(p, entry).value, "rt_ms")).Some?
  }

  /**
   * The reading built from a record object once its `rt_ms` is known to have
   * a value: every field follows its own rule, and a field the record does
   * not carry takes its default (0, false, "none", no reasons, "unknown").
   */
  function ReadingOf(p: Primitives, obj: JsVal, rt_ms: real): (r: SensorReading)
    ensures r.rt_ms == rt_ms
    ensures r.led <==> Get(obj, "led") == JBool(true) || Get(obj, "led") == JStr("true") || Get(obj, "led") == JNum(1.0)
    ensures r.button_pressed <==>
      Get(obj, "button_pressed") == JBool(true) || Get(obj, "button_pressed") == JStr("true") || Get(obj, "button_pressed") == JNum(1.0)
    ensures r.rain != 0.0 && r.rain != 1.0 ==> Get(obj, "rain").JNum?
    ensures r.alert_severity == Critical <==> Get(obj, "alert_severity") == JStr("critical")
    ensures Get(obj, "lux") == JUndef ==> r.lux == 0.0
    ensures Get(obj, "soil") == JUndef ==> r.soil == 0.0
    ensures Get(obj, "ts_esp") == JUndef ==> r.ts_esp == 0.0
    ensures Get(obj, "alert_reasons") == JUndef ==> r.alert_reasons == []
    ensures Get(obj, "leaf_color") == JUndef ==> r.leaf_color == UnknownColor
  {
    SensorReading(
      rt_ms := rt_ms,
      pi_temp := NumberWithFallback(p, Get(obj, "pi_temp"), Get(obj, "pi-temp")),
      pi_hum := NumberWithFallback(p, Get(obj, "pi_hum"), Get(obj, "pi-hum")),
      lux := NumberOrZero(p, Get(obj, "lux")),
      soil := NumberOrZero(p, Get(obj, "soil")),
      led := CoerceFlag(Get(obj, "led")),
      rain := CoerceRain(Get(obj, "rain")),
      button_pressed := CoerceFlag(Get(obj, "button_pressed")),
      ts_esp := NumberOrZero(p, Get(obj, "ts_esp")),
      alert_severity := CoerceSeverity(Get(obj, "alert_severity")),
      alert_reasons := CoerceReasons(Get(obj, "alert_reasons")),
      leaf_color := CoerceLeafColor(Get(obj, "leaf_color")))
  }

  /**
   * `coerceSensorData`. A record is rejected as a whole (None) when its JSON
   * does not decode, when it is not an object, or when `rt_ms` has no value;
   * otherwise every field is populated by its own rule. Arrays and null pass
   * the `typeof obj === "object"` test in the source but have no `rt_ms`.
   */
  function CoerceSensorData(p: Primitives, entry: JsVal): (r: Option<SensorReading>)
    ensures r.Some? <==> HasTimestamp(p, entry)
    ensures r.Some? ==>
      var obj := Decoded(p, entry).value;
      Some(r.value.rt_ms) == CoerceNumber(p, Get(obj, "rt_ms")) &&
      r.value == ReadingOf(p, obj, r.value.rt_ms)
  {
    match Decoded(p, entry)
    case None => None
    case Some(obj) =>
      if Falsy(obj) || !TypeofObject(obj) then None
      else
        var rt_ms := CoerceNumber(p, Get(obj, "rt_ms"));
        if rt_ms.None? then None
        else Some(ReadingOf(p, obj, rt_ms.value))
  }

  /** A record whose JSON text does not decode is rejected. */
  lemma RejectsUndecodable(p: Primitives, s: string)
    requires p.parseJson(s).None?
    ensures CoerceSensorData(p, JStr(s)).None?
  {
  }

  /** A record without a usable `rt_ms` is rejected, whatever its other fields hold. */
  lemma {:induction false} RejectsWithoutTimestamp(p: Primitives, props: seq<(string, JsVal)>)
    requires forall i :: 0 <= i < |props| ==> props[i].0 == "rt_ms" ==> CoerceNumber(p, props[i].1).None?
    ensures CoerceSensorData(p, JObj(props)).None?
  {
    LookupNoValue(p, props, "rt_ms");
  }

  /** Every property under `key` lacks a numeric value, so the lookup lacks one too. */
  lemma {:induction false} LookupNoValue(p: Primitives, props: seq<(string, JsVal)>, key: string)
    requires forall i :: 0 <= i < |props| ==> props[i].0 == key ==> CoerceNumber(p, props[i].1).None?
    ensures CoerceNumber(p, Lookup(props, key)).None?
  {
    if |props| > 0 && props[0].0 != key {
      LookupNoValue(p, props[1..], key);
    }
  }

  /** The underscore key wins: a usable `pi_temp` hides `pi-temp`, and likewise for humidity. */
  lemma UnderscoreKeyPrecedence(p: Primitives, entry: JsVal)
    requires CoerceSensorData(p, entry).Some?
    ensures var obj := Decoded(p, entry).value;
      var x := CoerceSensorData(p, entry).value;
      && (CoerceNumber(p, Get(obj, "pi_temp")).Some? ==> Some(x.pi_temp) == CoerceNumber(p, Get(obj, "pi_temp")))
      && (CoerceNumber(p, Get(obj, "pi_temp")).None? ==> x.pi_temp == NumberOrZero(p, Get(obj, "pi-temp")))
      && (CoerceNumber(p, Get(obj, "pi_hum")).Some? ==> Some(x.pi_hum) == CoerceNumber(p, Get(obj, "pi_hum")))
      && (CoerceNumber(p, Get(obj, "pi_hum")).None? ==> x.pi_hum == NumberOrZero(p, Get(obj, "pi-hum")))
  {
  }

  /** A record of mixed raw forms: a numeric string, a string flag, a string rain value, and a list of reasons. */
  function ExampleRecordA(): JsVal {
    JObj([("rt_ms", JNum(1000.0)), ("pi_temp", JStr("22.5")), ("pi_hum", JNum(55.0)),
          ("led", JStr("true")), ("rain", JStr("1")), ("alert_severity", JStr("critical")),
          ("alert_reasons", JArr([JStr("soil dry"), JStr("temp high")]))])
  }

  /** An object whose properties read as those of `ExampleRecordA`. */
  predicate ReadsAsExampleA(obj: JsVal) {
    obj.JObj? && ExampleANumericProps(obj) && ExampleAOtherProps(obj)
  }

  predicate ExampleANumericProps(obj: JsVal) {
    && Get(obj, "rt_ms") == JNum(1000.0)
    && Get(obj, "pi_temp") == JStr("22.5")
    && Get(obj, "pi-temp") == JUndef
    && Get(obj, "pi_hum") == JNum(55.0)
    && Get(obj, "lux") == JUndef
    && Get(obj, "soil") == JUndef
    && Get(obj, "ts_esp") == JUndef
  }

  predicate ExampleAOtherProps(obj: JsVal) {
    && Get(obj, "led") == JStr("true")
    && Get(obj, "rain") == JStr("1")
    && Get(obj, "button_pressed") == JUndef
    && Get(obj, "alert_severity") == JStr("critical")
    && Get(obj, "alert_reasons") == JArr([JStr("soil dry"), JStr("temp high")])
    && Get(obj, "leaf_color") == JUndef
  }

  /** `ExampleRecordA` reads as such. */
  lemma ExampleRecordAReads()
    ensures ReadsAsExampleA(ExampleRecordA())
  {
    ExampleRecordANumeric();
    ExampleRecordAOther();
  }

  lemma ExampleRecordANumeric()
    ensures ExampleANumericProps(ExampleRecordA())
  {
    ExampleRecordAReadings();
    ExampleRecordAAbsent();
  }

  lemma ExampleRecordAReadings()
    ensures var obj := ExampleRecordA();
      Get(obj, "rt_ms") == JNum(1000.0) && Get(obj, "pi_temp") == JStr("22.5") && Get(obj, "pi_hum") == JNum(55.0)
  {
  }

  lemma ExampleRecordAAbsent()
    ensures var obj := ExampleRecordA();
      Get(obj, "pi-temp") == JUndef && Get(obj, "lux") == JUndef && Get(obj, "soil") == JUndef && Get(obj, "ts_esp") == JUndef
  {
  }

  lemma ExampleRecordAOther()
    ensures ExampleAOtherProps(ExampleRecordA())
  {
  }

  /**
   * A record of mixed raw forms coerces field by
   * field (the string "22.5" parses to 22.5).
   */
  lemma ExampleA(p: Primitives, obj: JsVal)
    requires p.parseNumber("22.5") == Some(22.5)
    requires ReadsAsExampleA(obj)
    ensures CoerceSensorData(p, obj) ==
      Some(SensorReading(1000.0, 22.5, 55.0, 0.0, 0.0, true, 1.0, false, 0.0,
                         Critical, ["soil dry", "temp high"], UnknownColor))
  {
    AcceptsObject(p, obj, 1000.0);
    ExampleAFields(p, obj);
  }

  /** An object with a usable `rt_ms` is accepted and built field by field. */
  lemma AcceptsObject(p: Primitives, obj: JsVal, t: real)
    requires obj.JObj?
    requires CoerceNumber(p, Get(obj, "rt_ms")) == Some(t)
    ensures CoerceSensorData(p, obj) == Some(ReadingOf(p, obj, t))
  {
  }

  lemma ExampleAFields(p: Primitives, obj: JsVal)
    requires p.parseNumber("22.5") == Some(22.5)
    requires ReadsAsExampleA(obj)
    ensures ReadingOf(p, obj, 1000.0) ==
      SensorReading(1000.0, 22.5, 55.0, 0.0, 0.0, true, 1.0, false, 0.0,
                    Critical, ["soil dry", "temp high"], UnknownColor)
  {
    ExampleANumbers(p, obj);
    ExampleAReasons(obj);
  }

  lemma ExampleANumbers(p: Primitives, obj: JsVal)
    requires p.parseNumber("22.5") == Some(22.5)
    requires ExampleANumericProps(obj)
    ensures var x := ReadingOf(p, obj, 1000.0);
      x.pi_temp == 22.5 && x.pi_hum == 55.0 && x.lux == 0.0 && x.soil == 0.0 && x.ts_esp == 0.0
  {
    ParsesTemperature(p);
  }

  /** The string "22.5" is not blank, so it coerces to what `Number` makes of it. */
  lemma ParsesTemperature(p: Primitives)
    requires p.parseNumber("22.5") == Some(22.5)
    ensures CoerceNumber(p, JStr("22.5")) == Some(22.5)
  {
    assert !Blank("22.5") by { assert !IsJsSpace("22.5"[0]); }
  }

  lemma ExampleAReasons(obj: JsVal)
    requires ExampleAOtherProps(obj)
    ensures CoerceReasons(Get(obj, "alert_reasons")) == ["soil dry", "temp high"]
  {
    var reasons := [JStr("soil dry"), JStr("temp high")];
    StringsOfStrings(reasons);
    assert Strings(reasons) == ["soil dry", "temp high"];
  }

  /** `ExampleRecordA` itself coerces to the expected reading. */
  lemma ExampleRecordACoerces(p: Primitives)
    requires p.parseNumber("22.5") == Some(22.5)
    ensures CoerceSensorData(p, ExampleRecordA()) ==
      Some(SensorReading(1000.0, 22.5, 55.0, 0.0, 0.0, true, 1.0, false, 0.0,
                         Critical, ["soil dry", "temp high"], UnknownColor))
  {
    ExampleRecordAReads();
    ExampleA(p, ExampleRecordA());
  }

  /** A timestamp that does not parse rejects the record. */
  lemma ExampleB(p: Primitives)
    requires p.parseNumber("not-a-number").None?
    ensures CoerceSensorData(p, JObj([("rt_ms", JStr("not-a-number"))])).None?
  {
  }

  /** Humidity under the hyphenated key alone is used. */
  lemma ExampleE(p: Primitives)
    ensures var r := CoerceSensorData(p, JObj([("rt_ms", JNum(5.0)), ("pi-hum", JNum(40.0))]));
      r.Some? && r.value.pi_hum == 40.0
  {
  }
}
