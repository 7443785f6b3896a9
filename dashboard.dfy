/**
 * The decisions the dashboard page `src/app/dashboard/page.tsx` takes on the
 * hook's result: the threshold classifier behind every sensor badge, the
 * defaults of the alert banner, and the rain badge.
 */
module Dashboard {
  import opened Wrappers
  import opened JsValues
  import opened SensorCoerce
  import opened SensorPipeline

  /** The badge variants the classifier and the rain badge pick from. */
  datatype Variant = DefaultVariant | Muted | Success | Destructive

  datatype SensorStatus = SensorStatus(status: string, variant: Variant)

  /**
   * `getSensorStatus(value, type)`: below the lower bound, above the upper
   * bound, or in between (bounds included), with a fixed label and variant
   * for each band of each sensor kind.
   */
  function GetSensorStatus(value: real, kind: string): (r: SensorStatus)
    ensures kind == "temperature" ==>
      (r == SensorStatus("Low", Muted) <==> value < 18.0) &&
      (r == SensorStatus("High", Destructive) <==> value > 30.0) &&
      (r == SensorStatus("Optimal", Success) <==> 18.0 <= value <= 30.0)
    ensures kind == "humidity" ==>
      (r == SensorStatus("Low", Muted) <==> value < 30.0) &&
      (r == SensorStatus("High", Destructive) <==> value > 70.0) &&
      (r == SensorStatus("Good", Success) <==> 30.0 <= value <= 70.0)
    ensures kind == "light" ==>
      (r == SensorStatus("Dark", Muted) <==> value < 100.0) &&
      (r == SensorStatus("Bright", DefaultVariant) <==> value > 300.0) &&
      (r == SensorStatus("Good", Success) <==> 100.0 <= value <= 300.0)
    ensures kind == "soil" ==>
      (r == SensorStatus("Dry", Destructive) <==> value < 30.0) &&
      (r == SensorStatus("Wet", DefaultVariant) <==> value > 70.0) &&
      (r == SensorStatus("Moist", Success) <==> 30.0 <= value <= 70.0)
    ensures kind !in {"temperature", "humidity", "light", "soil"} ==> r == SensorStatus("Unknown", Muted)
  {
    if kind == "temperature" then
      if value < 18.0 then SensorStatus("Low", Muted)
      else if value > 30.0 then SensorStatus("High", Destructive)
      else SensorStatus("Optimal", Success)
    else if kind == "humidity" then
      if value < 30.0 then SensorStatus("Low", Muted)
      else if value > 70.0 then SensorStatus("High", Destructive)
      else SensorStatus("Good", Success)
    else if kind == "light" then
      if value < 100.0 then SensorStatus("Dark", Muted)
      else if value > 300.0 then SensorStatus("Bright", DefaultVariant)
      else SensorStatus("Good", Success)
    else if kind == "soil" then
      if value < 30.0 then SensorStatus("Dry", Destructive)
      else if value > 70.0 then SensorStatus("Wet", DefaultVariant)
      else SensorStatus("Moist", Success)
    else SensorStatus("Unknown", Muted)
  }

  /** The bounds of a known sensor kind: the band a value falls in is fixed by them alone. */
  function Bounds(kind: string): Option<(real, real)> {
    if kind == "temperature" then Some((18.0, 30.0))
    else if kind == "humidity" then Some((30.0, 70.0))
    else if kind == "light" then Some((100.0, 300.0))
    else if kind == "soil" then Some((30.0, 70.0))
    else None
  }

  /** Which band a value falls in: 0 below the bounds, 1 within, 2 above. */
  function BandOf(value: real, bounds: (real, real)): (r: nat)
    ensures r <= 2
  {
    if value < bounds.0 then 0 else if value > bounds.1 then 2 else 1
  }

  /**
   * Two values in the same band of a known kind get the same status, and
   * two values in different bands get different ones: the classifier is a
   * function of the band alone, and tells the bands apart.
   */
  lemma StatusIsBand(kind: string, v: real, w: real)
    requires Bounds(kind).Some?
    ensures GetSensorStatus(v, kind) == GetSensorStatus(w, kind) <==>
      BandOf(v, Bounds(kind).value) == BandOf(w, Bounds(kind).value)
  {
  }

  /** `currentData?.alert_severity ?? "none"`. */
  function Severity(current: Option<SensorReading>): (r: string)
    ensures r == "critical" <==> current.Some? && current.value.alert_severity == Critical
    ensures r == "none" <==> !(current.Some? && current.value.alert_severity == Critical)
  {
    match current
    case Some(d) => d.alert_severity.Label()
    case None => "none"
  }

  /** `currentData?.alert_reasons ?? []`. */
  function AlertReasons(current: Option<SensorReading>): (r: seq<string>)
    ensures current.None? ==> r == []
    ensures current.Some? ==> r == current.value.alert_reasons
  {
    match current
    case Some(d) => d.alert_reasons
    case None => []
  }

  /** The rain badge: `!currentData?.rain ? "RAIN DETECTED" : "NO RAIN"`, variant alongside. */
  function RainBadge(current: Option<SensorReading>): (r: (string, Variant))
    ensures r.0 == "RAIN DETECTED" <==> current.None? || current.value.rain == 0.0
    ensures r.0 == "RAIN DETECTED" ==> r.1 == DefaultVariant
    ensures r.0 != "RAIN DETECTED" ==> r == ("NO RAIN", Muted)
  {
    if current.None? || current.value.rain == 0.0 then ("RAIN DETECTED", DefaultVariant)
    else ("NO RAIN", Muted)
  }

  /** The LED badge: `currentData?.led ? "ON" : "OFF"`. */
  function LedBadge(current: Option<SensorReading>): (r: (string, Variant))
    ensures r == ("ON", Success) <==> current.Some? && current.value.led
    ensures r == ("OFF", Muted) <==> !(current.Some? && current.value.led)
  {
    if current.Some? && current.value.led then ("ON", Success) else ("OFF", Muted)
  }

  /**
   * The status shown for a reading field: `getSensorStatus(field ?? NaN, kind)`.
   * With no reading the value is NaN, every comparison with NaN is false,
   * and the badge lands in the middle band.
   */
  function FieldStatus(value: Option<real>, kind: string): (r: SensorStatus)
    ensures value.Some? ==> r == GetSensorStatus(value.value, kind)
    ensures value.None? && Bounds(kind).Some? ==> r == GetSensorStatus(Bounds(kind).value.0, kind)
    ensures value.None? && Bounds(kind).None? ==> r == SensorStatus("Unknown", Muted)
  {
    match value
    case Some(v) => GetSensorStatus(v, kind)
    case None =>
      // NaN: neither `value < low` nor `value > high` holds
      if kind == "temperature" then SensorStatus("Optimal", Success)
      else if kind == "humidity" then SensorStatus("Good", Success)
      else if kind == "light" then SensorStatus("Good", Success)
      else if kind == "soil" then SensorStatus("Moist", Success)
      else SensorStatus("Unknown", Muted)
  }

  /** An empty result (no snapshot yet, a falsy snapshot, or an error) shows the quiet defaults. */
  lemma EmptyResultDefaults()
    ensures Severity(Empty.current) == "none"
    ensures AlertReasons(Empty.current) == []
    ensures RainBadge(Empty.current).0 == "RAIN DETECTED"
    ensures LedBadge(Empty.current).0 == "OFF"
  {
  }

  /**
   * The rain badge of a raw record: a record without a `rain` property, or
   * with `rain` 0, "0", false or any string but "1", shows "RAIN DETECTED";
   * a non-zero number, "1" or true shows "NO RAIN".
   */
  lemma RainBadgeOfRecord(p: Primitives, entry: JsVal)
    requires CoerceSensorData(p, entry).Some?
    ensures var raw := Get(Decoded(p, entry).value, "rain");
      RainBadge(CoerceSensorData(p, entry)).0 == "RAIN DETECTED" <==>
        (raw.JNum? && raw.n == 0.0) || (!raw.JNum? && raw != JStr("1") && raw != JBool(true))
  {
  }
}
