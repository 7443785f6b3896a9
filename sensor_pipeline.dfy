/**
 * The snapshot reducer and window selector of `src/stores/useSensorData.ts`
 * (`mapToResult`): every record of a snapshot is coerced, rejects are
 * dropped, the readings are sorted stably by `rt_ms`, and the latest reading
 * and a trailing history of at most 24 points are published.
 */
module SensorPipeline {
  import opened Wrappers
  import opened JsValues
  import opened SensorCoerce

  /** `HistoricalPoint`: one chart point projected from a reading. */
  datatype HistoricalPoint = HistoricalPoint(
    time: string,
    temperature: real,
    humidity: real,
    lux: real,
    soil: real)

  /** `SensorQueryResult`: the latest reading, if any, and the chart history, oldest first. */
  datatype SensorQueryResult = SensorQueryResult(
    current: Option<SensorReading>,
    history: seq<HistoricalPoint>)

  /** `{ current: null, history: [] }`. */
  const Empty := SensorQueryResult(None, [])

  /** The number of readings kept for the charts (`slice(-24)`). */
  const HistoryLength := 24

  function Min(a: int, b: int): int {
    if a <= b then a else b
  }

  // ---------------------------------------------------------------------
  // Collecting the readings of a snapshot
  // ---------------------------------------------------------------------

  /** The raw records of a snapshot: the truthy elements of an array, else `Object.values`. */
  function Entries(raw: JsVal): (r: seq<JsVal>)
    ensures raw.JArr? ==> forall e :: e in r <==> e in raw.elems && !Falsy(e)
    ensures raw.JObj? ==> |r| == |raw.props| && forall i :: 0 <= i < |r| ==> r[i] == raw.props[i].1
  {
    if raw.JArr? then Truthy(raw.elems) else ObjectValues(raw)
  }

  /** `entries.map(coerceSensorData).filter(e => !!e)`: the readings of the accepted records, in order. */
  function CoerceAll(p: Primitives, entries: seq<JsVal>): (r: seq<SensorReading>)
    ensures |r| <= |entries|
  {
    if |entries| == 0 then [] else Kept(p, entries[0]) + CoerceAll(p, entries[1..])
  }

  /** The reading of one record, if it is accepted. */
  function Kept(p: Primitives, entry: JsVal): (r: seq<SensorReading>)
    ensures |r| <= 1
    ensures forall x :: x in r <==> CoerceSensorData(p, entry) == Some(x)
  {
    match CoerceSensorData(p, entry)
    case Some(x) => [x]
    case None => []
  }

  /** A reading is kept exactly when some record coerces to it: rejects never appear. */
  lemma {:induction false} CoerceAllMembers(p: Primitives, entries: seq<JsVal>, x: SensorReading)
    ensures x in CoerceAll(p, entries) <==> exists e :: e in entries && CoerceSensorData(p, e) == Some(x)
  {
    if |entries| > 0 {
      CoerceAllMembers(p, entries[1..], x);
      assert forall e :: e in entries <==> e == entries[0] || e in entries[1..];
    }
  }

  /** Coercing distributes over concatenation: accepted readings keep the order of their records. */
  lemma {:induction false} CoerceAllAppend(p: Primitives, a: seq<JsVal>, b: seq<JsVal>)
    ensures CoerceAll(p, a + b) == CoerceAll(p, a) + CoerceAll(p, b)
  {
    if |a| == 0 {
      assert a + b == b;
    } else {
      assert (a + b)[0] == a[0];
      assert (a + b)[1..] == a[1..] + b;
      CoerceAllAppend(p, a[1..], b);
      var h := Kept(p, a[0]);
      assert CoerceAll(p, a + b) == h + (CoerceAll(p, a[1..]) + CoerceAll(p, b));
    }
  }

  /** The readings of a snapshot before sorting; a falsy snapshot has none. */
  function Readings(p: Primitives, raw: JsVal): (r: seq<SensorReading>)
    ensures Falsy(raw) ==> r == []
    ensures |r| <= |Entries(raw)|
  {
    if Falsy(raw) then [] else CoerceAll(p, Entries(raw))
  }

  /** A reading belongs to a snapshot exactly when one of its records coerces to it. */
  lemma ReadingsFromRecords(p: Primitives, raw: JsVal, x: SensorReading)
    ensures x in Readings(p, raw) <==>
      !Falsy(raw) && exists e :: e in Entries(raw) && CoerceSensorData(p, e) == Some(x)
  {
    CoerceAllMembers(p, Entries(raw), x);
  }

  // ---------------------------------------------------------------------
  // Sorting by timestamp
  // ---------------------------------------------------------------------

  /** Non-decreasing by `rt_ms`. */
  predicate SortedByTime(s: seq<SensorReading>) {
    forall i, j :: 0 <= i < j < |s| ==> s[i].rt_ms <= s[j].rt_ms
  }

  /** The readings stamped `t`, in their order in `s`. */
  function WithTime(s: seq<SensorReading>, t: real): (r: seq<SensorReading>)
    ensures |r| <= |s|
    ensures forall i :: 0 <= i < |r| ==> r[i].rt_ms == t
  {
    if |s| == 0 then []
    else WithTime(s[..|s| - 1], t) + (if s[|s| - 1].rt_ms == t then [s[|s| - 1]] else [])
  }

  /** Places `x` after every reading of `s` whose timestamp is not greater than its own. */
  function Insert(s: seq<SensorReading>, x: SensorReading): (r: seq<SensorReading>)
    ensures |r| == |s| + 1
  {
    if |s| == 0 || s[|s| - 1].rt_ms <= x.rt_ms then s + [x]
    else Insert(s[..|s| - 1], x) + [s[|s| - 1]]
  }

  /**
   * What `Array.prototype.sort` with the comparator `a.rt_ms - b.rt_ms`
   * leaves behind: the sort is stable, so the result is the unique
   * ordering by timestamp that keeps equal timestamps in input order.
   */
  function SortByTime(s: seq<SensorReading>): (r: seq<SensorReading>)
    ensures |r| == |s|
  {
    if |s| == 0 then [] else Insert(SortByTime(s[..|s| - 1]), s[|s| - 1])
  }

  lemma {:induction false} InsertPermutes(s: seq<SensorReading>, x: SensorReading)
    ensures multiset(Insert(s, x)) == multiset(s) + multiset{x}
  {
    if |s| > 0 && s[|s| - 1].rt_ms > x.rt_ms {
      var init := s[..|s| - 1];
      InsertPermutes(init, x);
      assert s == init + [s[|s| - 1]];
    }
  }

  lemma {:induction false} InsertSorted(s: seq<SensorReading>, x: SensorReading)
    requires SortedByTime(s)
    ensures SortedByTime(Insert(s, x))
  {
    if |s| > 0 && s[|s| - 1].rt_ms > x.rt_ms {
      var init, last := s[..|s| - 1], s[|s| - 1];
      InsertSorted(init, x);
      InsertPermutes(init, x);
      var done := Insert(init, x);
      forall i | 0 <= i < |done| ensures done[i].rt_ms <= last.rt_ms {
        assert done[i] in multiset(done);
        assert done[i] in multiset(init) || done[i] == x;
      }
    }
  }

  /** Inserting a reading only appends it to the readings that share its timestamp. */
  lemma {:induction false} InsertWithTime(s: seq<SensorReading>, x: SensorReading, t: real)
    ensures WithTime(Insert(s, x), t) == WithTime(s, t) + (if x.rt_ms == t then [x] else [])
  {
    if |s| == 0 || s[|s| - 1].rt_ms <= x.rt_ms {
      assert (s + [x])[..|s|] == s;
    } else {
      var init, last := s[..|s| - 1], s[|s| - 1];
      InsertWithTime(init, x, t);
      assert (Insert(init, x) + [last])[..|Insert(init, x) + [last]| - 1] == Insert(init, x);
    }
  }

  /** The sorted readings are ordered by timestamp. */
  lemma {:induction false} SortByTimeSorted(s: seq<SensorReading>)
    ensures SortedByTime(SortByTime(s))
  {
    if |s| > 0 {
      SortByTimeSorted(s[..|s| - 1]);
      InsertSorted(SortByTime(s[..|s| - 1]), s[|s| - 1]);
    }
  }

  /** Sorting neither drops nor adds a reading. */
  lemma {:induction false} SortByTimePermutes(s: seq<SensorReading>)
    ensures multiset(SortByTime(s)) == multiset(s)
  {
    if |s| > 0 {
      var init, last := s[..|s| - 1], s[|s| - 1];
      SortByTimePermutes(init);
      InsertPermutes(SortByTime(init), last);
      assert s == init + [last];
      assert multiset(s) == multiset(init) + multiset{last};
    }
  }

  /** Sorting is stable: the readings of each timestamp keep their input order. */
  lemma {:induction false} SortByTimeStable(s: seq<SensorReading>, t: real)
    ensures WithTime(SortByTime(s), t) == WithTime(s, t)
  {
    if |s| > 0 {
      var init := s[..|s| - 1];
      SortByTimeStable(init, t);
      InsertWithTime(SortByTime(init), s[|s| - 1], t);
    }
  }

  /** A prefix of readings in timestamp order is in timestamp order. */
  lemma SortedPrefix(s: seq<SensorReading>, n: nat)
    requires SortedByTime(s)
    requires n <= |s|
    ensures SortedByTime(s[..n])
  {
    var t := s[..n];
    forall i, j | 0 <= i < j < |t| ensures t[i].rt_ms <= t[j].rt_ms {
      assert t[i] == s[i] && t[j] == s[j];
    }
  }

  /** Readings already in timestamp order are left as they are. */
  lemma {:induction false} SortByTimeOfSorted(s: seq<SensorReading>)
    requires SortedByTime(s)
    ensures SortByTime(s) == s
  {
    if |s| > 0 {
      var n := |s| - 1;
      var init, last := s[..n], s[n];
      SortedPrefix(s, n);
      SortByTimeOfSorted(init);
      if n > 0 {
        assert init[n - 1] == s[n - 1];
      }
      assert Insert(init, last) == init + [last];
      assert s == init + [last];
    }
  }

  // ---------------------------------------------------------------------
  // The published window
  // ---------------------------------------------------------------------

  /** `{ time, temperature: pi_temp, humidity: pi_hum, lux, soil }`. */
  function ToPoint(p: Primitives, x: SensorReading): (r: HistoricalPoint)
    ensures r.time == p.timeLabel(x.rt_ms)
    ensures r.temperature == x.pi_temp && r.humidity == x.pi_hum
    ensures r.lux == x.lux && r.soil == x.soil
  {
    HistoricalPoint(p.timeLabel(x.rt_ms), x.pi_temp, x.pi_hum, x.lux, x.soil)
  }

  /**
   * The result for sorted readings: `current` is the last reading, and the
   * history projects the last (at most 24) readings, oldest first.
   */
  function Window(p: Primitives, sorted: seq<SensorReading>): (r: SensorQueryResult)
    ensures |r.history| == Min(HistoryLength, |sorted|)
    ensures forall i :: 0 <= i < |r.history| ==>
              r.history[i] == ToPoint(p, sorted[|sorted| - |r.history| + i])
    ensures r.current.None? <==> |sorted| == 0
    ensures r.current.Some? ==> r.current.value == sorted[|sorted| - 1]
  {
    var last24 := if |sorted| <= HistoryLength then sorted else sorted[|sorted| - HistoryLength..];
    var history := seq(|last24|, i requires 0 <= i < |last24| => ToPoint(p, last24[i]));
    var current := if |sorted| > 0 then Some(sorted[|sorted| - 1]) else None;
    SensorQueryResult(current, history)
  }

  /** What `mapToResult` returns for a snapshot. */
  function PipelineOf(p: Primitives, raw: JsVal): (r: SensorQueryResult)
    ensures Falsy(raw) ==> r == Empty
    ensures |r.history| == Min(HistoryLength, |Readings(p, raw)|)
    ensures r.current.None? <==> |Readings(p, raw)| == 0
  {
    if Falsy(raw) then Empty else Window(p, SortByTime(CoerceAll(p, Entries(raw))))
  }

  // ---------------------------------------------------------------------
  // The code as written: the readings are sorted in place in an array
  // ---------------------------------------------------------------------

  /**
   * Where `Insert` puts `x`: after position `j` when every reading from `j`
   * on is later than `x` and the one before `j`, if any, is not.
   */
  lemma {:induction false} InsertAt(s: seq<SensorReading>, x: SensorReading, j: nat)
    requires j <= |s|
    requires j > 0 ==> s[j - 1].rt_ms <= x.rt_ms
    requires forall k :: j <= k < |s| ==> s[k].rt_ms > x.rt_ms
    ensures Insert(s, x) == s[..j] + [x] + s[j..]
    decreases |s|
  {
    if j == |s| {
      assert s[..j] == s;
    } else {
      var init := s[..|s| - 1];
      InsertAt(init, x, j);
      assert init[..j] == s[..j];
      assert s[j..] == init[j..] + [s[|s| - 1]];
    }
  }

  /** Sorting one more reading inserts it into the sorted prefix. */
  lemma SortByTimeExtend(input: seq<SensorReading>, i: nat)
    requires i < |input|
    ensures SortByTime(input[..i + 1]) == Insert(SortByTime(input[..i]), input[i])
  {
    assert input[..i + 1][..i] == input[..i];
  }

  /**
   * Shifts the readings before position `i` that are later than `x` one
   * place to the right and returns the position they vacated.
   */
  method ShiftLater(a: array<SensorReading>, i: nat, x: SensorReading) returns (j: nat)
    requires i < a.Length
    modifies a
    ensures j <= i
    ensures j > 0 ==> old(a[j - 1]).rt_ms <= x.rt_ms
    ensures forall k :: j <= k < i ==> old(a[k]).rt_ms > x.rt_ms
    ensures forall k :: 0 <= k < j ==> a[k] == old(a[k])
    ensures forall k :: j < k <= i ==> a[k] == old(a[k - 1])
    ensures forall k :: i < k < a.Length ==> a[k] == old(a[k])
  {
    j := i;
    while j > 0 && a[j - 1].rt_ms > x.rt_ms
      invariant 0 <= j <= i
      invariant forall k :: 0 <= k < j ==> a[k] == old(a[k])
      invariant forall k :: j < k <= i ==> a[k] == old(a[k - 1])
      invariant forall k :: i < k < a.Length ==> a[k] == old(a[k])
      invariant forall k :: j <= k < i ==> old(a[k]).rt_ms > x.rt_ms
    {
      a[j] := a[j - 1];
      j := j - 1;
    }
  }

  /** One step of the insertion sort: moves `a[i]` left past every later reading before it. */
  method InsertLast(a: array<SensorReading>, i: nat)
    requires i < a.Length
    modifies a
    ensures a[..i + 1] == Insert(old(a[..i]), old(a[i]))
    ensures a[i + 1..] == old(a[i + 1..])
  {
    ghost var sorted := a[..i];
    var x := a[i];
    var j := ShiftLater(a, i, x);
    a[j] := x;
    InsertAt(sorted, x, j);
    assert a[..i + 1] == sorted[..j] + [x] + sorted[j..];
  }

  /** `coerced.sort((a, b) => a.rt_ms - b.rt_ms)`, as a stable insertion sort in place. */
  method SortInPlace(a: array<SensorReading>)
    modifies a
    ensures a[..] == SortByTime(old(a[..]))
  {
    ghost var input := a[..];
    var i := 0;
    while i < a.Length
      invariant 0 <= i <= a.Length
      invariant a[..i] == SortByTime(input[..i])
      invariant a[i..] == input[i..]
    {
      SortByTimeExtend(input, i);
      assert a[i] == input[i];
      InsertLast(a, i);
      i := i + 1;
    }
    assert input[..a.Length] == input;
  }

  /** `mapToResult`: collect, coerce, sort in place, cut the window. */
  method MapToResult(p: Primitives, raw: JsVal) returns (r: SensorQueryResult)
    ensures r == PipelineOf(p, raw)
  {
    if Falsy(raw) {
      return Empty;
    }
    var coerced := CoerceAll(p, Entries(raw));
    var a := new SensorReading[|coerced|](i requires 0 <= i < |coerced| => coerced[i]);
    assert a[..] == coerced;
    SortInPlace(a);
    r := Window(p, a[..]);
  }

  // ---------------------------------------------------------------------
  // Properties of the result
  // ---------------------------------------------------------------------

  /**
   * The last of the sorted readings has the greatest timestamp, and among
   * the readings with that timestamp it is the last one in input order.
   */
  lemma {:induction false} SortByTimeLast(s: seq<SensorReading>)
    requires |s| > 0
    ensures |SortByTime(s)| == |s|
    ensures var c := SortByTime(s)[|s| - 1];
      && c in s
      && (forall x :: x in s ==> x.rt_ms <= c.rt_ms)
      && var w := WithTime(s, c.rt_ms); |w| > 0 && w[|w| - 1] == c
  {
    var sorted := SortByTime(s);
    var c := sorted[|s| - 1];
    SortByTimePermutes(s);
    SortByTimeSorted(s);
    assert c in multiset(s) by { assert c in multiset(sorted); }
    forall x | x in s ensures x.rt_ms <= c.rt_ms {
      assert x in multiset(sorted);
      SortedLastIsLatest(sorted, x);
    }
    SortByTimeStable(s, c.rt_ms);
  }

  /** In readings sorted by time, no reading is later than the last. */
  lemma SortedLastIsLatest(sorted: seq<SensorReading>, x: SensorReading)
    requires SortedByTime(sorted)
    requires x in sorted
    ensures x.rt_ms <= sorted[|sorted| - 1].rt_ms
  {
    var k :| 0 <= k < |sorted| && sorted[k] == x;
    assert k == |sorted| - 1 || sorted[k].rt_ms <= sorted[|sorted| - 1].rt_ms;
  }

  /**
   * `current` is absent exactly when no record was accepted; otherwise it is
   * an accepted reading with the greatest timestamp, and among the readings
   * with that timestamp the last one in snapshot order.
   */
  lemma PipelineOfCurrent(p: Primitives, raw: JsVal)
    ensures var r := PipelineOf(p, raw); var s := Readings(p, raw);
      && (r.current.None? <==> |s| == 0)
      && (r.current.Some? ==>
            && r.current.value in s
            && (forall x :: x in s ==> x.rt_ms <= r.current.value.rt_ms)
            && var w := WithTime(s, r.current.value.rt_ms);
               |w| > 0 && w[|w| - 1] == r.current.value)
  {
    var s := Readings(p, raw);
    assert PipelineOf(p, raw).current == Window(p, SortByTime(s)).current;
    CurrentOfSorted(p, s);
  }

  /** The `current` of the window over sorted readings, in terms of the unsorted ones. */
  lemma CurrentOfSorted(p: Primitives, s: seq<SensorReading>)
    ensures var c := Window(p, SortByTime(s)).current;
      && (c.None? <==> |s| == 0)
      && (c.Some? ==>
            && c.value in s
            && (forall x :: x in s ==> x.rt_ms <= c.value.rt_ms)
            && var w := WithTime(s, c.value.rt_ms); |w| > 0 && w[|w| - 1] == c.value)
  {
    if |s| > 0 {
      SortByTimeLast(s);
    }
  }

  /**
   * The history has `min(24, n)` points for `n` accepted readings: the
   * projections of the latest readings in time order, oldest first.
   */
  lemma PipelineOfHistory(p: Primitives, raw: JsVal)
    ensures var r := PipelineOf(p, raw); var sorted := SortByTime(Readings(p, raw));
      && |r.history| == Min(HistoryLength, |Readings(p, raw)|)
      && SortedByTime(sorted)
      && multiset(sorted) == multiset(Readings(p, raw))
      && forall i :: 0 <= i < |r.history| ==>
           r.history[i] == ToPoint(p, sorted[|sorted| - |r.history| + i])
  {
    SortByTimeSorted(Readings(p, raw));
    SortByTimePermutes(Readings(p, raw));
  }

  /**
   * When the accepted readings already arrive in timestamp order (the
   * usual case of a device writing records with increasing `rt_ms`), the
   * history is the projection of the last 24 of them and
   * `current` is the last one.
   */
  lemma PipelineOfOrdered(p: Primitives, raw: JsVal)
    requires SortedByTime(Readings(p, raw))
    ensures var r := PipelineOf(p, raw); var s := Readings(p, raw);
      && |r.history| == Min(HistoryLength, |s|)
      && (forall i :: 0 <= i < |r.history| ==> r.history[i] == ToPoint(p, s[|s| - |r.history| + i]))
      && (|s| > 0 ==> r.current == Some(s[|s| - 1]))
  {
    SortByTimeOfSorted(Readings(p, raw));
  }
}
