# Sensor dashboard: a verified model of the normalisation pipeline

The dashboard reads every record a field device has written under
`sensor_data/merged` in a realtime database. It turns each loosely typed
record into a strict sensor reading and sorts the readings by their
timestamp `rt_ms`. It then publishes the latest reading (`current`) and
chart points for the last 24 readings (`history`). The page shows threshold
badges, an alert banner and a rain badge for the current reading.

This project models that core in Dafny and proves what it promises.

- `wrappers.dfy` (`Wrappers`): the optional value (`T | null`) with `??`.
- `js_values.dfy` (`JsValues`): the untyped JavaScript values the database and `JSON.parse` deliver.
  - Objects keep their keys in enumeration order.
  - It also defines the built-ins the pipeline relies on: truthiness, `typeof … === "object"`, property access, `Object.values`, `filter(Boolean)`, `trim` and case-insensitive matching.
- `sensor_coerce.dfy` (`SensorCoerce`): `coerceNumber` and `coerceSensorData`, one field rule at a time. It also holds the lemmas for rejection, defaults and key precedence, and worked records.
- `sensor_pipeline.dfy` (`SensorPipeline`): `mapToResult`.
  - It covers collecting the entries, coercing them, the in-place sort by `rt_ms` and the 24-reading window.
  - The sort is an insertion sort on an array. It is specified by a pure stable sort, which is proved sorted, a permutation and stable.
- `sensor_subscription.dfy` (`SensorSubscription`): the `useSensorData` hook as a state machine.
  - The events are sign-in completing, a push, an error and teardown.
  - The class `SensorDataHook` holds the closure variables and the published data, and its handlers update them in place.
- `dashboard.dfy` (`Dashboard`): on the page, `getSensorStatus`, the `severity` and `alertReasons` defaults, and the rain and LED badges.

`JSON.parse`, `Number(string)` and `toLocaleTimeString` are not modelled.
Each one is a field of the `Primitives` value passed to every operation, so
every property holds whatever they return:

- `parseJson` gives `None` where `JSON.parse` throws;
- `parseNumber` gives `None` where `Number` yields NaN.

Three points about the code that the model makes explicit:

- `coerceNumber` accepts any string that is not blank and that `Number` does not turn into NaN (`useSensorData.ts:23-28`). That includes `"Infinity"`. The model accepts a string exactly when it is not blank and `parseNumber` gives a value. Numbers are reals here, so the model cannot return the code's value for `"Infinity"` (see the NaN and infinities line under "Left out").
- A record that is an array passes `typeof obj === "object"` (line 39). It is rejected only because it has no `rt_ms` property. The model does the same: `Get` on anything but an object gives `undefined`.
- The code sorts with `Array.prototype.sort`, which is stable. The model sorts with a stable insertion sort. Any two stable sorts by the same key give the same result.

## Model

| member | source | states |
|---|---|---|
| JsValues.LookupPresent | src/stores/useSensorData.ts:40-51 | With distinct keys, `obj[key]` for a key that is present gives that property's value |
| JsValues.LookupAbsent | src/stores/useSensorData.ts:40-51 | A key that no property carries reads as `undefined` |
| JsValues.LookupFrom | src/stores/useSensorData.ts:40-51 | `obj[key]` is `undefined` or the value of a property named `key` |
| JsValues.Get | src/stores/useSensorData.ts:40-51 | A property read on anything but an object (an array, a string, a number) gives `undefined` |
| JsValues.Falsy | src/stores/useSensorData.ts:39 | Every array and every object is truthy, the empty ones included |
| JsValues.TypeofObject | src/stores/useSensorData.ts:39 | Among the values with `typeof` "object", `null` is the only falsy one |
| JsValues.ObjectValues | src/stores/useSensorData.ts:106 | `Object.values`: an object's property values in order, an array's elements, a string's characters, otherwise nothing |
| JsValues.Truthy | src/stores/useSensorData.ts:105 | `filter(Boolean)` keeps exactly the truthy values and never grows |
| JsValues.TruthyAppend | src/stores/useSensorData.ts:105 | Filtering distributes over concatenation, so input order is kept |
| JsValues.Strings | src/stores/useSensorData.ts:78 | Keeping the string elements keeps exactly the strings present |
| JsValues.StringsAppend | src/stores/useSensorData.ts:81-82 | Keeping strings distributes over concatenation, so order is kept |
| JsValues.StringsOfStrings | src/stores/useSensorData.ts:78 | Values that are all strings are kept whole, element for element |
| JsValues.Trim | src/stores/useSensorData.ts:25 | `s.trim()` is empty iff `s` is all white space. Otherwise it starts and ends with a character that is not white space |
| JsValues.TrimStartDrops | src/stores/useSensorData.ts:25 | Trimming the start removes a prefix of white space and nothing else |
| JsValues.TrimEndDrops | src/stores/useSensorData.ts:25 | Trimming the end removes a suffix of white space and nothing else |
| JsValues.TrimDrops | src/stores/useSensorData.ts:83 | `trim` keeps one contiguous piece of the string, and only white space lies before and after it |
| JsValues.MatchesIgnoreCase | src/stores/useSensorData.ts:88-90 | `/^(word)$/i` matches iff the string, with its ASCII letters lower-cased, is `word` |
| SensorCoerce.CoerceNumber | src/stores/useSensorData.ts:21-31 | A number comes back unchanged. A string gives a value iff it is not blank and parses, and then gives the parse. Anything else gives no value |
| SensorCoerce.NumberOrZero | src/stores/useSensorData.ts:56-59 | `coerceNumber(x) ?? 0`: the coerced value, or 0 when there is none |
| SensorCoerce.NumberWithFallback | src/stores/useSensorData.ts:41-42 | The primary key's value when it coerces, otherwise the fallback key's value, or 0 |
| SensorCoerce.CoerceFlag | src/stores/useSensorData.ts:60-63 | `led` and `button_pressed` are true iff the raw value is `true`, `"true"` or `1` |
| SensorCoerce.CoerceRain | src/stores/useSensorData.ts:64-69 | A number passes through. Otherwise the result is 1 iff the raw value is `"1"` or `true`, else 0 |
| SensorCoerce.CoerceSeverity | src/stores/useSensorData.ts:75-76 | Critical iff the raw value is exactly the string `"critical"` |
| SensorCoerce.CoerceReasons | src/stores/useSensorData.ts:77-85 | The string elements of an array. Otherwise the string values of an object. Otherwise a non-blank string as one element. Otherwise empty |
| SensorCoerce.CoerceLeafColor | src/stores/useSensorData.ts:86-93 | `Green`/`Yellow` iff the raw value is a string equal to "green"/"yellow" up to ASCII case, else unknown |
| SensorCoerce.Decoded | src/stores/useSensorData.ts:35-38 | Strings go through `JSON.parse`. Other values are taken as they are |
| SensorCoerce.HasTimestamp | src/stores/useSensorData.ts:39-53 | An entry with a timestamp decodes to a value that gets past `!obj \|\| typeof obj !== "object"` |
| SensorCoerce.ReadingOf | src/stores/useSensorData.ts:54-94 | The record literal: `rt_ms` as given. `led`/`button_pressed` and `alert_severity` follow their raw values. `rain` is 0 or 1 unless the raw value is a number. Absent `lux`, `soil`, `ts_esp`, reasons and leaf colour take their defaults |
| SensorCoerce.CoerceSensorData | src/stores/useSensorData.ts:33-98 | Accepts iff the decoded value is a truthy object with a coercible `rt_ms`. An accepted reading carries that `rt_ms` and every field by its rule |
| SensorCoerce.RejectsUndecodable | src/stores/useSensorData.ts:34-39 | A string that `JSON.parse` rejects gives null |
| SensorCoerce.RejectsWithoutTimestamp | src/stores/useSensorData.ts:53 | An object whose `rt_ms` properties never coerce gives null |
| SensorCoerce.LookupNoValue | src/stores/useSensorData.ts:40 | When no property under a key coerces, reading the key coerces to nothing |
| SensorCoerce.UnderscoreKeyPrecedence | src/stores/useSensorData.ts:41-42 | `pi_temp`/`pi_hum` win when they coerce. `pi-temp`/`pi-hum` are used only otherwise, and 0 when neither coerces |
| SensorCoerce.AcceptsObject | src/stores/useSensorData.ts:53-94 | An object whose `rt_ms` coerces gives the reading its field rules build |
| SensorCoerce.ExampleA | src/stores/useSensorData.ts:40-94 | A record of mixed raw forms (`"22.5"`, `"true"`, `"1"`, reasons list, absent fields) gives the expected strict reading |
| SensorCoerce.ExampleAFields | src/stores/useSensorData.ts:54-94 | The field rules on that record give the expected reading |
| SensorCoerce.ExampleANumbers | src/stores/useSensorData.ts:41-59 | The numeric fields of that record, with defaults 0 for the absent ones |
| SensorCoerce.ExampleAReasons | src/stores/useSensorData.ts:77-78 | A list of two strings gives the same two reasons, in order |
| SensorCoerce.ExampleB | src/stores/useSensorData.ts:53 | An `rt_ms` of `"not-a-number"` rejects the record |
| SensorCoerce.ExampleE | src/stores/useSensorData.ts:42 | Humidity given only under `pi-hum` is used |
| SensorCoerce.ExampleRecordACoerces | src/stores/useSensorData.ts:33-98 | The concrete mixed-form record coerces to the expected strict reading |
| SensorCoerce.ExampleRecordAReads | src/stores/useSensorData.ts:40-51 | The concrete record's properties read as the example requires |
| SensorCoerce.ExampleRecordANumeric | src/stores/useSensorData.ts:40-48 | The concrete record's numeric properties, present and absent |
| SensorCoerce.ExampleRecordAReadings | src/stores/useSensorData.ts:40-42 | `rt_ms`, `pi_temp` and `pi_hum` of the concrete record |
| SensorCoerce.ExampleRecordAAbsent | src/stores/useSensorData.ts:41-48 | `pi-temp`, `lux`, `soil` and `ts_esp` are absent from the concrete record |
| SensorCoerce.ExampleRecordAOther | src/stores/useSensorData.ts:45-51 | The flag, rain, severity, reasons and leaf-colour properties of the concrete record |
| SensorCoerce.ParsesTemperature | src/stores/useSensorData.ts:23-28 | The string `"22.5"` is not blank, so it coerces to what `Number` makes of it |
| SensorPipeline.Entries | src/stores/useSensorData.ts:104-106 | For an array, the entries are exactly its truthy elements. For an object, they are its values in order |
| SensorPipeline.CoerceAll | src/stores/useSensorData.ts:107-109 | Coercing and dropping rejects never adds readings |
| SensorPipeline.Kept | src/stores/useSensorData.ts:108-109 | One record contributes at most one reading. It contributes exactly the reading it coerces to |
| SensorPipeline.CoerceAllMembers | src/stores/useSensorData.ts:107-109 | A reading is kept iff some entry coerces to it. Rejects never appear |
| SensorPipeline.CoerceAllAppend | src/stores/useSensorData.ts:107-109 | Coercion distributes over concatenation, so accepted readings keep entry order |
| SensorPipeline.ReadingsFromRecords | src/stores/useSensorData.ts:103-109 | For a falsy snapshot there are no readings. Otherwise a reading is present iff one of the snapshot's entries coerces to it |
| SensorPipeline.Readings | src/stores/useSensorData.ts:103-109 | A falsy snapshot has no readings. There are never more readings than entries |
| SensorPipeline.InsertPermutes | src/stores/useSensorData.ts:110 | Inserting adds exactly the one reading |
| SensorPipeline.InsertSorted | src/stores/useSensorData.ts:110 | Inserting into readings in time order keeps them in time order |
| SensorPipeline.InsertWithTime | src/stores/useSensorData.ts:110 | Inserting appends the reading after the others with its timestamp |
| SensorPipeline.WithTime | src/stores/useSensorData.ts:110 | No more readings than given, each with the given timestamp |
| SensorPipeline.Insert | src/stores/useSensorData.ts:110 | One insertion step of the stable sort adds exactly one element |
| SensorPipeline.SortByTime | src/stores/useSensorData.ts:110 | The stable sort by `rt_ms` keeps the number of readings |
| SensorPipeline.SortByTimeSorted | src/stores/useSensorData.ts:110 | The sorted readings are non-decreasing by `rt_ms` |
| SensorPipeline.SortByTimePermutes | src/stores/useSensorData.ts:110 | Sorting is a permutation (same multiset) |
| SensorPipeline.SortByTimeStable | src/stores/useSensorData.ts:110 | Sorting is stable: readings with equal `rt_ms` keep their input order |
| SensorPipeline.SortedPrefix | src/stores/useSensorData.ts:110 | A prefix of readings in time order is in time order |
| SensorPipeline.SortByTimeOfSorted | src/stores/useSensorData.ts:110 | Readings already in time order are left as they are |
| SensorPipeline.InsertAt | src/stores/useSensorData.ts:110 | The stable insertion point is after the last reading that is not later |
| SensorPipeline.SortByTimeExtend | src/stores/useSensorData.ts:110 | Sorting one more reading inserts it into the sorted prefix |
| SensorPipeline.ShiftLater | src/stores/useSensorData.ts:110 | Shifts the later readings before position `i` one place right, and returns the stable insertion point |
| SensorPipeline.InsertLast | src/stores/useSensorData.ts:110 | After the step, the array's prefix through `i` is the old prefix with `a[i]` inserted, and the rest is unchanged |
| SensorPipeline.SortInPlace | src/stores/useSensorData.ts:110 | The in-place sort leaves the array equal to the stable sort of its old contents |
| SensorPipeline.ToPoint | src/stores/useSensorData.ts:112-121 | A history point is the reading's time label, `pi_temp`→temperature, `pi_hum`→humidity, lux and soil |
| SensorPipeline.Window | src/stores/useSensorData.ts:111-123 | The history has `min(24, n)` points, each the projection of one of the last readings in order. `current` is null iff `n = 0`, and otherwise the last reading |
| SensorPipeline.MapToResult | src/stores/useSensorData.ts:100-124 | The method (collect, coerce, sort in place, window) returns exactly the result of the pipeline specification |
| SensorPipeline.PipelineOf | src/stores/useSensorData.ts:100-124 | The value of `mapToResult`: `{current: null, history: []}` for a falsy snapshot, `min(24, n)` history points for `n` accepted readings, and `current` null iff `n = 0` |
| SensorPipeline.SortByTimeLast | src/stores/useSensorData.ts:110 | The last sorted reading has the greatest `rt_ms` and is the last among its equal-time readings in input order |
| SensorPipeline.SortedLastIsLatest | src/stores/useSensorData.ts:122 | In time order, no reading is later than the last |
| SensorPipeline.PipelineOfCurrent | src/stores/useSensorData.ts:122 | `current` is null iff no record was accepted. Otherwise it is an accepted reading with the greatest `rt_ms`, the last such reading in snapshot order |
| SensorPipeline.CurrentOfSorted | src/stores/useSensorData.ts:110-122 | The last sorted reading is absent iff there are no readings. Otherwise it is one of them, with the greatest `rt_ms`, and the last such in input order |
| SensorPipeline.PipelineOfHistory | src/stores/useSensorData.ts:110-121 | History length is `min(24, n)`, over readings sorted by time and permuted from the accepted ones, projecting the last of them in order |
| SensorPipeline.PipelineOfOrdered | src/stores/useSensorData.ts:110-123 | Readings that arrive in time order give the projection of their last 24 as history, and the last one as `current` |
| SensorSubscription.StepKeepsInv | src/stores/useSensorData.ts:137-159 | Every event keeps "a listener is attached only while active and after sign-in" |
| SensorSubscription.Step | src/stores/useSensorData.ts:137-159 | A push sets the data to `mapToResult(raw)` and an error to the empty result. Nothing else changes the data. Only sign-in completing on an active hook attaches a listener. Teardown deactivates and detaches. Nothing reactivates a torn-down hook or undoes sign-in |
| SensorSubscription.Run | src/stores/useSensorData.ts:133-159 | Over any run of events, a hook that ends active was active at the start, and a completed sign-in stays completed |
| SensorSubscription.RunAppend | src/stores/useSensorData.ts:133-159 | Running two event sequences in turn is running their concatenation |
| SensorSubscription.RunKeepsInv | src/stores/useSensorData.ts:133-159 | Every reachable state keeps the attachment invariant |
| SensorSubscription.TornDownIsFinal | src/stores/useSensorData.ts:156-159 | After teardown nothing is attached again and the published data no longer changes |
| SensorSubscription.TeardownBeforeAuth | src/stores/useSensorData.ts:139 | Teardown before sign-in completes means the listener is never attached, and the data stays |
| SensorSubscription.TeardownAfterAttach | src/stores/useSensorData.ts:158 | Teardown after attachment detaches the listener for good, and the data stays |
| SensorSubscription.LastPushWins | src/stores/useSensorData.ts:144-148 | After a push, the data is `mapToResult` of that snapshot, whatever came before |
| SensorSubscription.LastErrorEmpties | src/stores/useSensorData.ts:149-152 | After an error, the data is the empty result, whatever came before |
| SensorSubscription.DataKeptUntilDelivery | src/stores/useSensorData.ts:128-131 | The data stays as it was until the first push or error: empty after mount, the previous data after the effect re-runs |
| SensorSubscription.AttachedOnlyAfterAuth | src/stores/useSensorData.ts:137-142 | From mount, a listener is attached only after sign-in and before teardown |
| SensorSubscription.TeardownIdempotent | src/stores/useSensorData.ts:156-159 | Tearing down twice is tearing down once |
| SensorSubscription.SensorDataHook.constructor | src/stores/useSensorData.ts:128-135 | Mount: active, not signed in, no listener, empty data |
| SensorSubscription.SensorDataHook.OnAuthResolved | src/stores/useSensorData.ts:138-142 | Sign-in completing attaches the listener iff the hook is still active |
| SensorSubscription.SensorDataHook.OnValue | src/stores/useSensorData.ts:144-148 | A push reaches only an active, signed-in hook. It sets the data to `mapToResult(raw)` and changes nothing else |
| SensorSubscription.SensorDataHook.OnError | src/stores/useSensorData.ts:149-152 | An error reaches only an active, signed-in hook. It sets the empty result and changes nothing else |
| SensorSubscription.SensorDataHook.Teardown | src/stores/useSensorData.ts:156-159 | Cleanup marks the hook inactive and detaches any listener |
| Dashboard.GetSensorStatus | src/app/dashboard/page.tsx:39-63 | Per kind: below the lower bound, above the upper bound, or within (bounds inclusive), each with its label and variant. Unknown/muted for any other kind |
| Dashboard.StatusIsBand | src/app/dashboard/page.tsx:41-59 | For a known kind, two values get the same status iff they lie in the same band |
| Dashboard.Severity | src/app/dashboard/page.tsx:36 | `"critical"` iff there is a current reading with critical severity, else `"none"` |
| Dashboard.AlertReasons | src/app/dashboard/page.tsx:37 | The current reading's reasons, or `[]` with no reading |
| Dashboard.RainBadge | src/app/dashboard/page.tsx:222-223 | "RAIN DETECTED" (default variant) iff there is no reading or `rain` is 0. Otherwise "NO RAIN" (muted) |
| Dashboard.LedBadge | src/app/dashboard/page.tsx:210-211 | "ON" (success) iff there is a reading with `led` set, else "OFF" (muted) |
| Dashboard.FieldStatus | src/app/dashboard/page.tsx:119-196 | The badge for a field is `getSensorStatus` of its value. With no reading (NaN), it is the middle band of the kind |
| Dashboard.EmptyResultDefaults | src/app/dashboard/page.tsx:36-37 | With no reading: severity "none", no reasons, "RAIN DETECTED", LED "OFF" |
| Dashboard.RainBadgeOfRecord | src/app/dashboard/page.tsx:222-223 | For an accepted record, "RAIN DETECTED" iff the raw `rain` is the number 0, or is not a number and neither `"1"` nor `true` |

## Left out

- NaN and the infinities: numbers are reals. So NaN passing `coerceNumber` (`typeof NaN === "number"`) and a NaN `rt_ms` upsetting the sort comparator are not modelled.
- `JSON.parse`, `Number(string)` and `toLocaleTimeString("en-US", …)` are parameters (`Primitives`). Number syntax, locale formatting and the JSON grammar are not modelled.
- The `try … catch` of `coerceSensorData`: the only throw in its body is `JSON.parse`, modelled as `parseJson` giving `None`. Property reads on the decoded value cannot throw, because it is a non-null object by then.
- Duplicate object keys: a JavaScript object has none. `Get` takes the first match, and the lemmas that depend on uniqueness require `DistinctKeys`.
- `/^(green)$/i` is modelled as equality after lower-casing ASCII letters. Other Unicode case folding does not arise, because the pattern has no `u` flag.
- SensorSubscription.Enabled: the database's promise that no callback arrives after `detach`, and before `onValue` is registered, is an assumption on the event sequence. It is not proved.
- Sign-in failure: `ensureAnonymousAuth` catches every error (`src/lib/firebase/client.ts:32-41`). So sign-in completing comes at most once, and never as a failure. It may never come, since nothing times out `signInAnonymously`, and the model allows runs without it. `src/lib/firebase/client.ts` and `src/utils/env.ts` are not part of this model.
- React scheduling and `console.error` are not modelled.
- Re-running the effect when `db` changes (line 160) is not modelled as an event. React runs the cleanup and then the effect again. The closure variables of lines 134-135 start fresh, but the `useState` value of lines 128-131 is kept. The new run therefore starts in `HookState(true, false, false, d)`, where `d` is the data shown before. The lemmas over an arbitrary start state cover that start. The continuation of the earlier run, if still pending, finds its own `isActive` false and does nothing (TeardownBeforeAuth).
- Lookup: `obj[key]` has no `ensures` of its own. It is described by LookupPresent, LookupAbsent and LookupFrom, and by `Get`.
- `Object.values` throws on `null` and `undefined`, but `ObjectValues` gives `[]` for them. The code never calls it on either. The call at line 80 is guarded by `alertReasonsRaw &&` (line 79), and the call at line 106 by `if (!raw)` (line 103).
- JSX rendering of `page.tsx`, and `src/components/ui/card.tsx` and `src/components/ui/badge.tsx`, are not part of this model. The number display (`toFixed`) and the charts are not modelled.
- `src/types/sensor.ts` only gives the record shape. `SensorReading` follows it, with the three alert and leaf-colour fields that `coerceSensorData` adds.
