/**
 * The subscription life-cycle of the `useSensorData` hook in
 * `src/stores/useSensorData.ts`: mount, anonymous sign-in completing, the
 * database pushing snapshots or reporting an error, and teardown.
 *
 * The realtime database promises that a listener is called only while it is
 * attached; the model takes that promise as the rule for which events can
 * happen (`Enabled`) rather than proving it. Anonymous sign-in never fails
 * as far as the hook can see (`ensureAnonymousAuth` swallows its errors), so
 * its completion is one event that happens at most once.
 */
module SensorSubscription {
  import opened Wrappers
  import opened JsValues
  import opened SensorPipeline

  /** What can happen to a mounted hook. */
  datatype Event =
    | AuthResolved      // `await ensureAnonymousAuth()` returns
    | Push(raw: JsVal)  // the `onValue` callback with `snapshot.val()`
    | Error             // the `onValue` error callback
    | Teardown          // the effect's cleanup function

  /**
   * The hook's state: the effect's closure variables `isActive` and
   * `detachDatabaseListener` (here: whether a listener is attached), whether
   * the sign-in continuation has run, and the published `data`.
   */
  datatype HookState = HookState(
    isActive: bool,
    authSettled: bool,
    attached: bool,
    data: SensorQueryResult)

  /** Right after mount: active, waiting for sign-in, no listener, empty data. */
  const Initial := HookState(true, false, false, Empty)

  /** A listener is attached only by the sign-in continuation of a hook that is still active. */
  ghost predicate Inv(s: HookState) {
    s.attached ==> s.isActive && s.authSettled
  }

  /** The events the environment can deliver in a state. */
  predicate Enabled(s: HookState, e: Event) {
    match e
    case AuthResolved => !s.authSettled
    case Push(_) => s.attached
    case Error => s.attached
    case Teardown => true
  }

  /**
   * The effect of one event. Only a push or an error changes the data; only
   * sign-in completing on an active hook attaches a listener; nothing makes
   * a torn-down hook active again or undoes a completed sign-in.
   */
  function Step(p: Primitives, s: HookState, e: Event): (r: HookState)
    requires Enabled(s, e)
    ensures e.Push? ==> r.data == PipelineOf(p, e.raw)
    ensures e.Error? ==> r.data == Empty
    ensures r.data != s.data ==> e.Push? || e.Error?
    ensures r.attached && !s.attached ==> e.AuthResolved? && s.isActive
    ensures e.Teardown? ==> !r.isActive && !r.attached
    ensures r.isActive ==> s.isActive
    ensures s.authSettled ==> r.authSettled
  {
    match e
    case AuthResolved =>
      // `if (!isActive) return;` else `detachDatabaseListener = onValue(...)`
      s.(authSettled := true, attached := s.isActive)
    case Push(raw) => s.(data := PipelineOf(p, raw))
    case Error => s.(data := Empty)
    case Teardown =>
      // `isActive = false; if (detachDatabaseListener) detachDatabaseListener();`
      s.(isActive := false, attached := false)
  }

  /** Every event keeps the invariant. */
  lemma StepKeepsInv(p: Primitives, s: HookState, e: Event)
    requires Inv(s) && Enabled(s, e)
    ensures Inv(Step(p, s, e))
  {
  }

  /** A run of events, each enabled in the state the previous ones leave. */
  predicate Admissible(p: Primitives, s: HookState, events: seq<Event>)
    decreases |events|
  {
    |events| == 0 || (Enabled(s, events[0]) && Admissible(p, Step(p, s, events[0]), events[1..]))
  }

  /**
   * The state an admissible run of events leaves. A hook that is inactive at
   * some point stays inactive, and a completed sign-in stays completed.
   */
  function Run(p: Primitives, s: HookState, events: seq<Event>): (r: HookState)
    requires Admissible(p, s, events)
    ensures r.isActive ==> s.isActive
    ensures s.authSettled ==> r.authSettled
    decreases |events|
  {
    if |events| == 0 then s else Run(p, Step(p, s, events[0]), events[1..])
  }

  /** Running two runs one after the other is running their concatenation. */
  lemma {:induction false} RunAppend(p: Primitives, s: HookState, a: seq<Event>, b: seq<Event>)
    requires Admissible(p, s, a + b)
    ensures Admissible(p, s, a)
    ensures Admissible(p, Run(p, s, a), b)
    ensures Run(p, s, a + b) == Run(p, Run(p, s, a), b)
    decreases |a|
  {
    if |a| == 0 {
      assert a + b == b;
    } else {
      assert (a + b)[0] == a[0];
      assert (a + b)[1..] == a[1..] + b;
      RunAppend(p, Step(p, s, a[0]), a[1..], b);
    }
  }

  /** Every state reachable by an admissible run keeps the invariant. */
  lemma {:induction false} RunKeepsInv(p: Primitives, s: HookState, events: seq<Event>)
    requires Inv(s) && Admissible(p, s, events)
    ensures Inv(Run(p, s, events))
    decreases |events|
  {
    if |events| > 0 {
      StepKeepsInv(p, s, events[0]);
      RunKeepsInv(p, Step(p, s, events[0]), events[1..]);
    }
  }

  /**
   * After teardown nothing changes any more: no listener is ever attached,
   * so no push and no error can arrive, and the published data stays as it
   * was. This holds whether teardown came before sign-in completed (the
   * continuation then finds `isActive` false) or after the listener was
   * attached (teardown detached it).
   */
  lemma {:induction false} TornDownIsFinal(p: Primitives, s: HookState, events: seq<Event>)
    requires !s.isActive && !s.attached
    requires Admissible(p, s, events)
    ensures var t := Run(p, s, events); !t.isActive && !t.attached && t.data == s.data
    decreases |events|
  {
    if |events| > 0 {
      TornDownIsFinal(p, Step(p, s, events[0]), events[1..]);
    }
  }

  /** Teardown before sign-in completes: the listener is never attached, whatever follows. */
  lemma TeardownBeforeAuth(p: Primitives, s: HookState, events: seq<Event>)
    requires !s.authSettled
    requires Admissible(p, s, [Teardown] + events)
    ensures !Run(p, s, [Teardown] + events).attached
    ensures Run(p, s, [Teardown] + events).data == s.data
  {
    assert ([Teardown] + events)[1..] == events;
    TornDownIsFinal(p, Step(p, s, Teardown), events);
  }

  /**
   * Teardown after the listener was attached detaches it, and from then on
   * nothing is attached again and the data shown last stays.
   */
  lemma TeardownAfterAttach(p: Primitives, s: HookState, events: seq<Event>)
    requires s.attached
    requires Admissible(p, s, [Teardown] + events)
    ensures !Step(p, s, Teardown).attached
    ensures !Run(p, s, [Teardown] + events).attached
    ensures Run(p, s, [Teardown] + events).data == s.data
  {
    assert ([Teardown] + events)[1..] == events;
    TornDownIsFinal(p, Step(p, s, Teardown), events);
  }

  /** A push replaces the published result wholesale, whatever was there before. */
  lemma {:induction false} LastPushWins(p: Primitives, s: HookState, events: seq<Event>, raw: JsVal)
    requires Admissible(p, s, events + [Push(raw)])
    ensures Run(p, s, events + [Push(raw)]).data == PipelineOf(p, raw)
  {
    RunAppend(p, s, events, [Push(raw)]);
  }

  /** An error publishes the empty result, whatever was there before. */
  lemma {:induction false} LastErrorEmpties(p: Primitives, s: HookState, events: seq<Event>)
    requires Admissible(p, s, events + [Error])
    ensures Run(p, s, events + [Error]).data == Empty
  {
    RunAppend(p, s, events, [Error]);
  }

  /**
   * The published data stays as it is until the first push or error: after
   * mount that is the empty result, and after the effect re-runs (the React
   * state survives it) it is whatever was shown before.
   */
  lemma {:induction false} DataKeptUntilDelivery(p: Primitives, s: HookState, events: seq<Event>)
    requires Admissible(p, s, events)
    requires forall i :: 0 <= i < |events| ==> !events[i].Push? && !events[i].Error?
    ensures Run(p, s, events).data == s.data
    decreases |events|
  {
    if |events| > 0 {
      DataKeptUntilDelivery(p, Step(p, s, events[0]), events[1..]);
    }
  }

  /** Within a mount, the listener is attached only after sign-in and before teardown. */
  lemma AttachedOnlyAfterAuth(p: Primitives, events: seq<Event>)
    requires Admissible(p, Initial, events)
    ensures Run(p, Initial, events).attached ==>
      Run(p, Initial, events).authSettled && Run(p, Initial, events).isActive
  {
    RunKeepsInv(p, Initial, events);
  }

  /** Teardown is idempotent. */
  lemma TeardownIdempotent(p: Primitives, s: HookState)
    ensures Step(p, Step(p, s, Teardown), Teardown) == Step(p, s, Teardown)
  {
  }

  /**
   * The hook as the code writes it: the closure variables of the effect and
   * the React state, updated in place by the event handlers.
   */
  class SensorDataHook {
    const prims: Primitives
    var isActive: bool
    var authSettled: bool
    var listenerAttached: bool
    var data: SensorQueryResult

    /** The abstract state the fields stand for. */
    function State(): HookState
      reads this
    {
      HookState(isActive, authSettled, listenerAttached, data)
    }

    ghost predicate Valid()
      reads this
    {
      Inv(State())
    }

    /** Mount: `useState({ current: null, history: [] })` and the effect starts signing in. */
    constructor (p: Primitives)
      ensures Valid()
      ensures prims == p && State() == Initial
    {
      prims := p;
      isActive := true;
      authSettled := false;
      listenerAttached := false;
      data := Empty;
    }

    /** The continuation after `await ensureAnonymousAuth()`. */
    method OnAuthResolved()
      requires Valid() && !authSettled
      modifies this
      ensures Valid()
      ensures State() == Step(prims, old(State()), AuthResolved)
    {
      authSettled := true;
      if !isActive {
        return;
      }
      listenerAttached := true;
    }

    /** The `onValue` callback: `setData(mapToResult(snapshot.val()))`. */
    method OnValue(raw: JsVal)
      requires Valid() && listenerAttached
      modifies this
      ensures Valid()
      ensures isActive && authSettled
      ensures State() == Step(prims, old(State()), Push(raw))
    {
      var mapped := MapToResult(prims, raw);
      data := mapped;
    }

    /** The `onValue` error callback: `setData({ current: null, history: [] })`. */
    method OnError()
      requires Valid() && listenerAttached
      modifies this
      ensures Valid()
      ensures isActive && authSettled
      ensures State() == Step(prims, old(State()), Error)
    {
      data := Empty;
    }

    /** The effect's cleanup. */
    method Teardown()
      requires Valid()
      modifies this
      ensures Valid()
      ensures State() == Step(prims, old(State()), Event.Teardown)
    {
      isActive := false;
      if listenerAttached {
        listenerAttached := false;
      }
    }
  }
}
