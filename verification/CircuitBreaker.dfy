/**
 The per-route circuit breaker (`CircuitBreakerRegistry`). Callers obtain attempts and
 report their results later, in any order; the history of calls is the run.
 */
module CircuitBreaker {
  import opened Common

  datatype Phase = Closed | Open | HalfOpen

  datatype Circuit = Circuit(failures: nat, phase: Phase, openedAt: Option<int>, probe: bool)

  const FRESH := Circuit(0, Closed, None, false)

  datatype Attempt = Attempt(key: string, enabled: bool)

  /** One call of the registry, with the clock reading where the code takes one. */
  datatype Call =
    | Allow(route: string, enabled: bool, recovery: int, now: int)
    | Success(attempt: Option<Attempt>)
    | Failure(attempt: Option<Attempt>, threshold: int, now: int)

  predicate Touches(call: Call, r: string) {
    match call
    case Allow(route, enabled, _, _) => enabled && route == r
    case Success(a) => a == Some(Attempt(r, true))
    case Failure(a, _, _) => a == Some(Attempt(r, true))
  }

  /** Whether an `Allow` on this circuit hands out an attempt. */
  predicate Grants(c: Circuit, recovery: int, now: int) {
    match c.phase
    case Closed => true
    case Open => c.openedAt.Some? && now - c.openedAt.value >= recovery
    case HalfOpen => !c.probe
  }

  function Step(c: Circuit, call: Call): Circuit {
    match call
    case Allow(_, _, recovery, now) =>
      if c.phase != Closed && Grants(c, recovery, now) then c.(phase := HalfOpen, probe := true) else c
    case Success(_) => FRESH
    case Failure(_, threshold, now) =>
      var d := c.(probe := false, failures := c.failures + 1);
      if c.phase == HalfOpen || d.failures >= threshold then d.(phase := Open, openedAt := Some(now)) else d
  }

  function StepOn(c: Circuit, call: Call, r: string): Circuit {
    if Touches(call, r) then Step(c, call) else c
  }

  /** The circuit of a route after a history of calls. */
  function CircuitAfter(h: seq<Call>, r: string): Circuit {
    if h == [] then FRESH else StepOn(CircuitAfter(h[..|h| - 1], r), Last(h), r)
  }

  function Lookup(states: map<string, Circuit>, r: string): Circuit {
    if r in states then states[r] else FRESH
  }

  lemma {:induction false} HistoryStep(states: map<string, Circuit>, h: seq<Call>, call: Call)
    requires forall r :: Lookup(states, r) == CircuitAfter(h, r)
    ensures forall r :: CircuitAfter(h + [call], r) == StepOn(Lookup(states, r), call, r)
  {
    assert (h + [call])[..|h|] == h;
  }

  /** An open circuit has an opening time, as the code asserts; half-open means one probe is out. */
  lemma {:induction false} OpenHasTime(h: seq<Call>, r: string)
    ensures CircuitAfter(h, r).phase == Open ==> CircuitAfter(h, r).openedAt.Some? && !CircuitAfter(h, r).probe
    ensures CircuitAfter(h, r).phase == HalfOpen ==> CircuitAfter(h, r).probe
    ensures CircuitAfter(h, r).phase == Closed ==> !CircuitAfter(h, r).probe
  {
    if h != [] {
      OpenHasTime(h[..|h| - 1], r);
    }
  }

  class CircuitBreakerRegistry {
    var states: map<string, Circuit>
    ghost var history: seq<Call>

    constructor ()
      ensures Valid() && history == [] && states == map[]
    {
      states, history := map[], [];
    }

    /** Every route's circuit is what its own calls in the history make of a fresh one. */
    ghost predicate Valid()
      reads this
    {
      forall r :: Lookup(states, r) == CircuitAfter(history, r)
    }

    method AllowRequest(route: string, enabled: bool, recovery: int, now: int) returns (attempt: Option<Attempt>)
      requires Valid()
      modifies this
      ensures Valid() && history == old(history) + [Allow(route, enabled, recovery, now)]
      ensures !enabled ==> attempt == Some(Attempt(route, false)) && states == old(states)
      ensures enabled && Grants(CircuitAfter(old(history), route), recovery, now) ==>
        attempt == Some(Attempt(route, true))
      ensures enabled && !Grants(CircuitAfter(old(history), route), recovery, now) ==> attempt == None
    {
      ghost var call := Allow(route, enabled, recovery, now);
      HistoryStep(states, history, call);
      OpenHasTime(history, route);
      ghost var next := Step(Lookup(states, route), call);
      history := history + [Allow(route, enabled, recovery, now)];
      if !enabled {
        return Some(Attempt(route, false));
      }
      var state := Lookup(states, route);
      states := states[route := state];
      if state.phase == Open {
        if now - state.openedAt.value < recovery {
          return None;
        }
        state := state.(phase := HalfOpen, probe := false);
      }
      if state.phase == HalfOpen {
        if state.probe {
          return None;
        }
        state := state.(probe := true);
      }
      assert state == next;
      states := states[route := state];
      return Some(Attempt(route, true));
    }

    method RecordSuccess(attempt: Option<Attempt>)
      requires Valid()
      modifies this
      ensures Valid() && history == old(history) + [Success(attempt)]
    {
      HistoryStep(states, history, Success(attempt));
      history := history + [Success(attempt)];
      if attempt.None? || !attempt.value.enabled {
        return;
      }
      var state := Lookup(states, attempt.value.key);
      state := state.(failures := 0);
      state := state.(phase := Closed);
      state := state.(openedAt := None);
      state := state.(probe := false);
      states := states[attempt.value.key := state];
    }

    method RecordFailure(attempt: Option<Attempt>, threshold: int, now: int)
      requires Valid()
      modifies this
      ensures Valid() && history == old(history) + [Failure(attempt, threshold, now)]
    {
      HistoryStep(states, history, Failure(attempt, threshold, now));
      history := history + [Failure(attempt, threshold, now)];
      if attempt.None? || !attempt.value.enabled {
        return;
      }
      var state := Lookup(states, attempt.value.key);
      state := state.(probe := false);
      state := state.(failures := state.failures + 1);
      if state.phase == HalfOpen || state.failures >= threshold {
        state := state.(phase := Open, openedAt := Some(now));
      }
      states := states[attempt.value.key := state];
    }
  }

  // ---- Closed form --------------------------------------------------------

  /** A success reported for an attempt that was handed out on a route with its breaker enabled. */
  predicate SuccessOn(call: Call, r: string) {
    call.Success? && call.attempt == Some(Attempt(r, true))
  }

  predicate FailureOn(call: Call, r: string) {
    call.Failure? && call.attempt == Some(Attempt(r, true))
  }

  predicate AllowOn(call: Call, r: string) {
    call.Allow? && call.enabled && call.route == r
  }

  /** The failures recorded for a route since its last recorded success. */
  function FailuresSinceSuccess(h: seq<Call>, r: string): nat {
    if h == [] || SuccessOn(Last(h), r) then 0
    else FailuresSinceSuccess(h[..|h| - 1], r) + (if FailureOn(Last(h), r) then 1 else 0)
  }

  /** The time of the latest failure recorded for a route. */
  function LatestFailure(h: seq<Call>, r: string): Option<int> {
    if h == [] then None
    else if FailureOn(Last(h), r) then Some(Last(h).now)
    else LatestFailure(h[..|h| - 1], r)
  }

  ghost predicate FixedThreshold(h: seq<Call>, r: string, threshold: int) {
    forall i :: 0 <= i < |h| && FailureOn(h[i], r) ==> h[i].threshold == threshold
  }

  /**
   With a fixed threshold of at least one, whatever the order and lateness of results:
   the counter is the failures since the last success, the breaker is closed exactly below
   the threshold, and an open breaker was opened by the latest failure.
   */
  lemma {:induction false} BreakerClosedForm(h: seq<Call>, r: string, threshold: int)
    requires threshold >= 1 && FixedThreshold(h, r, threshold)
    ensures CircuitAfter(h, r).failures == FailuresSinceSuccess(h, r)
    ensures CircuitAfter(h, r).phase == Closed <==> FailuresSinceSuccess(h, r) < threshold
    ensures CircuitAfter(h, r).phase == Open ==> CircuitAfter(h, r).openedAt == LatestFailure(h, r)
  {
    if h != [] {
      BreakerClosedForm(h[..|h| - 1], r, threshold);
    }
  }

  /** Calls on other routes leave a route's circuit alone, whatever they are. */
  lemma {:induction false} OtherRoutesUntouched(h: seq<Call>, more: seq<Call>, r: string)
    requires forall i :: 0 <= i < |more| ==> !SuccessOn(more[i], r) && !FailureOn(more[i], r) && !AllowOn(more[i], r)
    ensures CircuitAfter(h + more, r) == CircuitAfter(h, r)
  {
    if more == [] {
      assert h + more == h;
    } else {
      assert (h + more)[..|h + more| - 1] == h + more[..|more| - 1];
      OtherRoutesUntouched(h, more[..|more| - 1], r);
    }
  }

  // ---- Probes -------------------------------------------------------------

  /** Call `i` handed out an attempt on route `r` while its breaker was not closed. */
  predicate IsProbe(h: seq<Call>, i: nat, r: string)
    requires i < |h|
  {
    && AllowOn(h[i], r)
    && CircuitAfter(h[..i], r).phase != Closed
    && Grants(CircuitAfter(h[..i], r), h[i].recovery, h[i].now)
  }

  /** The times of the probes on a route since its last recorded success. */
  function ProbeTimes(h: seq<Call>, r: string): seq<int> {
    if h == [] || SuccessOn(Last(h), r) then []
    else ProbeTimes(h[..|h| - 1], r) + (if IsProbe(h, |h| - 1, r) then [Last(h).now] else [])
  }

  /** The number of probes on a route since its last recorded result of either kind. */
  function ProbesSinceResult(h: seq<Call>, r: string): nat {
    if h == [] || SuccessOn(Last(h), r) || FailureOn(Last(h), r) then 0
    else ProbesSinceResult(h[..|h| - 1], r) + (if IsProbe(h, |h| - 1, r) then 1 else 0)
  }

  /** At most one probe is out between consecutive recorded results, and half-open says so. */
  lemma {:induction false} OneProbePerResult(h: seq<Call>, r: string)
    ensures ProbesSinceResult(h, r) <= 1
    ensures ProbesSinceResult(h, r) == 1 <==> CircuitAfter(h, r).phase == HalfOpen
  {
    if h != [] {
      OneProbePerResult(h[..|h| - 1], r);
      OpenHasTime(h[..|h| - 1], r);
    }
  }

  /**
   Who gets an attempt, in terms of the history alone: everyone below the threshold, and at
   or above it only the first to ask once the recovery timeout since the latest failure is
   over, until the next result.
   */
  lemma {:induction false} GrantsClosedForm(h: seq<Call>, r: string, threshold: int, recovery: int, now: int)
    requires threshold >= 1 && FixedThreshold(h, r, threshold)
    ensures Grants(CircuitAfter(h, r), recovery, now) <==>
      || FailuresSinceSuccess(h, r) < threshold
      || (ProbesSinceResult(h, r) == 0 && LatestFailure(h, r).Some? && now - LatestFailure(h, r).value >= recovery)
  {
    BreakerClosedForm(h, r, threshold);
    OneProbePerResult(h, r);
    OpenHasTime(h, r);
  }

  /** The clock readings never go back. */
  ghost predicate MonotoneClock(h: seq<Call>) {
    forall i, j :: 0 <= i < j < |h| && !h[i].Success? && !h[j].Success? ==> h[i].now <= h[j].now
  }

  ghost predicate FixedRecovery(h: seq<Call>, r: string, recovery: int) {
    forall i :: 0 <= i < |h| && AllowOn(h[i], r) ==> h[i].recovery == recovery
  }

  ghost predicate Spaced(times: seq<int>, gap: int) {
    forall i :: 0 <= i < |times| - 1 ==> times[i + 1] - times[i] >= gap
  }

  /** Every probe happened no later than any call that comes after. */
  lemma {:induction false} ProbesPast(h: seq<Call>, r: string, now: int)
    requires forall i :: 0 <= i < |h| && !h[i].Success? ==> h[i].now <= now
    ensures forall t :: t in ProbeTimes(h, r) ==> t <= now
  {
    if h != [] {
      ProbesPast(h[..|h| - 1], r, now);
    }
  }

  /** What a run keeps: an open breaker was opened no earlier than the last probe. */
  ghost predicate ProbeOrder(c: Circuit, times: seq<int>, gap: int) {
    && Spaced(times, gap)
    && (c.phase == Closed ==> times == [])
    && (c.phase == Open && times != [] ==> c.openedAt.Some? && Last(times) <= c.openedAt.value)
  }

  lemma {:induction false} ProbeOrderStep(c: Circuit, times: seq<int>, gap: int, call: Call)
    requires ProbeOrder(c, times, gap) && (c.phase == HalfOpen ==> c.probe)
    requires call.Allow? ==> call.recovery == gap
    requires !call.Success? && times != [] ==> Last(times) <= call.now
    ensures call.Success? ==> ProbeOrder(Step(c, call), [], gap)
    ensures call.Failure? ==> ProbeOrder(Step(c, call), times, gap)
    ensures call.Allow? && (c.phase == Closed || !Grants(c, gap, call.now)) ==> ProbeOrder(Step(c, call), times, gap)
    ensures call.Allow? && c.phase != Closed && Grants(c, gap, call.now) ==>
      ProbeOrder(Step(c, call), times + [call.now], gap)
  {
  }

  /** With a monotone clock, probes between two successes are at least the recovery timeout apart. */
  lemma {:induction false} ProbesSpaced(h: seq<Call>, r: string, recovery: int)
    requires MonotoneClock(h) && FixedRecovery(h, r, recovery)
    ensures ProbeOrder(CircuitAfter(h, r), ProbeTimes(h, r), recovery)
  {
    if h != [] {
      var init, call := h[..|h| - 1], Last(h);
      ProbesSpaced(init, r, recovery);
      OpenHasTime(init, r);
      if !call.Success? {
        ProbesPast(init, r, call.now);
        assert ProbeTimes(init, r) != [] ==> Last(ProbeTimes(init, r)) in ProbeTimes(init, r);
      }
      if Touches(call, r) {
        ProbeOrderStep(CircuitAfter(init, r), ProbeTimes(init, r), recovery, call);
      }
    }
  }

  lemma {:induction false} SpacedSpan(times: seq<int>, gap: int)
    requires times != [] && Spaced(times, gap)
    ensures Last(times) - times[0] >= (|times| - 1) * gap
  {
    if |times| > 1 {
      var init := times[..|times| - 1];
      SpacedSpan(init, gap);
      assert times[(|times| - 2) + 1] - times[|times| - 2] >= gap;
      assert (|times| - 1) * gap == (|init| - 1) * gap + gap;
    }
  }

  /** So `k` probes without a success in between take at least `k - 1` recovery timeouts. */
  lemma {:induction false} ProbeRate(h: seq<Call>, r: string, recovery: int)
    requires MonotoneClock(h) && FixedRecovery(h, r, recovery) && ProbeTimes(h, r) != []
    ensures Last(ProbeTimes(h, r)) - ProbeTimes(h, r)[0] >= (|ProbeTimes(h, r)| - 1) * recovery
  {
    ProbesSpaced(h, r, recovery);
    SpacedSpan(ProbeTimes(h, r), recovery);
  }
}
