/**
 * The behaviour of a caching operation invoker as a pure state machine.
 *
 * An invoker decorates a target operation invoker. A call whose arguments are
 * all null (or that has no arguments at all) may be answered from a single
 * cached slot holding the last response and the time it was obtained; a call
 * with some non-null argument always goes to the target. Time is an explicit
 * parameter (milliseconds) and the target is an oracle: `target` is what the
 * target would produce if it were invoked by that call.
 */
module CacheModel {
  import opened Wrappers

  /** One argument value; `Null` is a Java null. */
  datatype Arg<A> = Null | Present(value: A)

  /** The named arguments of one invocation. */
  type Params<A> = map<string, Arg<A>>

  /** Some argument carries a non-null value: such a call is never cached. */
  predicate HasInput<A>(params: Params<A>) {
    exists name :: name in params && params[name].Present?
  }

  /** What the target does when it is invoked: return a value or throw. */
  datatype TargetOutcome<R> = Returned(value: R) | Threw(error: string)

  /** The cached slot: a response and the time at which it was obtained. */
  datatype CachedResponse<R> = CachedResponse(response: R, creationTime: int)

  /** A cached response is stale once a whole time-to-live has passed since it was created. */
  predicate IsStale<R>(cached: CachedResponse<R>, currentTime: int, timeToLive: int) {
    currentTime - cached.creationTime >= timeToLive
  }

  /**
   * The effect of one call: what the caller gets, the cached slot afterwards, and
   * the parameter maps the target received during the call (none or one).
   */
  datatype StepResult<A, R> = StepResult(outcome: TargetOutcome<R>, cache: Option<CachedResponse<R>>, forwarded: seq<Params<A>>)

  /** One call of `invoke(params)` at time `now` on an invoker whose slot is `cache`. */
  function Step<A, R>(cache: Option<CachedResponse<R>>, timeToLive: int, params: Params<A>, now: int, target: TargetOutcome<R>): (s: StepResult<A, R>)
  {
    if HasInput(params) then
      StepResult(target, cache, [params])
    else if cache.None? || IsStale(cache.value, now, timeToLive) then
      // a target that throws propagates its error and leaves the slot as it was
      var refreshed := if target.Returned? then Some(CachedResponse(target.value, now)) else cache;
      StepResult(target, refreshed, [params])
    else
      StepResult(Returned(cache.value.response), cache, [])
  }

  /** One call of a sequence: its arguments, the clock reading, and the target's answer. */
  datatype Call<A, R> = Call(params: Params<A>, now: int, target: TargetOutcome<R>)

  /** The effect of a sequence of calls on one invoker. */
  datatype RunResult<A, R> = RunResult(outcomes: seq<TargetOutcome<R>>, cache: Option<CachedResponse<R>>, forwarded: seq<Params<A>>)

  /** Successive calls on one invoker, starting from slot `cache`. */
  ghost function Run<A, R>(cache: Option<CachedResponse<R>>, timeToLive: int, calls: seq<Call<A, R>>): (r: RunResult<A, R>)
    ensures |r.outcomes| == |calls|
    ensures |r.forwarded| <= |calls|
    decreases |calls|
  {
    if |calls| == 0 then
      RunResult([], cache, [])
    else
      var s := Step(cache, timeToLive, calls[0].params, calls[0].now, calls[0].target);
      var rest := Run(s.cache, timeToLive, calls[1..]);
      RunResult([s.outcome] + rest.outcomes, rest.cache, s.forwarded + rest.forwarded)
  }

  /** Running one more call is running the earlier calls and then one `Step`. */
  lemma {:induction false} RunSplit<A, R>(cache: Option<CachedResponse<R>>, timeToLive: int, calls: seq<Call<A, R>>, last: Call<A, R>)
    ensures var r := Run(cache, timeToLive, calls);
      var s := Step(r.cache, timeToLive, last.params, last.now, last.target);
      Run(cache, timeToLive, calls + [last]) == RunResult(r.outcomes + [s.outcome], s.cache, r.forwarded + s.forwarded)
    decreases |calls|
  {
    if |calls| > 0 {
      var s0 := Step(cache, timeToLive, calls[0].params, calls[0].now, calls[0].target);
      assert (calls + [last])[1..] == calls[1..] + [last];
      RunSplit(s0.cache, timeToLive, calls[1..], last);
    } else {
      assert calls + [last] == [last];
    }
  }

  /** A call with a non-null argument goes to the target with its own arguments and leaves the slot alone. */
  lemma StepBypass<A, R>(cache: Option<CachedResponse<R>>, timeToLive: int, params: Params<A>, now: int, target: TargetOutcome<R>)
    requires HasInput(params)
    ensures var s := Step(cache, timeToLive, params, now, target);
      s.forwarded == [params] && s.outcome == target && s.cache == cache
  {
  }

  /** A call with only null arguments, within the time-to-live of the cached response, is answered from the slot. */
  lemma StepHit<A, R>(cached: CachedResponse<R>, timeToLive: int, params: Params<A>, now: int, target: TargetOutcome<R>)
    requires !HasInput(params)
    requires now - cached.creationTime < timeToLive
    ensures var s := Step(Some(cached), timeToLive, params, now, target);
      s.forwarded == [] && s.outcome == Returned(cached.response) && s.cache == Some(cached)
  {
  }

  /** A null-only call at the very time the slot was filled is a hit, since a time-to-live is positive. */
  lemma StepImmediateHit<A, R>(response: R, timeToLive: int, params: Params<A>, now: int, target: TargetOutcome<R>)
    requires timeToLive > 0 && !HasInput(params)
    ensures var s := Step(Some(CachedResponse(response, now)), timeToLive, params, now, target);
      s.forwarded == [] && s.outcome == Returned(response)
  {
  }

  /**
   * A call with only null arguments on an empty slot, or after the time-to-live has
   * passed, goes to the target; a returned value is cached with the call's time,
   * an error is passed on and caches nothing.
   */
  lemma StepMiss<A, R>(cache: Option<CachedResponse<R>>, timeToLive: int, params: Params<A>, now: int, target: TargetOutcome<R>)
    requires !HasInput(params)
    requires cache.Some? ==> now - cache.value.creationTime > timeToLive
    ensures var s := Step(cache, timeToLive, params, now, target);
      s.forwarded == [params] && s.outcome == target &&
      s.cache == (if target.Returned? then Some(CachedResponse(target.value, now)) else cache)
  {
  }

  /** The empty map and a map of nulls carry no input. */
  lemma NullOnlyParamsHaveNoInput<A>(params: Params<A>)
    requires forall name :: name in params ==> params[name] == Null
    ensures !HasInput(params)
  {
  }

  /** Calls that all carry a non-null argument each reach the target, whatever the clock says. */
  lemma {:induction false} BypassRunForwardsEveryCall<A, R>(cache: Option<CachedResponse<R>>, timeToLive: int, calls: seq<Call<A, R>>)
    requires forall i :: 0 <= i < |calls| ==> HasInput(calls[i].params)
    ensures var r := Run(cache, timeToLive, calls);
      |r.forwarded| == |calls| && r.cache == cache &&
      forall i :: 0 <= i < |calls| ==> r.forwarded[i] == calls[i].params && r.outcomes[i] == calls[i].target
  {
    if |calls| > 0 {
      BypassRunForwardsEveryCall(cache, timeToLive, calls[1..]);
    }
  }

  /** While the cached response is fresh, repeated null-only calls with one map never reach the target. */
  lemma {:induction false} FreshCacheAnswersEveryCall<A, R>(cached: CachedResponse<R>, timeToLive: int, params: Params<A>, calls: seq<Call<A, R>>)
    requires !HasInput(params)
    requires forall i :: 0 <= i < |calls| ==> calls[i].params == params && calls[i].now - cached.creationTime < timeToLive
    ensures var r := Run(Some(cached), timeToLive, calls);
      r.forwarded == [] && r.cache == Some(cached) &&
      forall i :: 0 <= i < |calls| ==> r.outcomes[i] == Returned(cached.response)
  {
    if |calls| > 0 {
      FreshCacheAnswersEveryCall(cached, timeToLive, params, calls[1..]);
    }
  }

  /**
   * On a fresh invoker, calls repeating one null-only map within the time-to-live of
   * the first call invoke the target exactly once, with that map, and all get the
   * first call's result.
   */
  lemma FirstResultServedWithinTtl<A, R>(timeToLive: int, params: Params<A>, calls: seq<Call<A, R>>)
    requires !HasInput(params) && |calls| > 0 && calls[0].target.Returned?
    requires forall i :: 0 <= i < |calls| ==> calls[i].params == params
    requires forall i :: 0 < i < |calls| ==> calls[i].now - calls[0].now < timeToLive
    ensures var r := Run(None, timeToLive, calls);
      r.forwarded == [params] &&
      forall i :: 0 <= i < |calls| ==> r.outcomes[i] == calls[0].target
  {
    var first := CachedResponse(calls[0].target.value, calls[0].now);
    FreshCacheAnswersEveryCall(first, timeToLive, params, calls[1..]);
  }

  /** Once the time-to-live has passed, a repeated null-only call reaches the target again and returns its new result. */
  lemma ExpiredResponseRefreshed<A, R>(timeToLive: int, params: Params<A>, t0: int, t1: int, first: R, second: TargetOutcome<R>)
    requires !HasInput(params)
    requires t1 - t0 > timeToLive
    ensures var r := Run(None, timeToLive, [Call(params, t0, Returned(first)), Call(params, t1, second)]);
      r.forwarded == [params, params] && r.outcomes == [Returned(first), second]
  {
  }

  /** The target only ever receives parameter maps exactly as some caller passed them. */
  lemma {:induction false} ForwardedComeFromCalls<A, R>(cache: Option<CachedResponse<R>>, timeToLive: int, calls: seq<Call<A, R>>)
    ensures forall j :: 0 <= j < |Run(cache, timeToLive, calls).forwarded| ==>
      exists i :: 0 <= i < |calls| && Run(cache, timeToLive, calls).forwarded[j] == calls[i].params
    decreases |calls|
  {
    if |calls| > 0 {
      var s := Step(cache, timeToLive, calls[0].params, calls[0].now, calls[0].target);
      ForwardedComeFromCalls(s.cache, timeToLive, calls[1..]);
      var r := Run(cache, timeToLive, calls);
      var rest := Run(s.cache, timeToLive, calls[1..]);
      forall j | 0 <= j < |r.forwarded|
        ensures exists i :: 0 <= i < |calls| && r.forwarded[j] == calls[i].params
      {
        if j < |s.forwarded| {
          assert r.forwarded[j] == calls[0].params;
        } else {
          assert r.forwarded == s.forwarded + rest.forwarded;
          var k := j - |s.forwarded|;
          assert 0 <= k < |rest.forwarded| && r.forwarded[j] == rest.forwarded[k];
          var i :| 0 <= i < |calls[1..]| && rest.forwarded[k] == calls[1..][i].params;
          assert r.forwarded[j] == calls[i + 1].params;
        }
      }
    } else {
      assert Run(cache, timeToLive, calls).forwarded == [];
    }
  }
}
