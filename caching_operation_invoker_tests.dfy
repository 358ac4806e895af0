/**
 * The four scenarios that pin the invoker's behaviour, as clients of the class.
 * Each target answer is passed in; a later answer that differs from an earlier
 * one shows whether the caller got the cached response or a fresh one.
 */
module CachingInvokerTests {
  import opened Wrappers
  import opened CacheModel
  import opened CachingInvoker

  /** A time-to-live of zero is refused with an error that names TimeToLive. */
  method CreateInstanceWithTtlSetToZero<A, R>() returns (r: Result<CachingOperationInvoker<A, R>, Error>)
    ensures r.Failure? && ContainsSubstring(r.error.message, "TimeToLive")
  {
    r := Create(0);
  }

  /**
   * With a time-to-live of 500, a null-only map is answered by the target once and
   * from the cache the second time: both calls get the target's first result.
   */
  method AssertCacheIsUsed<A, R>(parameters: Params<A>, expected: R, later: R, t0: int, t1: int)
    returns (response: TargetOutcome<R>, cachedResponse: TargetOutcome<R>, ghost afterFirst: seq<Params<A>>, ghost forwarded: seq<Params<A>>)
    requires !HasInput(parameters)
    requires t1 - t0 < 500
    ensures response == Returned(expected)
    ensures afterFirst == [parameters]
    ensures cachedResponse == response
    ensures forwarded == [parameters]
  {
    var invoker := new CachingOperationInvoker<A, R>(500);
    response := invoker.Invoke(parameters, t0, Returned(expected));
    afterFirst := invoker.forwarded;
    cachedResponse := invoker.Invoke(parameters, t1, Returned(later));
    forwarded := invoker.forwarded;
  }

  /** The empty map is cached. */
  method CacheInTtlRangeWithNoParameter<A, R>(expected: R, later: R, t0: int, t1: int)
    returns (response: TargetOutcome<R>, cachedResponse: TargetOutcome<R>, ghost forwarded: seq<Params<A>>)
    requires t1 - t0 < 500
    ensures response == Returned(expected) && cachedResponse == response
    ensures forwarded == [map[]]
  {
    NullOnlyParamsHaveNoInput<A>(map[]);
    ghost var afterFirst;
    response, cachedResponse, afterFirst, forwarded := AssertCacheIsUsed(map[], expected, later, t0, t1);
  }

  /** A map whose entries are all null is cached like the empty map. */
  method CacheInTtlWithNullParameters<A, R>(expected: R, later: R, t0: int, t1: int)
    returns (response: TargetOutcome<R>, cachedResponse: TargetOutcome<R>, ghost forwarded: seq<Params<A>>)
    requires t1 - t0 < 500
    ensures response == Returned(expected) && cachedResponse == response
    ensures forwarded == [map["first" := Null, "second" := Null]]
  {
    var parameters: Params<A> := map["first" := Null, "second" := Null];
    NullOnlyParamsHaveNoInput(parameters);
    ghost var afterFirst;
    response, cachedResponse, afterFirst, forwarded := AssertCacheIsUsed(parameters, expected, later, t0, t1);
  }

  /**
   * A map with a non-null value is never cached: three calls, even within the
   * time-to-live, make three target invocations with that map, and each caller gets
   * the target's answer to its own call.
   */
  method TargetAlwaysInvokedWithArguments<R>(first: R, second: R, third: R, t0: int, t1: int, t2: int)
    returns (responses: seq<TargetOutcome<R>>, ghost forwarded: seq<Params<string>>)
    ensures responses == [Returned(first), Returned(second), Returned(third)]
    ensures |forwarded| == 3
    ensures forall i :: 0 <= i < |forwarded| ==> forwarded[i] == map["test" := Present("value"), "something" := Null]
  {
    var parameters: Params<string> := map["test" := Present("value"), "something" := Null];
    assert parameters["test"].Present?;
    var invoker := new CachingOperationInvoker<string, R>(500);
    var r0 := invoker.Invoke(parameters, t0, Returned(first));
    var r1 := invoker.Invoke(parameters, t1, Returned(second));
    var r2 := invoker.Invoke(parameters, t2, Returned(third));
    responses := [r0, r1, r2];
    forwarded := invoker.forwarded;
  }

  /**
   * With a time-to-live of 50, a second call at least 55 later finds the response
   * stale: the target is invoked twice and the second caller gets the new result.
   */
  method TargetInvokedWhenCacheExpires<A, R>(first: R, second: R, t0: int, t1: int)
    returns (responses: seq<TargetOutcome<R>>, ghost forwarded: seq<Params<A>>)
    requires t1 - t0 >= 55
    ensures responses == [Returned(first), Returned(second)]
    ensures forwarded == [map[], map[]]
  {
    var parameters: Params<A> := map[];
    NullOnlyParamsHaveNoInput(parameters);
    var invoker := new CachingOperationInvoker<A, R>(50);
    var r0 := invoker.Invoke(parameters, t0, Returned(first));
    var r1 := invoker.Invoke(parameters, t1, Returned(second));
    responses := [r0, r1];
    forwarded := invoker.forwarded;
  }

  /**
   * Successive calls on one invoker, as the tests make them: the responses, the
   * slot and the target's log follow `Run`, so every lemma about `Run` holds of
   * repeated `Invoke` calls on one object.
   */
  method InvokeAll<A, R>(invoker: CachingOperationInvoker<A, R>, calls: seq<Call<A, R>>)
    returns (responses: seq<TargetOutcome<R>>)
    requires invoker.Valid()
    modifies invoker
    ensures invoker.Valid()
    ensures var r := Run(old(invoker.cachedResponse), invoker.timeToLive, calls);
      responses == r.outcomes && invoker.cachedResponse == r.cache &&
      invoker.forwarded == old(invoker.forwarded) + r.forwarded
  {
    responses := [];
    var i := 0;
    while i < |calls|
      invariant 0 <= i <= |calls| && invoker.Valid()
      invariant var r := Run(old(invoker.cachedResponse), invoker.timeToLive, calls[..i]);
        responses == r.outcomes && invoker.cachedResponse == r.cache &&
        invoker.forwarded == old(invoker.forwarded) + r.forwarded
    {
      RunSplit(old(invoker.cachedResponse), invoker.timeToLive, calls[..i], calls[i]);
      assert calls[..i + 1] == calls[..i] + [calls[i]];
      var response := invoker.Invoke(calls[i].params, calls[i].now, calls[i].target);
      responses := responses + [response];
      i := i + 1;
    }
    assert calls[..i] == calls;
  }
}
