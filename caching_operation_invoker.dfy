/**
 * The caching operation invoker as an object: it holds its time-to-live and one
 * mutable cached slot, and each `Invoke` reads the slot and overwrites it on a miss.
 * The ghost field `forwarded` logs every parameter map the target received, in
 * order; its length is the number of target invocations.
 */
module CachingInvoker {
  import opened Wrappers
  import opened CacheModel

  /** The error raised on construction: Java's IllegalArgumentException. */
  datatype Error = IllegalArgument(message: string)

  /** `part` occurs somewhere in `s`. */
  predicate ContainsSubstring(s: string, part: string) {
    part <= s || (|s| > 0 && ContainsSubstring(s[1..], part))
  }

  /** The construction check: a time-to-live must be strictly positive. */
  function CheckTimeToLive(timeToLive: int): (r: Option<Error>)
    ensures r.None? <==> timeToLive > 0
    ensures r.Some? ==> ContainsSubstring(r.value.message, "TimeToLive")
  {
    if timeToLive > 0 then None else Some(IllegalArgument("TimeToLive must be strictly positive"))
  }

  class CachingOperationInvoker<A, R> {
    const timeToLive: int
    var cachedResponse: Option<CachedResponse<R>>
    ghost var forwarded: seq<Params<A>>

    ghost predicate Valid()
      reads this
    {
      timeToLive > 0
    }

    /** Builds an invoker whose time-to-live has already passed `CheckTimeToLive`. */
    constructor (timeToLive: int)
      requires CheckTimeToLive(timeToLive).None?
      ensures Valid() && this.timeToLive == timeToLive
      ensures cachedResponse == None && forwarded == []
    {
      this.timeToLive := timeToLive;
      cachedResponse := None;
      forwarded := [];
    }

    /**
     * One call with `params` at time `now`; `target` is what the target invoker
     * does if this call reaches it.
     */
    method Invoke(params: Params<A>, now: int, target: TargetOutcome<R>) returns (response: TargetOutcome<R>)
      requires Valid()
      modifies this
      ensures Valid()
      ensures var s := Step(old(cachedResponse), timeToLive, params, now, target);
        response == s.outcome && cachedResponse == s.cache && forwarded == old(forwarded) + s.forwarded
    {
      if HasInput(params) {
        forwarded := forwarded + [params];
        return target;
      }
      var cached := cachedResponse;
      if cached.None? || IsStale(cached.value, now, timeToLive) {
        forwarded := forwarded + [params];
        if target.Returned? {
          cachedResponse := Some(CachedResponse(target.value, now));
        }
        return target;
      }
      return Returned(cached.value.response);
    }
  }

  /** `new CachingOperationInvoker(target, timeToLive)`: fails when the time-to-live is not positive. */
  method Create<A, R>(timeToLive: int) returns (r: Result<CachingOperationInvoker<A, R>, Error>)
    ensures r.Failure? <==> timeToLive <= 0
    ensures r.Failure? ==> Some(r.error) == CheckTimeToLive(timeToLive)
    ensures r.Success? ==> fresh(r.value) && r.value.Valid() && r.value.timeToLive == timeToLive
    ensures r.Success? ==> r.value.cachedResponse == None && r.value.forwarded == []
  {
    var check := CheckTimeToLive(timeToLive);
    if check.Some? {
      return Failure(check.value);
    }
    var invoker := new CachingOperationInvoker<A, R>(timeToLive);
    return Success(invoker);
  }
}
