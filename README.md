# Caching operation invoker

A model of Spring Boot Actuator's `CachingOperationInvoker`, the decorator that
wraps an endpoint's `OperationInvoker` and reuses the target's last response for a
time-to-live (TTL) given in milliseconds. The behaviour is taken from the
assertions of `CachingOperationInvokerTests`:

- construction with a TTL of 0 fails with an `IllegalArgumentException` whose
  message mentions "TimeToLive";
- a call whose parameter map holds no non-null value (the empty map, or a map of
  nulls) invokes the target once and then, within the TTL, returns the same
  response without touching the target;
- once the TTL has passed, such a call invokes the target again;
- a call whose map holds a non-null value is never served from the cache.

Layout:

- `wrappers.dfy` (`Wrappers`): `Option` and `Result`.
- `cache_model.dfy` (`CacheModel`): parameter maps (`Arg` is a value or `Null`),
  the cached slot `CachedResponse(response, creationTime)`, the staleness test,
  one call as the pure function `Step` and a sequence of calls as `Run`, with the
  lemmas about both.
- `caching_operation_invoker.dfy` (`CachingInvoker`): the invoker as a class with
  a constant `timeToLive`, a mutable `cachedResponse` slot and a ghost log
  `forwarded` of the parameter maps the target received (its length is the number
  of target invocations); `Create` models the throwing constructor.
- `caching_operation_invoker_tests.dfy` (`CachingInvokerTests`): each test method
  as a client of the class, with its assertions as postconditions, and
  `InvokeAll`, which makes successive calls on one invoker and shows that they
  follow `Run`.

The clock is an explicit `now` argument of each call (a Java `long` of
milliseconds; the model uses `int`). The target is an oracle: each call is given
the `TargetOutcome` the target would produce, either `Returned(value)` or
`Threw(error)`; a thrown error is passed on and caches nothing. The scenario
methods give later calls a different target answer than earlier ones, so that a
response equal to the first answer can only have come from the cache.

Where the behaviour is open, the model decides as follows:

- Cache slot: the cache is a single slot, not keyed by parameter map, used by
  every call without input; the tests only ever use one map per invoker. The test
  at lines 79-91 shows that each of three identical calls carrying a non-null
  value reaches the target, so such calls never use the slot.
- Staleness: a response is stale once `now - creationTime >= timeToLive`. No
  lemma depends on the exact boundary.

## Model

| member | source | states |
|---|---|---|
| `CachingInvoker.CheckTimeToLive` | spring-boot-project/spring-boot-actuator/src/test/java/org/springframework/boot/actuate/endpoint/invoker/cache/CachingOperationInvokerTests.java:46-51 | a TTL is accepted exactly when it is positive; a rejection's message contains "TimeToLive" |
| `CachingInvoker.Create` | spring-boot-project/spring-boot-actuator/src/test/java/org/springframework/boot/actuate/endpoint/invoker/cache/CachingOperationInvokerTests.java:46-51 | construction fails exactly when TTL <= 0, with the argument error; otherwise a fresh invoker with that TTL, an empty slot and no target invocations |
| `CachingInvoker.CachingOperationInvoker.constructor` | spring-boot-project/spring-boot-actuator/src/test/java/org/springframework/boot/actuate/endpoint/invoker/cache/CachingOperationInvokerTests.java:70 | a constructed invoker keeps its positive TTL, starts with an empty slot and has invoked nothing |
| `CachingInvoker.CachingOperationInvoker.Invoke` | spring-boot-project/spring-boot-actuator/src/test/java/org/springframework/boot/actuate/endpoint/invoker/cache/CachingOperationInvokerTests.java:66-103 | the response, the new slot and the maps handed to the target are those of `Step` on the old slot; the TTL stays positive |
| `CacheModel.Run` | spring-boot-project/spring-boot-actuator/src/test/java/org/springframework/boot/actuate/endpoint/invoker/cache/CachingOperationInvokerTests.java:87-89 | successive calls give one response per call and never invoke the target more often than they were called |
| `CacheModel.StepBypass` | spring-boot-project/spring-boot-actuator/src/test/java/org/springframework/boot/actuate/endpoint/invoker/cache/CachingOperationInvokerTests.java:79-91 | a call with a non-null argument goes to the target with its own map, returns the target's answer and leaves the slot alone |
| `CacheModel.StepHit` | spring-boot-project/spring-boot-actuator/src/test/java/org/springframework/boot/actuate/endpoint/invoker/cache/CachingOperationInvokerTests.java:74-76 | a null-only call less than a TTL after the slot was filled returns the cached response and does not invoke the target |
| `CacheModel.StepImmediateHit` | spring-boot-project/spring-boot-actuator/src/test/java/org/springframework/boot/actuate/endpoint/invoker/cache/CachingOperationInvokerTests.java:71-75 | a null-only call at the same instant the slot was filled is answered from the slot, because the TTL is positive |
| `CacheModel.RunSplit` | spring-boot-project/spring-boot-actuator/src/test/java/org/springframework/boot/actuate/endpoint/invoker/cache/CachingOperationInvokerTests.java:87-89 | running one more call is running the earlier calls and then one `Step` on the slot they leave |
| `CacheModel.StepMiss` | spring-boot-project/spring-boot-actuator/src/test/java/org/springframework/boot/actuate/endpoint/invoker/cache/CachingOperationInvokerTests.java:93-103 | a null-only call on an empty slot, or more than a TTL after it was filled, invokes the target with the caller's map and returns its answer; a returned value is cached with the call's time, an error caches nothing |
| `CacheModel.NullOnlyParamsHaveNoInput` | spring-boot-project/spring-boot-actuator/src/test/java/org/springframework/boot/actuate/endpoint/invoker/cache/CachingOperationInvokerTests.java:53-64 | the empty map and any map of nulls count as calls without input |
| `CacheModel.BypassRunForwardsEveryCall` | spring-boot-project/spring-boot-actuator/src/test/java/org/springframework/boot/actuate/endpoint/invoker/cache/CachingOperationInvokerTests.java:79-91 | N calls that each carry a non-null argument invoke the target exactly N times, call i with call i's map, each returning its own target answer, at any times, and leave the slot unchanged |
| `CacheModel.FreshCacheAnswersEveryCall` | spring-boot-project/spring-boot-actuator/src/test/java/org/springframework/boot/actuate/endpoint/invoker/cache/CachingOperationInvokerTests.java:74-76 | repeated calls with one null-only map, all within a TTL of the cached response's time, never invoke the target and all return the cached response |
| `CacheModel.FirstResultServedWithinTtl` | spring-boot-project/spring-boot-actuator/src/test/java/org/springframework/boot/actuate/endpoint/invoker/cache/CachingOperationInvokerTests.java:66-77 | on a fresh invoker, calls repeating one null-only map within a TTL of the first call invoke the target exactly once, with that map, and every call returns the first result |
| `CacheModel.ExpiredResponseRefreshed` | spring-boot-project/spring-boot-actuator/src/test/java/org/springframework/boot/actuate/endpoint/invoker/cache/CachingOperationInvokerTests.java:93-103 | two null-only calls more than a TTL apart invoke the target twice with the caller's map, and the second returns the target's new answer |
| `CacheModel.ForwardedComeFromCalls` | spring-boot-project/spring-boot-actuator/src/test/java/org/springframework/boot/actuate/endpoint/invoker/cache/CachingOperationInvokerTests.java:90 | every map the target receives is, unchanged, the map of one of the calls |
| `CachingInvokerTests.CreateInstanceWithTtlSetToZero` | spring-boot-project/spring-boot-actuator/src/test/java/org/springframework/boot/actuate/endpoint/invoker/cache/CachingOperationInvokerTests.java:46-51 | creating an invoker with TTL 0 fails with an argument error whose message contains "TimeToLive" |
| `CachingInvokerTests.AssertCacheIsUsed` | spring-boot-project/spring-boot-actuator/src/test/java/org/springframework/boot/actuate/endpoint/invoker/cache/CachingOperationInvokerTests.java:66-77 | with TTL 500, the first call with a null-only map invokes the target once, with that map, and returns its result; a second call less than 500 later returns the same result without invoking the target again |
| `CachingInvokerTests.CacheInTtlRangeWithNoParameter` | spring-boot-project/spring-boot-actuator/src/test/java/org/springframework/boot/actuate/endpoint/invoker/cache/CachingOperationInvokerTests.java:53-56 | the empty map is cached: one target invocation, the same response twice |
| `CachingInvokerTests.CacheInTtlWithNullParameters` | spring-boot-project/spring-boot-actuator/src/test/java/org/springframework/boot/actuate/endpoint/invoker/cache/CachingOperationInvokerTests.java:58-64 | the map {first: null, second: null} is cached: one target invocation, the same response twice |
| `CachingInvokerTests.TargetAlwaysInvokedWithArguments` | spring-boot-project/spring-boot-actuator/src/test/java/org/springframework/boot/actuate/endpoint/invoker/cache/CachingOperationInvokerTests.java:79-91 | three calls with {test: "value", something: null} invoke the target exactly three times with that map, and each returns that call's target answer |
| `CachingInvokerTests.TargetInvokedWhenCacheExpires` | spring-boot-project/spring-boot-actuator/src/test/java/org/springframework/boot/actuate/endpoint/invoker/cache/CachingOperationInvokerTests.java:93-103 | with TTL 50, a second call at least 55 later invokes the target again (two invocations in all) and returns the new result |
| `CachingInvokerTests.InvokeAll` | spring-boot-project/spring-boot-actuator/src/test/java/org/springframework/boot/actuate/endpoint/invoker/cache/CachingOperationInvokerTests.java:87-89 | successive `Invoke` calls on one invoker give the responses, final slot and target log of `Run` from the invoker's slot |

## Left out

- Concurrency: the cached slot is shared between threads in Java; the model is
  sequential, as the tests are.
- Wall-clock time and `Thread.sleep`: replaced by the explicit `now` argument.
  Overflow of `long` arithmetic on timestamps is not modelled.
- Object identity (`isSameAs`): responses are values compared with `==`.
- The target `OperationInvoker` itself: not stored in the invoker. Each call is
  given the target's answer instead, so the model says nothing about what the
  target computes.
- Mock stubbing and verification: replaced by the ghost `forwarded` log.
- Caching per parameter map: the model keeps one slot, and its lemmas speak only
  of repeated identical maps. How two different null-only maps interact is not
  stated.
- The exact TTL boundary (`now - creationTime == timeToLive`): the model treats it
  as stale, but no lemma depends on it.
- The message text beyond "TimeToLive": only that word is fixed. TTLs below 0 are
  rejected like 0, which goes beyond the one case the tests exercise.
