/** The two rate limiters of `app/core/rate_limit.py`, each proved against the step it performs
    on its own store. Time is a real number of seconds supplied to every call. */
module RateLimit {
  import opened Wrappers

  const WINDOW_SECONDS: real := 60.0

  // ---------------------------------------------------------------- in-memory limiter

  datatype Bucket = Bucket(windowStartedAt: real, requestCount: int)

  type Buckets = map<string, Bucket>

  /** One call of the in-memory limiter on the values of its buckets. */
  function MemoryStep(buckets: Buckets, key: string, limit: int, now: real): (Buckets, bool) {
    if key !in buckets || now - buckets[key].windowStartedAt >= WINDOW_SECONDS then
      (buckets[key := Bucket(now, 1)], true)
    else if buckets[key].requestCount >= limit then
      (buckets, false)
    else
      (buckets[key := buckets[key].(requestCount := buckets[key].requestCount + 1)], true)
  }

  class RateLimitBucket {
    var windowStartedAt: real
    var requestCount: int

    constructor (windowStartedAt: real, requestCount: int)
      ensures this.windowStartedAt == windowStartedAt && this.requestCount == requestCount
    {
      this.windowStartedAt := windowStartedAt;
      this.requestCount := requestCount;
    }
  }

  /** The dictionary holds bucket objects that are updated in place; no two keys share one. */
  class InMemoryRateLimiter {
    var buckets: map<string, RateLimitBucket>

    ghost predicate Valid()
      reads this
    {
      forall j, k :: j in buckets && k in buckets && j != k ==> buckets[j] != buckets[k]
    }

    ghost function Contents(): Buckets
      reads this, buckets.Values
    {
      map k | k in buckets :: Bucket(buckets[k].windowStartedAt, buckets[k].requestCount)
    }

    constructor ()
      ensures Valid() && Contents() == map[] && buckets == map[]
    {
      buckets := map[];
    }

    method Allow(key: string, requestsPerMinute: int, now: real) returns (allowed: bool)
      requires Valid()
      modifies this, buckets.Values
      ensures Valid() && fresh(buckets.Values - old(buckets.Values))
      ensures (Contents(), allowed) == MemoryStep(old(Contents()), key, requestsPerMinute, now)
    {
      if key !in buckets || now - buckets[key].windowStartedAt >= WINDOW_SECONDS {
        var bucket := new RateLimitBucket(now, 1);
        buckets := buckets[key := bucket];
        assert Contents() == old(Contents())[key := Bucket(now, 1)];
        return true;
      }
      var bucket := buckets[key];
      assert bucket in buckets.Values;
      if bucket.requestCount >= requestsPerMinute {
        return false;
      }
      bucket.requestCount := bucket.requestCount + 1;
      assert Contents() == old(Contents())[key := Bucket(bucket.windowStartedAt, bucket.requestCount)];
      return true;
    }

    method Close()
      modifies this
      ensures Valid() && Contents() == map[]
    {
      buckets := map[];
    }
  }

  // ---------------------------------------------------------------- Redis limiter

  datatype Counter = Counter(count: int, expiresAt: Option<real>)

  type Counters = map<string, Counter>

  /** A key whose expiry has passed is absent. */
  predicate Live(counters: Counters, key: string, now: real) {
    key in counters && (counters[key].expiresAt.None? || now < counters[key].expiresAt.value)
  }

  /** INCR: creates an absent key with value 1 and no expiry, keeps the expiry of a present one. */
  function Incr(counters: Counters, key: string, now: real): Counters {
    if Live(counters, key, now) then
      counters[key := counters[key].(count := counters[key].count + 1)]
    else
      counters[key := Counter(1, None)]
  }

  function Expire(counters: Counters, key: string, seconds: real, now: real): Counters {
    if Live(counters, key, now) then
      counters[key := counters[key].(expiresAt := Some(now + seconds))]
    else
      counters
  }

  /** The Lua script: the new counters and the count it returns. */
  function Script(counters: Counters, key: string, seconds: real, now: real): (Counters, int) {
    var incremented := Incr(counters, key, now);
    var current := incremented[key].count;
    (if current == 1 then Expire(incremented, key, seconds, now) else incremented, current)
  }

  /** One answered call of the Redis limiter. */
  function RedisStep(counters: Counters, key: string, limit: int, now: real): (Counters, bool) {
    var (counters', count) := Script(counters, key, WINDOW_SECONDS, now);
    (counters', count <= limit)
  }

  /** What the network does to one `eval`: nothing, the script never runs, or it runs and its
      reply is lost (a socket timeout). */
  datatype Fault = NoFault | Unreachable | ReplyLost

  datatype Decision = Allowed | Refused | Unavailable

  class RedisStore {
    var counters: Counters

    constructor ()
      ensures counters == map[]
    {
      counters := map[];
    }

    method RunIncr(key: string, now: real) returns (count: int)
      modifies this
      ensures counters == Incr(old(counters), key, now)
      ensures key in counters && count == counters[key].count
    {
      if Live(counters, key, now) {
        counters := counters[key := counters[key].(count := counters[key].count + 1)];
      } else {
        counters := counters[key := Counter(1, None)];
      }
      count := counters[key].count;
    }

    method RunExpire(key: string, seconds: real, now: real)
      modifies this
      ensures counters == Expire(old(counters), key, seconds, now)
    {
      if Live(counters, key, now) {
        counters := counters[key := counters[key].(expiresAt := Some(now + seconds))];
      }
    }

    /** The script is one atomic step of the store. */
    method Eval(key: string, seconds: real, now: real) returns (current: int)
      modifies this
      ensures (counters, current) == Script(old(counters), key, seconds, now)
    {
      current := RunIncr(key, now);
      if current == 1 {
        RunExpire(key, seconds, now);
      }
    }
  }

  /** Any number of limiters, one per worker process, may share one store. */
  class RedisRateLimiter {
    const store: RedisStore

    constructor (store: RedisStore)
      ensures this.store == store
    {
      this.store := store;
    }

    method Allow(key: string, requestsPerMinute: int, now: real, fault: Fault) returns (decision: Decision)
      modifies store
      ensures fault == Unreachable ==> store.counters == old(store.counters) && decision == Unavailable
      ensures fault == ReplyLost ==>
                store.counters == RedisStep(old(store.counters), key, requestsPerMinute, now).0 &&
                decision == Unavailable
      ensures fault == NoFault ==>
                (store.counters, decision == Allowed) == RedisStep(old(store.counters), key, requestsPerMinute, now)
      ensures fault == NoFault ==> decision != Unavailable
    {
      if fault == Unreachable {
        return Unavailable;
      }
      var count := store.Eval(key, WINDOW_SECONDS, now);
      if fault == ReplyLost {
        return Unavailable;
      }
      return if count <= requestsPerMinute then Allowed else Refused;
    }
  }
}
