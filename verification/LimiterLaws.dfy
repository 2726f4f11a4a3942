/** Laws of the two limiters over every timed run, derived from the reference windows. */
module LimiterLaws {
  import opened Wrappers
  import opened RateLimit
  import opened Windows

  // ---------------------------------------------------------------- the two limiters agree

  /** With one positive limit the two limiters decide every call alike. */
  lemma LimitersAgree(run: Run, limit: int, i: nat)
    requires limit >= 1 && i < |run|
    ensures MemoryAllows(run, limit, i) <==> RedisAllows(run, limit, i)
  {
    MemoryExact(run, limit, i);
    RedisExact(run, limit, i);
  }

  /** The limiters agree on every run exactly for the limits the settings accept: at a limit below 1
      memory still admits the call that opens a window. */
  lemma AgreementNeedsPositiveLimit(limit: int)
    ensures (forall run: Run, i: nat | i < |run| :: MemoryAllows(run, limit, i) <==> RedisAllows(run, limit, i))
            <==> limit >= 1
  {
    if limit >= 1 {
      forall run: Run, i: nat | i < |run|
        ensures MemoryAllows(run, limit, i) <==> RedisAllows(run, limit, i)
      {
        LimitersAgree(run, limit, i);
      }
    } else {
      var run := [Call("k", 0.0)];
      RedisExact(run, limit, 0);
      assert MemoryAllows(run, limit, 0);
    }
  }

  /** The states stay coupled: the same live windows, and the memory count is the Redis count capped
      at the limit although only Redis counts refused calls. */
  lemma StatesCoupled(run: Run, limit: int, key: string, n: nat)
    requires limit >= 1 && n <= |run|
    ensures var buckets, counters := MemoryAfter(run, limit, n), RedisAfter(run, limit, n);
            (key in buckets <==> key in counters) &&
            (key in buckets ==>
               counters[key].expiresAt == Some(buckets[key].windowStartedAt + 60.0) &&
               buckets[key].requestCount == if counters[key].count < limit then counters[key].count else limit)
  {
    MemoryCoupling(run, limit, key, n);
    RedisCoupling(run, limit, key, n);
  }

  /** Raising the limit never refuses a call that was allowed. */
  lemma MonotoneInLimit(run: Run, lower: int, higher: int, i: nat)
    requires 1 <= lower <= higher && i < |run|
    ensures MemoryAllows(run, lower, i) ==> MemoryAllows(run, higher, i)
    ensures RedisAllows(run, lower, i) ==> RedisAllows(run, higher, i)
  {
    MemoryExact(run, lower, i);
    MemoryExact(run, higher, i);
    RedisExact(run, lower, i);
    RedisExact(run, higher, i);
  }

  // ---------------------------------------------------------------- exact counts per window

  /** The calls among the first n that fall in the window opened by call o, and the allowed ones. */
  ghost function WindowCalls(run: Run, o: nat, n: nat): set<nat>
    requires n <= |run|
  {
    set i: nat | i < n && Opener(run, i) == o
  }

  ghost function WindowAllowed(run: Run, limit: int, o: nat, n: nat): set<nat>
    requires n <= |run|
  {
    set i: nat | i < n && Opener(run, i) == o && Rank(run, i) <= limit
  }

  lemma CallsGrow(run: Run, o: nat, n: nat)
    requires n < |run|
    ensures |WindowCalls(run, o, n + 1)| == |WindowCalls(run, o, n)| + if Opener(run, n) == o then 1 else 0
  {
    var calls := WindowCalls(run, o, n);
    assert n !in calls;
    assert WindowCalls(run, o, n + 1) == if Opener(run, n) == o then calls + {n} else calls;
  }

  lemma AllowedGrow(run: Run, limit: int, o: nat, n: nat)
    requires n < |run|
    ensures |WindowAllowed(run, limit, o, n + 1)| ==
            |WindowAllowed(run, limit, o, n)| + if Opener(run, n) == o && Rank(run, n) <= limit then 1 else 0
  {
    var allowed := WindowAllowed(run, limit, o, n);
    assert n !in allowed;
    assert WindowAllowed(run, limit, o, n + 1) ==
           if Opener(run, n) == o && Rank(run, n) <= limit then allowed + {n} else allowed;
  }

  lemma WindowEmpty(run: Run, limit: int, o: nat, n: nat)
    requires n <= o && n <= |run|
    ensures |WindowCalls(run, o, n)| == |WindowAllowed(run, limit, o, n)| == 0
  {
    assert WindowCalls(run, o, n) == {} && WindowAllowed(run, limit, o, n) == {};
  }

  /** The first n calls leave the window opened by o with its calls and the first `limit` of them. */
  ghost predicate WindowCounted(run: Run, limit: nat, o: nat, n: nat)
    requires o < n <= |run|
  {
    var p := LastCall(run, run[o].key, n);
    |WindowAllowed(run, limit, o, n)| == Min(|WindowCalls(run, o, n)|, limit) &&
    p >= 0 && (Opener(run, p) == o ==> |WindowCalls(run, o, n)| == Rank(run, p))
  }

  lemma WindowOpens(run: Run, limit: nat, o: nat)
    requires limit >= 1 && o < |run| && Opener(run, o) == o
    ensures WindowCounted(run, limit, o, o + 1)
  {
    CallsGrow(run, o, o);
    AllowedGrow(run, limit, o, o);
    WindowEmpty(run, limit, o, o);
    LastCallStep(run, o, o);
  }

  lemma WindowContinues(run: Run, limit: nat, o: nat, n: nat)
    requires o < n < |run| && WindowCounted(run, limit, o, n)
    ensures WindowCounted(run, limit, o, n + 1)
  {
    CallsGrow(run, o, n);
    AllowedGrow(run, limit, o, n);
    if Opener(run, n) == o {
      LastCallStep(run, o, n);
    }
  }

  lemma {:induction false} WindowCounts(run: Run, limit: nat, o: nat, n: nat)
    requires limit >= 1 && o < n <= |run| && Opener(run, o) == o
    ensures WindowCounted(run, limit, o, n)
  {
    if n == o + 1 {
      WindowOpens(run, limit, o);
    } else {
      WindowCounts(run, limit, o, n - 1);
      WindowContinues(run, limit, o, n - 1);
    }
  }

  ghost function MemoryAllowed(run: Run, limit: int, o: nat, n: nat): set<nat>
    requires n <= |run|
  {
    set i: nat | i < n && Opener(run, i) == o && MemoryAllows(run, limit, i)
  }

  ghost function RedisAllowed(run: Run, limit: int, o: nat, n: nat): set<nat>
    requires n <= |run|
  {
    set i: nat | i < n && Opener(run, i) == o && RedisAllows(run, limit, i)
  }

  /** In every window exactly min(calls, limit) calls are allowed, by either limiter and whichever
      workers made them. */
  lemma WindowExact(run: Run, limit: nat, o: nat, n: nat)
    requires limit >= 1 && o < n <= |run| && Opener(run, o) == o
    ensures MemoryAllowed(run, limit, o, n) == RedisAllowed(run, limit, o, n)
    ensures var calls := |WindowCalls(run, o, n)|;
            |MemoryAllowed(run, limit, o, n)| == if calls < limit then calls else limit
  {
    forall i: nat | i < n
      ensures MemoryAllows(run, limit, i) <==> Rank(run, i) <= limit
      ensures RedisAllows(run, limit, i) <==> Rank(run, i) <= limit
    {
      MemoryExact(run, limit, i);
      RedisExact(run, limit, i);
    }
    assert MemoryAllowed(run, limit, o, n) == WindowAllowed(run, limit, o, n);
    WindowCounts(run, limit, o, n);
  }

  lemma RanksInOrder(run: Run, i: nat, j: nat)
    requires i < j < |run| && Opener(run, i) == Opener(run, j)
    ensures Rank(run, i) <= Rank(run, j)
  {
    CallsSplit(run, run[i].key, Opener(run, i), i + 1, j + 1);
  }

  /** The allowed calls of a window are its earliest ones. */
  lemma EarliestAllowed(run: Run, limit: int, i: nat, j: nat)
    requires limit >= 1 && i < j < |run| && Opener(run, i) == Opener(run, j)
    ensures MemoryAllows(run, limit, j) ==> MemoryAllows(run, limit, i)
    ensures RedisAllows(run, limit, j) ==> RedisAllows(run, limit, i)
  {
    MemoryExact(run, limit, i);
    MemoryExact(run, limit, j);
    RedisExact(run, limit, i);
    RedisExact(run, limit, j);
    RanksInOrder(run, i, j);
  }

  /** The rank of a call in the window opened by o, from the call before it. */
  lemma LastCallStep(run: Run, o: nat, i: nat)
    requires o <= i < |run| && Opener(run, i) == o
    ensures if i == o then Rank(run, i) == 1
            else var p := LastCall(run, run[i].key, i);
                 p >= 0 && Opener(run, p) == o && Rank(run, i) == Rank(run, p) + 1
  {
    OpenerStep(run, i);
    WindowStep(run, i);
  }

  // ---------------------------------------------------------------- independence of keys

  /** The calls among the first n made with one key. */
  function OnlyKey(run: Run, key: string, n: nat): Run
    requires n <= |run|
  {
    if n == 0 then []
    else OnlyKey(run, key, n - 1) + if run[n - 1].key == key then [run[n - 1]] else []
  }

  /** Later calls do not change the window a prefix leaves a key in. */
  lemma {:induction false} CurrentOfPrefix(run: Run, more: Run, key: string, n: nat)
    requires n <= |run|
    ensures Current(run + more, key, n) == Current(run, key, n)
  {
    if n == 0 {
    } else {
      CurrentOfPrefix(run, more, key, n - 1);
      CurrentStep(run, key, n - 1);
      CurrentStep(run + more, key, n - 1);
    }
  }

  lemma CurrentOfAppend(run: Run, call: Call)
    ensures Current(run + [call], call.key, |run| + 1) == Some(Advance(Current(run, call.key, |run|), call.at))
  {
    CurrentOfPrefix(run, [call], call.key, |run|);
    CurrentStep(run + [call], call.key, |run|);
  }

  /** Dropping the other keys leaves the window of this key as it was. */
  lemma {:induction false} CurrentOfOnlyKey(run: Run, key: string, n: nat)
    requires n <= |run|
    ensures Current(OnlyKey(run, key, n), key, |OnlyKey(run, key, n)|) == Current(run, key, n)
  {
    if n == 0 {
    } else {
      var kept := OnlyKey(run, key, n - 1);
      CurrentOfOnlyKey(run, key, n - 1);
      CurrentStep(run, key, n - 1);
      if run[n - 1].key == key {
        CurrentOfAppend(kept, run[n - 1]);
      } else {
        assert kept + [] == kept;
      }
    }
  }

  /** A call is decided as if only the calls with its own key had been made. */
  lemma KeysDoNotInterfere(run: Run, limit: int, i: nat)
    requires limit >= 1 && i < |run|
    ensures var own := OnlyKey(run, run[i].key, i + 1);
            own != [] && own[|own| - 1] == run[i] &&
            (MemoryAllows(run, limit, i) <==> MemoryAllows(own, limit, |own| - 1)) &&
            (RedisAllows(run, limit, i) <==> RedisAllows(own, limit, |own| - 1))
  {
    var key := run[i].key;
    var before := OnlyKey(run, key, i);
    var own := before + [run[i]];
    assert OnlyKey(run, key, i + 1) == own;
    CurrentOfOnlyKey(run, key, i);
    CurrentOfPrefix(before, [run[i]], key, |before|);
    WindowStep(run, i);
    WindowStep(own, |own| - 1);
    assert Rank(run, i) == Rank(own, |own| - 1);
    MemoryExact(run, limit, i);
    MemoryExact(own, limit, |own| - 1);
    RedisExact(run, limit, i);
    RedisExact(own, limit, |own| - 1);
  }

  /** The bucket and the counter that one call leaves under its key. */
  function BucketWritten(buckets: Buckets, key: string, limit: int, now: real): Bucket {
    if key !in buckets || now - buckets[key].windowStartedAt >= WINDOW_SECONDS then Bucket(now, 1)
    else if buckets[key].requestCount >= limit then buckets[key]
    else buckets[key].(requestCount := buckets[key].requestCount + 1)
  }

  function CounterWritten(counters: Counters, key: string, now: real): Counter {
    var count := if Live(counters, key, now) then counters[key].count + 1 else 1;
    Counter(count, if count == 1 then Some(now + WINDOW_SECONDS) else counters[key].expiresAt)
  }

  lemma MemoryWrites(buckets: Buckets, key: string, limit: int, now: real)
    ensures MemoryStep(buckets, key, limit, now).0 == buckets[key := BucketWritten(buckets, key, limit, now)]
  {
    if key in buckets {
      assert buckets[key := buckets[key]] == buckets;
    }
  }

  lemma RedisWrites(counters: Counters, key: string, limit: int, now: real)
    ensures RedisStep(counters, key, limit, now) ==
            (counters[key := CounterWritten(counters, key, now)], CounterWritten(counters, key, now).count <= limit)
  {
    var incremented := Incr(counters, key, now);
    if incremented[key].count == 1 {
      assert Expire(incremented, key, WINDOW_SECONDS, now) == counters[key := CounterWritten(counters, key, now)];
    } else {
      assert incremented == counters[key := CounterWritten(counters, key, now)];
    }
  }

  /** Calls on distinct keys commute: either order decides both alike and leaves the same store. */
  lemma MemoryCallsCommute(buckets: Buckets, j: string, k: string, limit: int, now: real)
    requires j != k
    ensures var (afterJ, jFirst) := MemoryStep(buckets, j, limit, now);
            var (afterK, kFirst) := MemoryStep(buckets, k, limit, now);
            MemoryStep(afterJ, k, limit, now) == (MemoryStep(afterK, j, limit, now).0, kFirst) &&
            MemoryStep(afterK, j, limit, now).1 == jFirst
  {
    var x, y := BucketWritten(buckets, j, limit, now), BucketWritten(buckets, k, limit, now);
    MemoryWrites(buckets, j, limit, now);
    MemoryWrites(buckets, k, limit, now);
    MemoryWrites(buckets[j := x], k, limit, now);
    MemoryWrites(buckets[k := y], j, limit, now);
    assert buckets[j := x][k := y] == buckets[k := y][j := x];
  }

  lemma RedisCallsCommute(counters: Counters, j: string, k: string, limit: int, now: real)
    requires j != k
    ensures var (afterJ, jFirst) := RedisStep(counters, j, limit, now);
            var (afterK, kFirst) := RedisStep(counters, k, limit, now);
            RedisStep(afterJ, k, limit, now) == (RedisStep(afterK, j, limit, now).0, kFirst) &&
            RedisStep(afterK, j, limit, now).1 == jFirst
  {
    var x, y := CounterWritten(counters, j, now), CounterWritten(counters, k, now);
    RedisWrites(counters, j, limit, now);
    RedisWrites(counters, k, limit, now);
    RedisWrites(counters[j := x], k, limit, now);
    RedisWrites(counters[k := y], j, limit, now);
    assert counters[j := x][k := y] == counters[k := y][j := x];
  }

  // ---------------------------------------------------------------- idle keys

  lemma WindowSpan(run: Run, p: nat)
    requires Ordered(run) && p < |run|
    ensures run[Opener(run, p)].at <= run[p].at < run[Opener(run, p)].at + 60.0
  {
  }

  lemma CurrentStart(run: Run, key: string, n: nat)
    requires n <= |run|
    ensures var p, window := LastCall(run, key, n), Current(run, key, n);
            (window.Some? <==> p >= 0) && (p >= 0 ==> window.value.start == run[Opener(run, p)].at)
  {
  }

  lemma ExpiryOf(counters: Counters, key: string, window: Option<Window>)
    requires key in counters && CounterHolds(counters, key, window)
    ensures window.Some? && counters[key].expiresAt == Some(window.value.start + WINDOW_SECONDS)
  {
  }

  /** No counter is permanent: after any run each one has an expiry, the one set by the call that
      opened its window. */
  lemma NoPermanentCounter(run: Run, limit: int, key: string, n: nat)
    requires n <= |run| && key in RedisAfter(run, limit, n)
    ensures var p := LastCall(run, key, n);
            p >= 0 && RedisAfter(run, limit, n)[key].expiresAt == Some(run[Opener(run, p)].at + 60.0)
  {
    RedisCoupling(run, limit, key, n);
    ExpiryOf(RedisAfter(run, limit, n), key, Current(run, key, n));
    CurrentStart(run, key, n);
  }

  /** And it expires after the last call, but at most a window length after it. */
  lemma ExpiresSoon(run: Run, limit: int, key: string, n: nat)
    requires Ordered(run) && n <= |run| && key in RedisAfter(run, limit, n)
    ensures var p, counter := LastCall(run, key, n), RedisAfter(run, limit, n)[key];
            p >= 0 && counter.expiresAt.Some? &&
            run[p].at < counter.expiresAt.value <= run[p].at + 60.0
  {
    NoPermanentCounter(run, limit, key, n);
    WindowSpan(run, LastCall(run, key, n));
  }

  /** A key idle for a window length is allowed next, by both limiters. */
  lemma IdleKeyAllowed(run: Run, limit: int, i: nat)
    requires Ordered(run) && limit >= 1 && i < |run|
    requires forall j :: 0 <= j < i && run[j].key == run[i].key ==> run[i].at - run[j].at >= 60.0
    ensures MemoryAllows(run, limit, i) && RedisAllows(run, limit, i)
  {
    MemoryExact(run, limit, i);
    RedisExact(run, limit, i);
    WindowStep(run, i);
  }

  // ---------------------------------------------------------------- sliding intervals

  /** The allowed calls of one key, among the first n, made at lo or later and before hi. */
  ghost function AllowedIn(run: Run, limit: int, key: string, lo: real, hi: real, n: nat): set<nat>
    requires n <= |run|
  {
    set i: nat | i < n && run[i].key == key && lo <= run[i].at < hi && Rank(run, i) <= limit
  }

  lemma AllowedInGrows(run: Run, limit: int, key: string, lo: real, hi: real, n: nat)
    requires n < |run|
    ensures |AllowedIn(run, limit, key, lo, hi, n + 1)| ==
            |AllowedIn(run, limit, key, lo, hi, n)| +
            if run[n].key == key && lo <= run[n].at < hi && Rank(run, n) <= limit then 1 else 0
  {
    var allowed := AllowedIn(run, limit, key, lo, hi, n);
    assert AllowedIn(run, limit, key, lo, hi, n + 1) ==
           if run[n].key == key && lo <= run[n].at < hi && Rank(run, n) <= limit then allowed + {n} else allowed;
  }

  /** How many calls the windows touched so far can account for: `full` windows before the current
      one, the first of them opened before lo (so that its opener is not counted) or not. */
  ghost predicate Accounted(window: Option<Window>, limit: int, lo: real, count: int, full: int, straddles: bool) {
    count > 0 ==>
      window.Some? && full >= 0 &&
      if straddles then
        window.value.start > lo - 60.0 + 60.0 * full as real &&
        count <= full * limit + Min(window.value.rank, limit) - 1
      else
        window.value.start >= lo + 60.0 * full as real &&
        count <= full * limit + Min(window.value.rank, limit)
  }

  /** One more call at lo or later. */
  lemma AccountStep(window: Option<Window>, limit: int, lo: real, now: real, count: int, full: int, straddles: bool)
    returns (full': int, straddles': bool)
    requires limit >= 1 && lo <= now && count >= 0
    requires Accounted(window, limit, lo, count, full, straddles)
    requires window.Some? ==> window.value.rank >= 1
    ensures var w := Advance(window, now);
            Accounted(Some(w), limit, lo, count + if w.rank <= limit then 1 else 0, full', straddles')
  {
    if count == 0 {
      full', straddles' := 0, Advance(window, now).start < lo;
    } else if now - window.value.start >= WINDOW_SECONDS {
      full', straddles' := full + 1, straddles;
      assert (full + 1) * limit == full * limit + limit;
    } else {
      full', straddles' := full, straddles;
    }
  }

  /** The accounting holds as long as no call has reached hi. */
  lemma {:induction false} AccountRun(run: Run, limit: int, key: string, lo: real, hi: real, n: nat)
    returns (full: int, straddles: bool)
    requires Ordered(run) && limit >= 1 && n <= |run|
    requires n > 0 ==> run[n - 1].at < hi
    ensures Accounted(Current(run, key, n), limit, lo, |AllowedIn(run, limit, key, lo, hi, n)|, full, straddles)
  {
    if n == 0 {
      full, straddles := 0, false;
    } else {
      full, straddles := AccountRun(run, limit, key, lo, hi, n - 1);
      AllowedInGrows(run, limit, key, lo, hi, n - 1);
      CurrentStep(run, key, n - 1);
      if run[n - 1].key == key && lo <= run[n - 1].at {
        WindowStep(run, n - 1);
        full, straddles := AccountStep(Current(run, key, n - 1), limit, lo, run[n - 1].at,
          |AllowedIn(run, limit, key, lo, hi, n - 1)|, full, straddles);
      } else if run[n - 1].at < lo {
        assert AllowedIn(run, limit, key, lo, hi, n) == {};
      }
    }
  }

  /** What an account can hold once its window started before hi. */
  lemma AccountBound(window: Option<Window>, limit: int, lo: real, hi: real, k: nat, count: int, full: int,
                     straddles: bool)
    requires limit >= 1 && hi - lo <= 60.0 * k as real
    requires Accounted(window, limit, lo, count, full, straddles)
    requires window.Some? ==> window.value.start < hi
    ensures count <= (k + 1) * limit - 1
  {
    if count > 0 {
      var windows := if straddles then full else full + 1;
      assert windows <= k;
      MulOrder(full, if straddles then k else k - 1, limit);
      assert (k - 1) * limit + limit == k * limit && (k + 1) * limit == k * limit + limit;
    } else {
      MulOrder(1, k + 1, limit);
    }
  }

  lemma MulOrder(a: int, b: int, c: int)
    requires a <= b && c >= 0
    ensures a * c <= b * c
  {
    assert (b - a) * c >= 0;
  }

  lemma {:induction false} AllowedInBound(run: Run, limit: int, key: string, lo: real, hi: real, k: nat, n: nat)
    requires Ordered(run) && limit >= 1 && n <= |run| && hi - lo <= 60.0 * k as real
    ensures |AllowedIn(run, limit, key, lo, hi, n)| <= (k + 1) * limit - 1
  {
    if n > 0 && run[n - 1].at >= hi {
      AllowedInBound(run, limit, key, lo, hi, k, n - 1);
      AllowedInGrows(run, limit, key, lo, hi, n - 1);
    } else {
      var full, straddles := AccountRun(run, limit, key, lo, hi, n);
      AccountBound(Current(run, key, n), limit, lo, hi, k, |AllowedIn(run, limit, key, lo, hi, n)|, full, straddles);
    }
  }

  ghost function MemoryAllowedIn(run: Run, limit: int, key: string, lo: real, hi: real): set<nat> {
    set i: nat | i < |run| && run[i].key == key && lo <= run[i].at < hi && MemoryAllows(run, limit, i)
  }

  ghost function RedisAllowedIn(run: Run, limit: int, key: string, lo: real, hi: real): set<nat> {
    set i: nat | i < |run| && run[i].key == key && lo <= run[i].at < hi && RedisAllows(run, limit, i)
  }

  lemma AllowedInMeaning(run: Run, limit: int, key: string, lo: real, hi: real)
    requires limit >= 1
    ensures MemoryAllowedIn(run, limit, key, lo, hi) == AllowedIn(run, limit, key, lo, hi, |run|)
    ensures RedisAllowedIn(run, limit, key, lo, hi) == AllowedIn(run, limit, key, lo, hi, |run|)
  {
    forall i: nat | i < |run|
      ensures MemoryAllows(run, limit, i) <==> Rank(run, i) <= limit
      ensures RedisAllows(run, limit, i) <==> Rank(run, i) <= limit
    {
      MemoryExact(run, limit, i);
      RedisExact(run, limit, i);
    }
  }

  /** Over every ordered run, any half-open interval of k windows' length contains at most
      (k + 1) * limit - 1 allowed calls of one key. */
  lemma SlidingBound(run: Run, limit: int, key: string, lo: real, hi: real, k: nat)
    requires Ordered(run) && limit >= 1 && hi - lo <= 60.0 * k as real
    ensures |set i: nat | i < |run| && run[i].key == key && lo <= run[i].at < hi && MemoryAllows(run, limit, i)|
            <= (k + 1) * limit - 1
    ensures |set i: nat | i < |run| && run[i].key == key && lo <= run[i].at < hi && RedisAllows(run, limit, i)|
            <= (k + 1) * limit - 1
  {
    AllowedInMeaning(run, limit, key, lo, hi);
    AllowedInBound(run, limit, key, lo, hi, k, |run|);
    assert MemoryAllowedIn(run, limit, key, lo, hi) ==
           set i: nat | i < |run| && run[i].key == key && lo <= run[i].at < hi && MemoryAllows(run, limit, i);
    assert RedisAllowedIn(run, limit, key, lo, hi) ==
           set i: nat | i < |run| && run[i].key == key && lo <= run[i].at < hi && RedisAllows(run, limit, i);
  }

  // ---------------------------------------------------------------- the bound is attained

  /** A call to open a window, a burst of limit - 1 just before it closes, then a burst of limit at
      every later minute. */
  function BurstTime(limit: nat, i: nat): real
    requires limit >= 1
  {
    if i == 0 then 0.0 else if i < limit then 59.0 else 60.0 * (i / limit) as real
  }

  function Burst(limit: nat, k: nat): (run: Run)
    requires limit >= 1
    ensures |run| == (k + 1) * limit
  {
    seq((k + 1) * limit, i requires 0 <= i => Call("", BurstTime(limit, i)))
  }

  lemma DivUnique(a: int, b: int, q: int, r: int)
    requires b > 0 && a == b * q + r && 0 <= r < b
    ensures a / b == q && a % b == r
  {
    var d := a / b - q;
    assert b * d == r - a % b;
    if d >= 1 {
      MulOrder(1, d, b);
    } else if d <= -1 {
      MulOrder(d, -1, b);
    }
  }

  lemma BlockStep(limit: nat, i: nat)
    requires limit >= 1 && i >= 1
    ensures if i % limit == 0 then (i - 1) / limit == i / limit - 1
            else (i - 1) / limit == i / limit && (i - 1) % limit == i % limit - 1
  {
    var q, r := i / limit, i % limit;
    if r == 0 {
      assert limit * (q - 1) == limit * q - limit;
      DivUnique(i - 1, limit, q - 1, limit - 1);
    } else {
      DivUnique(i - 1, limit, q, r - 1);
    }
  }

  /** The window and rank of the i-th call of a burst. */
  function BurstPlace(limit: nat, i: nat): Window
    requires limit >= 1
  {
    Window(60.0 * (i / limit) as real, i % limit + 1)
  }

  lemma BurstStep(limit: nat, i: nat)
    requires limit >= 1 && i >= 1
    ensures Advance(Some(BurstPlace(limit, i - 1)), BurstTime(limit, i)) == BurstPlace(limit, i)
  {
    BlockStep(limit, i);
    if i < limit {
      DivUnique(i, limit, 0, i);
    }
  }

  lemma {:induction false} BurstWindow(limit: nat, k: nat, run: Run, i: nat)
    requires limit >= 1 && run == Burst(limit, k) && i < |run|
    ensures Window(run[Opener(run, i)].at, Rank(run, i)) == BurstPlace(limit, i)
  {
    WindowStep(run, i);
    if i == 0 {
      DivUnique(0, limit, 0, 0);
    } else {
      BurstWindow(limit, k, run, i - 1);
      assert Current(run, "", i) == Some(BurstPlace(limit, i - 1));
      BurstStep(limit, i);
    }
  }

  lemma DivOrder(a: int, b: int, c: int)
    requires a <= b && c > 0
    ensures a / c <= b / c
  {
    if b / c + 1 <= a / c {
      MulOrder(b / c + 1, a / c, c);
    }
  }

  lemma BurstOrdered(limit: nat, i: nat, j: nat)
    requires limit >= 1 && i <= j
    ensures BurstTime(limit, i) <= BurstTime(limit, j)
    ensures j > 0 ==> 59.0 <= BurstTime(limit, j)
  {
    DivOrder(i, j, limit);
    if j >= limit {
      DivOrder(limit, j, limit);
      DivUnique(limit, limit, 1, 0);
    }
  }

  lemma BurstEnds(limit: nat, k: nat, i: nat)
    requires limit >= 1 && i < (k + 1) * limit
    ensures i / limit <= k
  {
    var last := (k + 1) * limit - 1;
    assert (k + 1) * limit == limit * k + limit;
    DivUnique(last, limit, k, limit - 1);
    DivOrder(i, last, limit);
  }

  /** Call i of the burst run: allowed, and, but for the first one, inside the interval. */
  lemma BurstCall(limit: nat, k: nat, i: nat)
    requires limit >= 1 && k >= 1 && i < (k + 1) * limit
    ensures Rank(Burst(limit, k), i) <= limit
    ensures 59.0 <= BurstTime(limit, i) < 59.0 + 60.0 * k as real <==> i > 0
  {
    BurstWindow(limit, k, Burst(limit, k), i);
    BurstOrdered(limit, i, i);
    BurstEnds(limit, k, i);
  }

  ghost predicate IsRange(s: set<nat>, n: nat) {
    forall i: nat :: i in s <==> 0 < i < n
  }

  lemma {:induction false} RangeSize(s: set<nat>, n: nat)
    requires IsRange(s, n) && n >= 1
    ensures |s| == n - 1
  {
    if n == 1 {
      assert s == {};
    } else {
      assert n - 1 in s;
      assert IsRange(s - {n - 1}, n - 1);
      RangeSize(s - {n - 1}, n - 1);
    }
  }

  /** The bound is sharp: for every limit and number of windows some ordered run attains it. */
  lemma SlidingBoundAttained(limit: nat, k: nat)
    requires limit >= 1 && k >= 1
    ensures var run, hi := Burst(limit, k), 59.0 + 60.0 * k as real;
            Ordered(run) && |MemoryAllowedIn(run, limit, "", 59.0, hi)| == (k + 1) * limit - 1 &&
            MemoryAllowedIn(run, limit, "", 59.0, hi) == RedisAllowedIn(run, limit, "", 59.0, hi)
  {
    var run, hi := Burst(limit, k), 59.0 + 60.0 * k as real;
    BurstRunOrdered(limit, k);
    AllowedInMeaning(run, limit, "", 59.0, hi);
    BurstAllowed(limit, k);
    RangeSize(AllowedIn(run, limit, "", 59.0, hi, |run|), |run|);
  }

  lemma BurstRunOrdered(limit: nat, k: nat)
    requires limit >= 1
    ensures Ordered(Burst(limit, k))
  {
    var run := Burst(limit, k);
    forall i, j | 0 <= i < j < |run| ensures run[i].at <= run[j].at {
      BurstOrdered(limit, i, j);
    }
  }

  lemma BurstAllowed(limit: nat, k: nat)
    requires limit >= 1 && k >= 1
    ensures var run := Burst(limit, k);
            IsRange(AllowedIn(run, limit, "", 59.0, 59.0 + 60.0 * k as real, |run|), |run|)
  {
    var allowed := AllowedIn(Burst(limit, k), limit, "", 59.0, 59.0 + 60.0 * k as real, (k + 1) * limit);
    forall i: nat ensures i in allowed <==> 0 < i < (k + 1) * limit {
      if i < (k + 1) * limit {
        BurstCall(limit, k, i);
      }
    }
  }
}
