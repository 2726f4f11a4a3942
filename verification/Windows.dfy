/** What the two limiters decide over whole timed runs, compared with one reference: the windows of
    the run. The reference mentions neither a store nor the limit. */
module Windows {
  import opened Wrappers
  import opened RateLimit

  datatype Call = Call(key: string, at: real)

  type Run = seq<Call>

  ghost predicate Ordered(run: Run) {
    forall i, j :: 0 <= i < j < |run| ==> run[i].at <= run[j].at
  }

  // ---------------------------------------------------------------- the limiters over a run

  /** The buckets after the first n calls of the run. */
  function MemoryAfter(run: Run, limit: int, n: nat): Buckets
    requires n <= |run|
  {
    if n == 0 then map[]
    else MemoryStep(MemoryAfter(run, limit, n - 1), run[n - 1].key, limit, run[n - 1].at).0
  }

  predicate MemoryAllows(run: Run, limit: int, i: nat)
    requires i < |run|
  {
    MemoryStep(MemoryAfter(run, limit, i), run[i].key, limit, run[i].at).1
  }

  /** The shared counters after the first n calls of the run, whichever workers made them. */
  function RedisAfter(run: Run, limit: int, n: nat): Counters
    requires n <= |run|
  {
    if n == 0 then map[]
    else RedisStep(RedisAfter(run, limit, n - 1), run[n - 1].key, limit, run[n - 1].at).0
  }

  predicate RedisAllows(run: Run, limit: int, i: nat)
    requires i < |run|
  {
    RedisStep(RedisAfter(run, limit, i), run[i].key, limit, run[i].at).1
  }

  // ---------------------------------------------------------------- the reference

  /** The last of the first n calls made with this key, or -1. */
  function LastCall(run: Run, key: string, n: nat): (p: int)
    requires n <= |run|
    ensures -1 <= p < n
    ensures p >= 0 ==> run[p].key == key
  {
    if n == 0 then -1
    else if run[n - 1].key == key then n - 1
    else LastCall(run, key, n - 1)
  }

  lemma {:induction false} NoCallsSince(run: Run, key: string, n: nat)
    requires n <= |run|
    ensures forall j :: LastCall(run, key, n) < j < n ==> run[j].key != key
  {
    if n == 0 {
    } else {
      NoCallsSince(run, key, n - 1);
    }
  }

  /** The call that opened the window call i falls in. */
  function Opener(run: Run, i: nat): (o: nat)
    requires i < |run|
    ensures o <= i && run[o].key == run[i].key
    ensures o == i || run[i].at - run[o].at < WINDOW_SECONDS
  {
    var p := LastCall(run, run[i].key, i);
    if p < 0 then i
    else
      var o := Opener(run, p);
      if run[i].at - run[o].at >= WINDOW_SECONDS then i else o
  }

  /** How many of the calls lo <= j < hi were made with this key. */
  function CallsWithKey(run: Run, key: string, lo: nat, hi: nat): (n: nat)
    requires lo <= hi <= |run|
    ensures n <= hi - lo
  {
    if lo == hi then 0
    else CallsWithKey(run, key, lo, hi - 1) + if run[hi - 1].key == key then 1 else 0
  }

  /** The position, from 1, of call i among the calls of its window. */
  function Rank(run: Run, i: nat): (r: nat)
    requires i < |run|
    ensures r >= 1
  {
    CallsWithKey(run, run[i].key, Opener(run, i), i + 1)
  }

  lemma {:induction false} NoCallsBetween(run: Run, key: string, lo: nat, hi: nat)
    requires lo <= hi <= |run|
    requires forall j :: lo <= j < hi ==> run[j].key != key
    ensures CallsWithKey(run, key, lo, hi) == 0
  {
    if lo == hi {
    } else {
      NoCallsBetween(run, key, lo, hi - 1);
    }
  }

  lemma {:induction false} CallsSplit(run: Run, key: string, lo: nat, mid: nat, hi: nat)
    requires lo <= mid <= hi <= |run|
    ensures CallsWithKey(run, key, lo, hi) == CallsWithKey(run, key, lo, mid) + CallsWithKey(run, key, mid, hi)
  {
    if mid == hi {
    } else {
      CallsSplit(run, key, lo, mid, hi - 1);
    }
  }

  /** A call opens a window when its key has none younger than a window length, and then has rank 1. */
  lemma OpenerStep(run: Run, i: nat)
    requires i < |run|
    ensures var p := LastCall(run, run[i].key, i);
            if p < 0 || run[i].at - run[Opener(run, p)].at >= 60.0
            then Opener(run, i) == i && Rank(run, i) == 1
            else Opener(run, i) == Opener(run, p)
  {
    if Opener(run, i) == i {
      var key := run[i].key;
      assert CallsWithKey(run, key, i, i) == 0;
    }
  }

  /** The calls of a key up to i, when p is the one before i. */
  lemma NextCall(run: Run, key: string, lo: nat, p: nat, i: nat)
    requires lo <= p < i < |run| && run[i].key == key
    requires forall j :: p < j < i ==> run[j].key != key
    ensures CallsWithKey(run, key, lo, i + 1) == CallsWithKey(run, key, lo, p + 1) + 1
  {
    CallsSplit(run, key, lo, p + 1, i);
    NoCallsBetween(run, key, p + 1, i);
  }

  // ---------------------------------------------------------------- exactness

  /** The window a key is in after some calls: when it started and how many calls it has seen. */
  datatype Window = Window(start: real, rank: int)

  function Advance(window: Option<Window>, now: real): Window {
    match window
    case None => Window(now, 1)
    case Some(w) => if now - w.start >= WINDOW_SECONDS then Window(now, 1) else Window(w.start, w.rank + 1)
  }

  /** The window of the last call made with this key. */
  function Current(run: Run, key: string, n: nat): (w: Option<Window>)
    requires n <= |run|
    ensures w.Some? ==> w.value.rank >= 1
  {
    var p := LastCall(run, key, n);
    if p < 0 then None else Some(Window(run[Opener(run, p)].at, Rank(run, p)))
  }

  /** The window of call i follows from the window its key was in. */
  lemma WindowStep(run: Run, i: nat)
    requires i < |run|
    ensures Window(run[Opener(run, i)].at, Rank(run, i)) == Advance(Current(run, run[i].key, i), run[i].at)
  {
    OpenerStep(run, i);
    if Opener(run, i) != i {
      NoCallsSince(run, run[i].key, i);
      NextCall(run, run[i].key, Opener(run, i), LastCall(run, run[i].key, i), i);
    }
  }

  /** A call moves only the window of its own key. */
  lemma CurrentStep(run: Run, key: string, i: nat)
    requires i < |run|
    ensures Current(run, key, i + 1)
         == if run[i].key == key then Some(Advance(Current(run, key, i), run[i].at)) else Current(run, key, i)
  {
    if run[i].key == key {
      WindowStep(run, i);
    }
  }

  function Min(a: int, b: int): int {
    if a < b then a else b
  }

  /** The memory bucket of a key holds the start of its window and the rank capped at the limit. */
  predicate BucketHolds(buckets: Buckets, key: string, limit: int, window: Option<Window>) {
    match window
    case None => key !in buckets
    case Some(w) => key in buckets && buckets[key] == Bucket(w.start, Min(w.rank, limit))
  }

  /** The Redis counter holds the uncapped rank, refused calls included, and expires one window
      after the start. */
  predicate CounterHolds(counters: Counters, key: string, window: Option<Window>) {
    match window
    case None => key !in counters
    case Some(w) => key in counters && counters[key] == Counter(w.rank, Some(w.start + WINDOW_SECONDS))
  }

  lemma MemoryCall(buckets: Buckets, key: string, limit: int, now: real, window: Option<Window>)
    requires limit >= 1 && BucketHolds(buckets, key, limit, window)
    requires window.Some? ==> window.value.rank >= 1
    ensures var w := Advance(window, now);
            MemoryStep(buckets, key, limit, now) ==
            (buckets[key := Bucket(w.start, Min(w.rank, limit))], w.rank <= limit)
  {
    if window.Some? && now - window.value.start < WINDOW_SECONDS && window.value.rank >= limit {
      assert buckets[key := buckets[key]] == buckets;
    }
  }

  lemma RedisCall(counters: Counters, key: string, limit: int, now: real, window: Option<Window>)
    requires CounterHolds(counters, key, window)
    requires window.Some? ==> window.value.rank >= 1
    ensures var w := Advance(window, now);
            RedisStep(counters, key, limit, now) ==
            (counters[key := Counter(w.rank, Some(w.start + WINDOW_SECONDS))], w.rank <= limit)
  {
    var incremented := Incr(counters, key, now);
    if !Live(counters, key, now) {
      assert Expire(incremented, key, WINDOW_SECONDS, now) == counters[key := Counter(1, Some(now + WINDOW_SECONDS))];
    }
  }

  lemma {:induction false} MemoryCoupling(run: Run, limit: int, key: string, n: nat)
    requires limit >= 1 && n <= |run|
    ensures BucketHolds(MemoryAfter(run, limit, n), key, limit, Current(run, key, n))
  {
    if n == 0 {
    } else {
      MemoryCoupling(run, limit, key, n - 1);
      CurrentStep(run, key, n - 1);
      if run[n - 1].key == key {
        MemoryCall(MemoryAfter(run, limit, n - 1), key, limit, run[n - 1].at, Current(run, key, n - 1));
      }
    }
  }

  lemma {:induction false} RedisCoupling(run: Run, limit: int, key: string, n: nat)
    requires n <= |run|
    ensures CounterHolds(RedisAfter(run, limit, n), key, Current(run, key, n))
  {
    if n == 0 {
    } else {
      var call := run[n - 1];
      RedisCoupling(run, limit, key, n - 1);
      CurrentStep(run, key, n - 1);
      if call.key == key {
        RedisCall(RedisAfter(run, limit, n - 1), key, limit, call.at, Current(run, key, n - 1));
      }
    }
  }

  /** The in-memory limiter allows exactly the first `limit` calls of every window. */
  lemma MemoryExact(run: Run, limit: int, i: nat)
    requires limit >= 1 && i < |run|
    ensures MemoryAllows(run, limit, i) <==> Rank(run, i) <= limit
  {
    var key := run[i].key;
    MemoryCoupling(run, limit, key, i);
    MemoryCall(MemoryAfter(run, limit, i), key, limit, run[i].at, Current(run, key, i));
    WindowStep(run, i);
  }

  /** So does the Redis limiter, for every limit. */
  lemma RedisExact(run: Run, limit: int, i: nat)
    requires i < |run|
    ensures RedisAllows(run, limit, i) <==> Rank(run, i) <= limit
  {
    var key := run[i].key;
    RedisCoupling(run, limit, key, i);
    RedisCall(RedisAfter(run, limit, i), key, limit, run[i].at, Current(run, key, i));
    WindowStep(run, i);
  }
}
