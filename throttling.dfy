/**
 * `ThrottledPowermeter` of powermeter/throttling.py: a wrapper that
 * spaces the reads of a slow powermeter at least `interval` seconds
 * apart, sleeping when called early, and falls back to the last good
 * reading when a read fails.
 *
 * The clock is given as parameters: `now` is `time.time()` on entry and
 * `woke` is `time.time()` after the sleep. The wrapped meter's read is
 * its outcome `Fetched`. The lock makes a call atomic.
 */
module Throttling {
  import opened Base
  import opened Power

  /** `last_update_time` and `last_values`. */
  datatype Cache = Cache(lastUpdateTime: real, lastValues: Option<seq<Milli>>)

  /**
   * What one `get_powermeter_watts` call does: the new cache, what it
   * returns (`Failed`: it raises), how long it sleeps, and the clock
   * reading recorded for the fetch.
   */
  datatype Call = Call(cache: Cache, result: Fetched, slept: real, fetchedAt: real)

  /** The sleep before fetching: the rest of the interval when called early, else none. */
  function Wait(interval: real, elapsed: real): (w: real)
    ensures elapsed < interval ==> w == interval - elapsed && w > 0.0
    ensures elapsed >= interval ==> w == 0.0
  {
    if elapsed < interval then interval - elapsed else 0.0
  }

  /** One call of `get_powermeter_watts` on `cache`. */
  function GetWattsSpec(interval: real, cache: Cache, now: real, woke: real, backend: Fetched): Call
  {
    if interval <= 0.0 then
      (match backend
       case Watts(v) => Call(Cache(now, Some(v)), backend, 0.0, now)
       case Failed => Call(cache, Failed, 0.0, now))
    else
      var elapsed := now - cache.lastUpdateTime;
      var t := if elapsed < interval then woke else now;
      match backend
      case Watts(v) => Call(Cache(t, Some(v)), backend, Wait(interval, elapsed), t)
      case Failed =>
        Call(cache, if cache.lastValues.Some? then Watts(cache.lastValues.value) else Failed, Wait(interval, elapsed), t)
  }

  /**
   * Without throttling every call reads the meter and returns what it
   * gives, a failure included, caching a success; nothing sleeps.
   */
  lemma Unthrottled(interval: real, cache: Cache, now: real, woke: real, backend: Fetched)
    requires interval <= 0.0
    ensures var c := GetWattsSpec(interval, cache, now, woke, backend);
      && c.result == backend
      && c.slept == 0.0
      && (backend.Watts? ==> c.cache == Cache(now, Some(backend.values)))
      && (backend.Failed? ==> c.cache == cache)
  {
  }

  /**
   * With throttling: an early call sleeps exactly the rest of the
   * interval; a success is returned and cached with the post-sleep time;
   * a failure returns the cached reading, changing nothing, or raises
   * when there is none.
   */
  lemma Throttled(interval: real, cache: Cache, now: real, woke: real, backend: Fetched)
    requires interval > 0.0
    ensures var c := GetWattsSpec(interval, cache, now, woke, backend);
      var elapsed := now - cache.lastUpdateTime;
      && (elapsed < interval ==> c.slept == interval - elapsed && c.fetchedAt == woke)
      && (elapsed >= interval ==> c.slept == 0.0 && c.fetchedAt == now)
      && (backend.Watts? ==> c.result == backend && c.cache == Cache(c.fetchedAt, Some(backend.values)))
      && (backend.Failed? ==> c.cache == cache)
      && (backend.Failed? && cache.lastValues.Some? ==> c.result == Watts(cache.lastValues.value))
      && (backend.Failed? && cache.lastValues.None? ==> c.result == Failed)
  {
  }

  /**
   * When the sleep takes at least as long as asked, a successful throttled
   * read is recorded at least `interval` after the previous one.
   */
  lemma UpdatesSpaced(interval: real, cache: Cache, now: real, woke: real, backend: Fetched)
    requires interval > 0.0 && backend.Watts?
    requires woke >= now + Wait(interval, now - cache.lastUpdateTime)
    ensures GetWattsSpec(interval, cache, now, woke, backend).cache.lastUpdateTime >= cache.lastUpdateTime + interval
  {
  }

  /** One call's clock readings and the wrapped meter's outcome. */
  datatype Request = Request(now: real, woke: real, backend: Fetched)

  /** The sleep really lasts the wait asked of it. */
  predicate SleepsEnough(interval: real, cache: Cache, r: Request)
  {
    r.woke >= r.now + Wait(interval, r.now - cache.lastUpdateTime)
  }

  /** The cache after a sequence of calls. */
  function CacheAfter(interval: real, cache: Cache, rs: seq<Request>): Cache
    decreases |rs|
  {
    if rs == [] then cache
    else CacheAfter(interval, GetWattsSpec(interval, cache, rs[0].now, rs[0].woke, rs[0].backend).cache, rs[1..])
  }

  /** Every call in the sequence sleeps long enough. */
  predicate SleepsEnoughAll(interval: real, cache: Cache, rs: seq<Request>)
    decreases |rs|
  {
    rs == [] ||
      (SleepsEnough(interval, cache, rs[0]) &&
       SleepsEnoughAll(interval, GetWattsSpec(interval, cache, rs[0].now, rs[0].woke, rs[0].backend).cache, rs[1..]))
  }

  /** The number of successful reads in a sequence of calls. */
  function Successes(rs: seq<Request>): nat
    decreases |rs|
  {
    if rs == [] then 0 else (if rs[0].backend.Watts? then 1 else 0) + Successes(rs[1..])
  }

  /**
   * Over any sequence of calls, the recorded update time advances by at
   * least `interval` per successful read and never goes back: `n`
   * successful reads lie at least `n * interval` after the start.
   */
  lemma UpdateTimeAdvances(interval: real, cache: Cache, rs: seq<Request>)
    requires interval > 0.0
    requires SleepsEnoughAll(interval, cache, rs)
    ensures CacheAfter(interval, cache, rs).lastUpdateTime >= cache.lastUpdateTime + Successes(rs) as real * interval
  {
    AdvancesBySpan(interval, cache, rs);
    SpanIsProduct(Successes(rs), interval);
  }

  /** `n` intervals laid end to end. */
  function Span(n: nat, interval: real): real
  {
    if n == 0 then 0.0 else interval + Span(n - 1, interval)
  }

  lemma {:induction false} SpanIsProduct(n: nat, interval: real)
    ensures Span(n, interval) == n as real * interval
  {
    if n > 0 {
      SpanIsProduct(n - 1, interval);
    }
  }

  /** `UpdateTimeAdvances` with the product written as a sum of intervals. */
  lemma {:induction false} AdvancesBySpan(interval: real, cache: Cache, rs: seq<Request>)
    requires interval > 0.0
    requires SleepsEnoughAll(interval, cache, rs)
    ensures CacheAfter(interval, cache, rs).lastUpdateTime >= cache.lastUpdateTime + Span(Successes(rs), interval)
    decreases |rs|
  {
    if rs != [] {
      var next := GetWattsSpec(interval, cache, rs[0].now, rs[0].woke, rs[0].backend).cache;
      AdvancesBySpan(interval, next, rs[1..]);
      if rs[0].backend.Watts? {
        UpdatesSpaced(interval, cache, rs[0].now, rs[0].woke, rs[0].backend);
        assert Span(Successes(rs), interval) == interval + Span(Successes(rs[1..]), interval);
      } else {
        assert Successes(rs) == Successes(rs[1..]);
      }
    }
  }

  /** Once a read has succeeded, later failures never raise. */
  lemma {:induction false} CacheNeverEmptied(interval: real, cache: Cache, rs: seq<Request>)
    requires interval > 0.0 && cache.lastValues.Some?
    ensures CacheAfter(interval, cache, rs).lastValues.Some?
    ensures forall k :: 0 <= k < |rs| ==>
      GetWattsSpec(interval, CacheAfter(interval, cache, rs[..k]), rs[k].now, rs[k].woke, rs[k].backend).result.Watts?
    decreases |rs|
  {
    if rs != [] {
      var next := GetWattsSpec(interval, cache, rs[0].now, rs[0].woke, rs[0].backend).cache;
      CacheNeverEmptied(interval, next, rs[1..]);
      forall k | 0 <= k < |rs|
        ensures GetWattsSpec(interval, CacheAfter(interval, cache, rs[..k]), rs[k].now, rs[k].woke, rs[k].backend).result.Watts?
      {
        if k > 0 {
          assert rs[..k][1..] == rs[1..][..k - 1];
          assert rs[k] == rs[1..][k - 1];
        } else {
          assert rs[..0] == [];
        }
      }
    }
  }

  class ThrottledPowermeter {
    const interval: real
    var lastUpdateTime: real
    var lastValues: Option<seq<Milli>>

    function State(): Cache
      reads this
    {
      Cache(lastUpdateTime, lastValues)
    }

    constructor (interval: real := 0.0)
      ensures this.interval == interval
      ensures State() == Cache(0.0, None)
    {
      this.interval := interval;
      lastUpdateTime := 0.0;
      lastValues := None;
    }

    /** `get_powermeter_watts`: returns what it returns and how long it slept. */
    method GetPowermeterWatts(now: real, woke: real, backend: Fetched) returns (r: Fetched, slept: real)
      modifies this`lastUpdateTime, this`lastValues
      ensures var c := GetWattsSpec(interval, old(State()), now, woke, backend);
        r == c.result && slept == c.slept && State() == c.cache
    {
      var currentTime := now;
      slept := 0.0;
      if interval <= 0.0 {
        if backend.Failed? {
          return Failed, slept;
        }
        lastValues := Some(backend.values);
        lastUpdateTime := currentTime;
        return backend, slept;
      }
      var timeSinceLastUpdate := currentTime - lastUpdateTime;
      if timeSinceLastUpdate < interval {
        slept := interval - timeSinceLastUpdate;
        currentTime := woke;
      }
      if backend.Watts? {
        lastValues := Some(backend.values);
        lastUpdateTime := currentTime;
        return backend, slept;
      }
      if lastValues.Some? {
        return Watts(lastValues.value), slept;
      }
      r := Failed;
    }

    /** `wait_for_message`: the wrapped meter's answer for the same timeout, unthrottled. */
    method WaitForMessage<T>(wrapped: real -> T, timeout: real := 5.0) returns (r: T)
      ensures r == wrapped(timeout)
    {
      r := wrapped(timeout);
    }
  }
}
