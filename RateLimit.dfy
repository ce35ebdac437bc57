/**
 * The worker's fixed-window rate limiter: a process-wide map from client
 * identifier to a counter and the time at which its window ends.
 */
module RateLimit {

  /** Window length in milliseconds. */
  const WindowMs: int := 60_000
  /** Requests allowed per client in one window. */
  const MaxRequests: int := 3

  /** One client's window: requests counted so far and the instant the window ends. */
  datatype Entry = Entry(count: int, resetAt: int)

  /** Every stored counter lies between 1 and the maximum. */
  predicate StoreValid(store: map<string, Entry>)
  {
    forall ip :: ip in store ==> 1 <= store[ip].count <= MaxRequests
  }

  /** The window of `ip` is still open at `now`: the test is `now > resetAt` to expire, so `now == resetAt` is inside. */
  predicate InWindow(store: map<string, Entry>, ip: string, now: int)
  {
    ip in store && now <= store[ip].resetAt
  }

  /** What one call of the limiter decides, and the store it leaves. */
  datatype Decision = Decision(allowed: bool, store: map<string, Entry>)

  /**
   * `allowRequest(ip)` at time `now`, on the store as a value: a missing or
   * expired entry is replaced by a fresh window holding one request; a full
   * window denies and changes nothing; otherwise the count goes up by one.
   */
  function Consult(store: map<string, Entry>, ip: string, now: int): (d: Decision)
    ensures StoreValid(store) ==> StoreValid(d.store)
    ensures d.store.Keys == store.Keys + {ip}
    ensures forall k :: k in store && k != ip ==> d.store[k] == store[k]
    ensures !d.allowed <==> InWindow(store, ip, now) && store[ip].count >= MaxRequests
    ensures !d.allowed ==> d.store == store
    ensures d.allowed && !InWindow(store, ip, now) ==> d.store[ip] == Entry(1, now + WindowMs)
    ensures d.allowed && InWindow(store, ip, now) ==>
              d.store[ip] == store[ip].(count := store[ip].count + 1)
  {
    if ip !in store || now > store[ip].resetAt then
      Decision(true, store[ip := Entry(1, now + WindowMs)])
    else if store[ip].count >= MaxRequests then
      Decision(false, store)
    else
      Decision(true, store[ip := store[ip].(count := store[ip].count + 1)])
  }

  /** The decisions for successive calls from `ip` at the given instants. */
  function Run(store: map<string, Entry>, ip: string, times: seq<int>): (r: seq<bool>)
    ensures |r| == |times|
    decreases |times|
  {
    if times == [] then []
    else
      var d := Consult(store, ip, times[0]);
      [d.allowed] + Run(d.store, ip, times[1..])
  }

  /** The store left after those calls. */
  function RunStore(store: map<string, Entry>, ip: string, times: seq<int>): (r: map<string, Entry>)
    decreases |times|
  {
    if times == [] then store
    else RunStore(Consult(store, ip, times[0]).store, ip, times[1..])
  }

  /** `n` allowances followed by denials, `len` answers in all. */
  function AllowedThenDenied(n: int, len: nat): (r: seq<bool>)
    ensures |r| == len
  {
    seq(len, k => k < n)
  }

  /**
   * Inside an open window that already counts `c` requests, further calls at
   * instants up to its end are allowed until the count reaches the maximum and
   * denied after that; the end of the window never moves.
   */
  lemma {:induction false} RunInWindow(store: map<string, Entry>, ip: string, times: seq<int>)
    requires StoreValid(store) && ip in store
    requires forall k :: 0 <= k < |times| ==> times[k] <= store[ip].resetAt
    ensures Run(store, ip, times) == AllowedThenDenied(MaxRequests - store[ip].count, |times|)
    ensures var s := RunStore(store, ip, times);
            ip in s && s[ip].resetAt == store[ip].resetAt &&
            s[ip].count == if store[ip].count + |times| < MaxRequests then store[ip].count + |times| else MaxRequests
  {
    if times != [] {
      var d := Consult(store, ip, times[0]);
      assert InWindow(store, ip, times[0]);
      RunInWindow(d.store, ip, times[1..]);
      var n := MaxRequests - store[ip].count;
      var r := Run(store, ip, times);
      var tail := AllowedThenDenied(MaxRequests - d.store[ip].count, |times| - 1);
      assert r == [d.allowed] + tail;
      forall k | 0 <= k < |times| ensures r[k] == (k < n) {
        if k > 0 { assert r[k] == tail[k - 1]; }
      }
    }
  }

  /**
   * A client with no entry, or whose window has expired, gets exactly three
   * allowances among its calls up to the end of the window the first call opens.
   */
  lemma FreshWindow(store: map<string, Entry>, ip: string, t0: int, later: seq<int>)
    requires StoreValid(store)
    requires !InWindow(store, ip, t0)
    requires forall k :: 0 <= k < |later| ==> later[k] <= t0 + WindowMs
    ensures Run(store, ip, [t0] + later) == AllowedThenDenied(MaxRequests, 1 + |later|)
  {
    var d := Consult(store, ip, t0);
    assert ([t0] + later)[1..] == later;
    RunInWindow(d.store, ip, later);
    var r := Run(store, ip, [t0] + later);
    var tail := AllowedThenDenied(MaxRequests - 1, |later|);
    assert r == [true] + tail;
    forall k | 0 <= k < |r| ensures r[k] == (k < MaxRequests) {
      if k > 0 { assert r[k] == tail[k - 1]; }
    }
  }

  /** Four calls inside one window: three allowed, the fourth denied. */
  lemma FourthCallDenied(store: map<string, Entry>, ip: string, t0: int, t1: int, t2: int, t3: int)
    requires StoreValid(store) && !InWindow(store, ip, t0)
    requires t1 <= t0 + WindowMs && t2 <= t0 + WindowMs && t3 <= t0 + WindowMs
    ensures Run(store, ip, [t0, t1, t2, t3]) == [true, true, true, false]
  {
    FreshWindow(store, ip, t0, [t1, t2, t3]);
    assert [t0] + [t1, t2, t3] == [t0, t1, t2, t3];
  }

  /** Call instants that never go back in time. */
  predicate NonDecreasing(times: seq<int>)
  {
    forall j, k :: 0 <= j <= k < |times| ==> times[j] <= times[k]
  }

  /**
   * No four calls fall within one closed span of `WindowMs`: a window holds
   * its end instant, since expiry is tested with `now > resetAt`.
   */
  predicate Spaced(times: seq<int>)
  {
    forall k :: 0 <= k && k + 3 < |times| ==> times[k] + WindowMs < times[k + 3]
  }

  /** Every call that would exceed the current window's allowance comes after that window ends. */
  predicate Room(store: map<string, Entry>, ip: string, times: seq<int>)
  {
    ip in store ==>
      forall k :: 0 <= k < |times| && store[ip].count + k >= MaxRequests ==> times[k] > store[ip].resetAt
  }

  /** The invariant behind `RollingWindowAllowed`, carried from one call to the next. */
  lemma {:induction false} SpacedAllowed(store: map<string, Entry>, ip: string, times: seq<int>)
    requires StoreValid(store) && NonDecreasing(times) && Spaced(times) && Room(store, ip, times)
    ensures forall k :: 0 <= k < |times| ==> Run(store, ip, times)[k]
    decreases |times|
  {
    if times != [] {
      var d := Consult(store, ip, times[0]);
      var tail := times[1..];
      assert NonDecreasing(tail) by {
        forall j, k | 0 <= j <= k < |tail| ensures tail[j] <= tail[k] { assert tail[j] == times[j + 1]; }
      }
      assert Spaced(tail) by {
        forall k | 0 <= k && k + 3 < |tail| ensures tail[k] + WindowMs < tail[k + 3] {
          assert tail[k] == times[k + 1] && tail[k + 3] == times[k + 4];
        }
      }
      assert d.allowed;
      assert Room(d.store, ip, tail) by {
        forall k | 0 <= k < |tail| && d.store[ip].count + k >= MaxRequests
          ensures tail[k] > d.store[ip].resetAt
        {
          assert tail[k] == times[k + 1];
          if !InWindow(store, ip, times[0]) {
            assert times[0] + WindowMs < times[3] <= times[k + 1];
          }
        }
      }
      SpacedAllowed(d.store, ip, tail);
      var r := Run(store, ip, times);
      assert r == [d.allowed] + Run(d.store, ip, tail);
      forall k | 0 <= k < |times| ensures r[k] {
        if k > 0 { assert r[k] == Run(d.store, ip, tail)[k - 1]; }
      }
    }
  }

  /**
   * A client whose calls never put four of them within one closed span of
   * `WindowMs` is never denied, starting from no entry or an expired one.
   */
  lemma RollingWindowAllowed(store: map<string, Entry>, ip: string, times: seq<int>)
    requires StoreValid(store) && NonDecreasing(times) && Spaced(times)
    requires times != [] ==> !InWindow(store, ip, times[0])
    ensures forall k :: 0 <= k < |times| ==> Run(store, ip, times)[k]
  {
    if times != [] {
      assert Room(store, ip, times) by {
        forall k | 0 <= k < |times| && ip in store ensures times[k] > store[ip].resetAt {
          assert times[0] <= times[k];
        }
      }
    }
    SpacedAllowed(store, ip, times);
  }

  /**
   * The window is closed at its end: a fourth call exactly `WindowMs` after
   * the first is still inside it and is denied.
   */
  lemma WindowEndInclusive()
    ensures Run(map[], "a", [0, 1, 2, WindowMs]) == [true, true, true, false]
  {
    FourthCallDenied(map[], "a", 0, 1, 2, WindowMs);
  }

  /** The limiter as the worker holds it: one mutable store shared by all requests. */
  class RateLimiter {
    var store: map<string, Entry>

    ghost predicate Valid()
      reads this
    {
      StoreValid(store)
    }

    constructor ()
      ensures Valid() && store == map[]
    {
      store := map[];
    }

    /** `allowRequest(ip)`, with the clock reading passed in as `now`. */
    method Allow(ip: string, now: int) returns (allowed: bool)
      requires Valid()
      modifies this
      ensures Valid()
      ensures Decision(allowed, store) == Consult(old(store), ip, now)
      ensures !old(InWindow(store, ip, now)) ==> allowed && store == old(store)[ip := Entry(1, now + WindowMs)]
      ensures old(InWindow(store, ip, now)) && old(store[ip].count) >= MaxRequests ==>
                !allowed && store == old(store)
      ensures old(InWindow(store, ip, now)) && old(store[ip].count) < MaxRequests ==>
                allowed && store == old(store)[ip := old(store[ip]).(count := old(store[ip].count) + 1)]
    {
      if ip !in store || now > store[ip].resetAt {
        store := store[ip := Entry(1, now + WindowMs)];
        return true;
      }
      var current := store[ip];
      if current.count >= MaxRequests {
        return false;
      }
      store := store[ip := current.(count := current.count + 1)];
      return true;
    }
  }
}
