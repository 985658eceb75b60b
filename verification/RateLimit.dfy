/** The sliding-window rate limiters: a process-local log of allowed requests, a Redis sorted set of all
    requests, and the middleware that falls back from one to the other. */
module RateLimit {
  import opened Common

  type Time = real

  /** A request as a limiter sees it: its key, the clock reading, the limiter instance and whether Redis answers. */
  datatype Request = Request(key: string, now: Time, instance: nat, up: bool)

  /** What a limiter returns. */
  datatype Answer = Answer(allowed: bool, remaining: int, reset: int)

  function Truncate(x: real): int {
    if x >= 0.0 then x.Floor else -((-x).Floor)
  }

  // ---- counting -------------------------------------------------------------

  /** The times after a cutoff, in order. */
  function Live(log: seq<Time>, cutoff: Time): seq<Time> {
    if log == [] then []
    else
      var n := |log| - 1;
      Live(log[..n], cutoff) + if log[n] > cutoff then [log[n]] else []
  }

  /** How many times lie in the window (lo, hi]. */
  function InWindow(times: seq<Time>, lo: Time, hi: Time): nat {
    if times == [] then 0
    else
      var n := |times| - 1;
      InWindow(times[..n], lo, hi) + if lo < times[n] <= hi then 1 else 0
  }

  lemma {:induction false} LiveOfLive(log: seq<Time>, c: Time, c': Time)
    requires c <= c'
    ensures Live(Live(log, c), c') == Live(log, c')
  {
    if log != [] {
      var n := |log| - 1;
      LiveOfLive(log[..n], c, c');
      var kept := Live(log[..n], c);
      if log[n] > c {
        assert (kept + [log[n]])[..|kept|] == kept;
      } else {
        assert kept + [] == kept;
      }
    }
  }

  lemma {:induction false} LiveCounts(log: seq<Time>, cutoff: Time, hi: Time)
    requires forall i :: 0 <= i < |log| ==> log[i] <= hi
    ensures |Live(log, cutoff)| == InWindow(log, cutoff, hi)
  {
    if log != [] {
      LiveCounts(log[..|log| - 1], cutoff, hi);
    }
  }

  lemma InWindowSnoc(times: seq<Time>, t: Time, lo: Time, hi: Time)
    ensures InWindow(times + [t], lo, hi) == InWindow(times, lo, hi) + if lo < t <= hi then 1 else 0
  {
    assert (times + [t])[..|times|] == times;
  }

  /** A window inside another holds no more. */
  lemma {:induction false} NarrowerWindow(times: seq<Time>, lo: Time, hi: Time, lo': Time, hi': Time)
    requires forall i :: 0 <= i < |times| && lo < times[i] <= hi ==> lo' < times[i] <= hi'
    ensures InWindow(times, lo, hi) <= InWindow(times, lo', hi')
  {
    if times != [] {
      NarrowerWindow(times[..|times| - 1], lo, hi, lo', hi');
    }
  }

  // ---- the local limiter ----------------------------------------------------

  type Store = map<string, seq<Time>>

  function LogOf(store: Store, key: string): seq<Time> {
    if key in store then store[key] else []
  }

  function Admits(log: seq<Time>, limit: int, window: real, now: Time): bool {
    |Live(log, now - window)| < limit
  }

  function StoreStep(store: Store, key: string, limit: int, window: real, now: Time): Store {
    var log := LogOf(store, key);
    store[key := Live(log, now - window) + if Admits(log, limit, window, now) then [now] else []]
  }

  function StoreRun(requests: seq<Request>, limit: int, window: real): Store {
    if requests == [] then map[]
    else
      var n := |requests| - 1;
      StoreStep(StoreRun(requests[..n], limit, window), requests[n].key, limit, window, requests[n].now)
  }

  class InMemoryRateLimiter {
    var store: Store

    constructor ()
      ensures store == map[]
    {
      store := map[];
    }

    /** Drop what has left the window, then admit the request if there is room. */
    method IsAllowed(key: string, limit: int, window: int, now: Time) returns (a: Answer)
      modifies this
      ensures store == StoreStep(old(store), key, limit, window as real, now)
      ensures a.allowed <==> Admits(LogOf(old(store), key), limit, window as real, now)
      ensures a.allowed ==> a.remaining == limit - |store[key]| && a.reset == Truncate(now + window as real)
      ensures !a.allowed ==> a.remaining == 0
                             && a.reset == Truncate((if store[key] != [] then store[key][0] else now) + window as real)
    {
      var timestamps := LogOf(store, key);
      var cutoff := now - window as real;
      var live: seq<Time> := [];
      for i := 0 to |timestamps|
        invariant live == Live(timestamps[..i], cutoff)
      {
        assert timestamps[..i + 1][..i] == timestamps[..i];
        if timestamps[i] > cutoff {
          live := live + [timestamps[i]];
        }
      }
      assert timestamps[..|timestamps|] == timestamps;
      store := store[key := live];
      var remaining := Max(0, limit - |live|);
      if |live| >= limit {
        assert live + [] == live;
        var reset := if live != [] then live[0] + window as real else now + window as real;
        return Answer(false, 0, Truncate(reset));
      }
      store := store[key := live + [now]];
      return Answer(true, remaining - 1, Truncate(now + window as real));
    }
  }

  // ---- the full-history rule ------------------------------------------------

  ghost predicate Ordered(requests: seq<Request>) {
    forall i, j :: 0 <= i < j < |requests| ==> requests[i].now <= requests[j].now
  }

  /** The allowed times of a key when nothing is ever forgotten: a request is allowed exactly when fewer than
      `limit` allowed requests of its key lie in the window that ends with it. */
  function AllowedTimes(requests: seq<Request>, key: string, limit: int, window: real): seq<Time> {
    if requests == [] then []
    else
      var n := |requests| - 1;
      var r := requests[n];
      var before := AllowedTimes(requests[..n], key, limit, window);
      if r.key == key && InWindow(before, r.now - window, r.now) < limit then before + [r.now] else before
  }

  /** The last time a key was asked about. */
  function LastAsked(requests: seq<Request>, key: string): Option<Time> {
    if requests == [] then None
    else
      var n := |requests| - 1;
      if requests[n].key == key then Some(requests[n].now) else LastAsked(requests[..n], key)
  }

  lemma {:induction false} TimesBounded(requests: seq<Request>, key: string, limit: int, window: real, hi: Time)
    requires forall i :: 0 <= i < |requests| ==> requests[i].now <= hi
    ensures forall i :: 0 <= i < |AllowedTimes(requests, key, limit, window)| ==> AllowedTimes(requests, key, limit, window)[i] <= hi
    ensures LastAsked(requests, key).Some? ==> LastAsked(requests, key).value <= hi
    ensures LastAsked(requests, key).None? ==> AllowedTimes(requests, key, limit, window) == []
  {
    if requests != [] {
      TimesBounded(requests[..|requests| - 1], key, limit, window, hi);
    }
  }

  lemma LiveSnoc(log: seq<Time>, t: Time, cutoff: Time)
    ensures Live(log + [t], cutoff) == Live(log, cutoff) + if t > cutoff then [t] else []
  {
    assert (log + [t])[..|log|] == log;
  }

  /** The local log and the full history agree on everything a later request can still see. */
  lemma {:induction false} LogIsRecentHistory(requests: seq<Request>, key: string, limit: int, window: real, cutoff: Time)
    requires Ordered(requests)
    requires LastAsked(requests, key).Some? ==> cutoff >= LastAsked(requests, key).value - window
    ensures Live(LogOf(StoreRun(requests, limit, window), key), cutoff) == Live(AllowedTimes(requests, key, limit, window), cutoff)
  {
    hide Live, InWindow;
    if requests != [] {
      var n := |requests| - 1;
      var now := requests[n].now;
      if requests[n].key == key {
        TimesBounded(requests[..n], key, limit, window, now);
        LogIsRecentHistory(requests[..n], key, limit, window, now - window);
        LogIsRecentHistory(requests[..n], key, limit, window, cutoff);
        var log := LogOf(StoreRun(requests[..n], limit, window), key);
        var history := AllowedTimes(requests[..n], key, limit, window);
        LiveCounts(history, now - window, now);
        LiveOfLive(log, now - window, cutoff);
        LiveSnoc(Live(log, now - window), now, cutoff);
        LiveSnoc(history, now, cutoff);
        assert Live(log, now - window) + [] == Live(log, now - window);
      } else {
        LogIsRecentHistory(requests[..n], key, limit, window, cutoff);
      }
    }
  }

  /** On every run with a clock that never goes back, the limiter decides as if it forgot nothing. */
  lemma LimiterRefinesHistory(requests: seq<Request>, key: string, limit: int, window: real, now: Time)
    requires Ordered(requests) && forall i :: 0 <= i < |requests| ==> requests[i].now <= now
    ensures Admits(LogOf(StoreRun(requests, limit, window), key), limit, window, now)
       <==> InWindow(AllowedTimes(requests, key, limit, window), now - window, now) < limit
  {
    TimesBounded(requests, key, limit, window, now);
    LogIsRecentHistory(requests, key, limit, window, now - window);
    LiveCounts(AllowedTimes(requests, key, limit, window), now - window, now);
  }

  /** So no window of that length ever holds more than `limit` allowed requests of a key. */
  lemma WindowBound(requests: seq<Request>, key: string, limit: int, window: real, hi: Time)
    requires Ordered(requests)
    ensures InWindow(AllowedTimes(requests, key, limit, window), hi - window, hi) <= Max(0, limit)
  {
    LimiterFollowsRule(requests, key, limit, window);
    OrderedRemembers(requests, key, limit, window);
    RememberedWindowBound(requests, key, limit, window, hi);
  }

  // ---- any clock ------------------------------------------------------------

  /** The allowed times of a key as the limiter itself decides them, on a clock that may go back. */
  function LogAllowed(requests: seq<Request>, key: string, limit: int, window: real): seq<Time> {
    if requests == [] then []
    else
      var n := |requests| - 1;
      var before := LogAllowed(requests[..n], key, limit, window);
      if requests[n].key == key && Admits(LogOf(StoreRun(requests[..n], limit, window), key), limit, window, requests[n].now)
      then before + [requests[n].now] else before
  }

  /** On a clock that never goes back the limiter allows exactly what the full-history rule allows. */
  lemma {:induction false} LimiterFollowsRule(requests: seq<Request>, key: string, limit: int, window: real)
    requires Ordered(requests)
    ensures LogAllowed(requests, key, limit, window) == AllowedTimes(requests, key, limit, window)
  {
    hide Admits, InWindow, StoreRun;
    if requests != [] {
      var n := |requests| - 1;
      LimiterFollowsRule(requests[..n], key, limit, window);
      LimiterRefinesHistory(requests[..n], key, limit, window, requests[n].now);
    }
  }

  ghost predicate Between(times: seq<Time>, lo: Time, hi: Time) {
    exists k :: 0 <= k < |times| && lo < times[k] <= hi
  }

  /** Some request of the key came when an allowed time after the cutoff was already out of that request's
      window, and so dropped it from the log. */
  ghost predicate Forgotten(requests: seq<Request>, key: string, limit: int, window: real, cutoff: Time) {
    exists i :: 0 <= i < |requests| && requests[i].key == key
      && Between(LogAllowed(requests[..i], key, limit, window), cutoff, requests[i].now - window)
  }

  lemma {:induction false} LiveBetween(times: seq<Time>, lo: Time, hi: Time)
    requires lo <= hi
    ensures |Live(times, hi)| <= |Live(times, lo)|
    ensures |Live(times, hi)| == |Live(times, lo)| <==> !Between(times, lo, hi)
  {
    if times != [] {
      var n := |times| - 1;
      LiveBetween(times[..n], lo, hi);
      assert Between(times, lo, hi) <==> Between(times[..n], lo, hi) || lo < times[n] <= hi by {
        if k :| 0 <= k < |times| && lo < times[k] <= hi {
          assert k < n ==> times[..n][k] == times[k];
        }
        if k :| 0 <= k < n && lo < times[..n][k] <= hi {
          assert times[k] == times[..n][k];
        }
      }
    }
  }

  lemma {:induction false} EarlierAllowed(requests: seq<Request>, i: nat, key: string, limit: int, window: real)
    requires i <= |requests|
    ensures LogAllowed(requests[..i], key, limit, window) <= LogAllowed(requests, key, limit, window)
    decreases |requests|
  {
    hide Admits, StoreRun;
    if i == |requests| {
      assert requests[..i] == requests;
    } else {
      var n := |requests| - 1;
      EarlierAllowed(requests[..n], i, key, limit, window);
      assert requests[..n][..i] == requests[..i];
    }
  }

  lemma ForgottenNext(requests: seq<Request>, key: string, limit: int, window: real, cutoff: Time)
    requires requests != []
    ensures var n := |requests| - 1;
            Forgotten(requests, key, limit, window, cutoff)
            <==> Forgotten(requests[..n], key, limit, window, cutoff)
                 || (requests[n].key == key
                     && Between(LogAllowed(requests[..n], key, limit, window), cutoff, requests[n].now - window))
  {
    hide LogAllowed, Between;
    var n := |requests| - 1;
    assert forall i :: 0 <= i < n ==> requests[..n][..i] == requests[..i] && requests[..n][i] == requests[i];
  }

  /** What was forgotten after one cutoff is forgotten after a lower one, and, when no allowed time lies between
      them, the other way round. */
  lemma ForgottenMoves(requests: seq<Request>, key: string, limit: int, window: real, lo: Time, hi: Time)
    requires lo <= hi && !Between(LogAllowed(requests, key, limit, window), lo, hi)
    ensures Forgotten(requests, key, limit, window, lo) <==> Forgotten(requests, key, limit, window, hi)
  {
    hide LogAllowed;
    forall i | 0 <= i < |requests|
      ensures Between(LogAllowed(requests[..i], key, limit, window), lo, requests[i].now - window)
         <==> Between(LogAllowed(requests[..i], key, limit, window), hi, requests[i].now - window)
    {
      EarlierAllowed(requests, i, key, limit, window);
      var early, all := LogAllowed(requests[..i], key, limit, window), LogAllowed(requests, key, limit, window);
      assert forall k :: 0 <= k < |early| ==> early[k] == all[k];
    }
  }

  /** On any clock: the log knows as many times after a cutoff as the whole history of allowed times has, if and
      only if none of them was forgotten; otherwise it knows fewer. */
  lemma {:induction false} LogKnowsIff(requests: seq<Request>, key: string, limit: int, window: real, cutoff: Time)
    ensures var known := |Live(LogOf(StoreRun(requests, limit, window), key), cutoff)|;
            var there := |Live(LogAllowed(requests, key, limit, window), cutoff)|;
            known <= there && (known == there <==> !Forgotten(requests, key, limit, window, cutoff))
  {
    hide Live, Between, Forgotten;
    if requests == [] {
      NothingForgotten(key, limit, window, cutoff);
    } else {
      var n := |requests| - 1;
      var now := requests[n].now;
      ForgottenNext(requests, key, limit, window, cutoff);
      if requests[n].key != key {
        LogKnowsIff(requests[..n], key, limit, window, cutoff);
      } else {
        var log, history := LogOf(StoreRun(requests[..n], limit, window), key), LogAllowed(requests[..n], key, limit, window);
        var low := if cutoff <= now - window then now - window else cutoff;
        LogKnowsIff(requests[..n], key, limit, window, low);
        LiveBetween(history, cutoff, low);
        LiveTwice(log, now - window, cutoff);
        LiveSnoc(Live(log, now - window), now, cutoff);
        LiveSnoc(history, now, cutoff);
        assert Live(log, now - window) + [] == Live(log, now - window);
        if !Between(history, cutoff, low) {
          ForgottenMoves(requests[..n], key, limit, window, cutoff, low);
        }
        if cutoff > now - window {
          EmptyBetween(history, cutoff, now - window);
          EmptyBetween(history, cutoff, cutoff);
        }
      }
    }
  }

  lemma NothingForgotten(key: string, limit: int, window: real, cutoff: Time)
    ensures !Forgotten([], key, limit, window, cutoff) && Live([], cutoff) == []
  {
  }

  lemma EmptyBetween(times: seq<Time>, lo: Time, hi: Time)
    requires hi <= lo
    ensures !Between(times, lo, hi)
  {
  }

  /** Keeping what is after one cutoff and then after another keeps what is after the higher. */
  lemma {:induction false} LiveTwice(log: seq<Time>, c: Time, c': Time)
    ensures Live(Live(log, c), c') == Live(log, if c <= c' then c' else c)
  {
    if c <= c' {
      LiveOfLive(log, c, c');
    } else if log != [] {
      var n := |log| - 1;
      LiveTwice(log[..n], c, c');
      var kept := Live(log[..n], c);
      if log[n] > c {
        assert (kept + [log[n]])[..|kept|] == kept;
      } else {
        assert kept + [] == kept;
      }
    }
  }

  lemma {:induction false} WindowIsLive(times: seq<Time>, lo: Time, hi: Time)
    ensures InWindow(times, lo, hi) <= |Live(times, lo)|
  {
    if times != [] {
      WindowIsLive(times[..|times| - 1], lo, hi);
    }
  }

  /** No request of the key came after an allowed time of its own window had been forgotten. */
  ghost predicate Remembers(requests: seq<Request>, key: string, limit: int, window: real) {
    forall i :: 0 <= i < |requests| && requests[i].key == key ==>
      !Forgotten(requests[..i], key, limit, window, requests[i].now - window)
  }

  /** On any clock, then: while nothing is forgotten, no window ever holds more than `limit` requests that the
      limiter allowed. */
  lemma {:induction false} RememberedWindowBound(requests: seq<Request>, key: string, limit: int, window: real, hi: Time)
    requires Remembers(requests, key, limit, window)
    ensures InWindow(LogAllowed(requests, key, limit, window), hi - window, hi) <= Max(0, limit)
  {
    hide Live, Forgotten, InWindow, StoreRun;
    if requests == [] {
      InWindowEmpty(hi - window, hi);
    } else {
      var n := |requests| - 1;
      var now := requests[n].now;
      var before := LogAllowed(requests[..n], key, limit, window);
      RemembersBefore(requests, key, limit, window);
      RememberedWindowBound(requests[..n], key, limit, window, hi);
      InWindowSnoc(before, now, hi - window, hi);
      if requests[n].key == key && hi - window < now <= hi {
        LogKnowsIff(requests[..n], key, limit, window, now - window);
        WindowIsLive(before, hi - window, hi);
        LiveBetween(before, now - window, hi - window);
      }
    }
  }

  lemma RemembersBefore(requests: seq<Request>, key: string, limit: int, window: real)
    requires Remembers(requests, key, limit, window) && requests != []
    ensures var n := |requests| - 1;
            Remembers(requests[..n], key, limit, window)
            && (requests[n].key == key ==> !Forgotten(requests[..n], key, limit, window, requests[n].now - window))
  {
    hide Forgotten;
    var n := |requests| - 1;
    forall i | 0 <= i < n
      ensures requests[..n][..i] == requests[..i] && requests[..n][i] == requests[i]
    {
    }
  }

  /** A clock that never goes back never makes the limiter forget. */
  lemma OrderedRemembers(requests: seq<Request>, key: string, limit: int, window: real)
    requires Ordered(requests)
    ensures Remembers(requests, key, limit, window)
  {
    hide LogAllowed;
  }

  lemma StoreRunNext(requests: seq<Request>, r: Request, limit: int, window: real)
    ensures StoreRun(requests + [r], limit, window) == StoreStep(StoreRun(requests, limit, window), r.key, limit, window, r.now)
  {
    assert (requests + [r])[..|requests|] == requests;
  }

  lemma LogAllowedNext(requests: seq<Request>, r: Request, key: string, limit: int, window: real)
    ensures LogAllowed(requests + [r], key, limit, window)
         == LogAllowed(requests, key, limit, window)
            + if r.key == key && Admits(LogOf(StoreRun(requests, limit, window), key), limit, window, r.now) then [r.now] else []
  {
    assert (requests + [r])[..|requests|] == requests;
    assert LogAllowed(requests, key, limit, window) + [] == LogAllowed(requests, key, limit, window);
  }

  function At(t: Time): Request {
    Request("k", t, 0, true)
  }

  /** One request of this key on a known log. */
  lemma OneAt(requests: seq<Request>, t: Time, log: seq<Time>, allowed: seq<Time>, live: seq<Time>)
    requires LogOf(StoreRun(requests, 2, 10.0), "k") == log && LogAllowed(requests, "k", 2, 10.0) == allowed
    requires Live(log, t - 10.0) == live && |live| < 2
    ensures LogOf(StoreRun(requests + [At(t)], 2, 10.0), "k") == live + [t]
    ensures LogAllowed(requests + [At(t)], "k", 2, 10.0) == allowed + [t]
  {
    hide Live;
    StoreRunNext(requests, At(t), 2, 10.0);
    LogAllowedNext(requests, At(t), "k", 2, 10.0);
  }

  /** A run with a clock that goes back: two requests a window, readings 0, 1, 20 and 5, and all four allowed,
      because the third drops the first two from the log; the window that ends at 5 holds three of them. */
  lemma BackwardClockOverruns()
    ensures var requests := [At(0.0), At(1.0), At(20.0), At(5.0)];
            && LogAllowed(requests, "k", 2, 10.0) == [0.0, 1.0, 20.0, 5.0]
            && InWindow(LogAllowed(requests, "k", 2, 10.0), 5.0 - 10.0, 5.0) == 3
  {
    hide Live, InWindow, StoreRun, LogAllowed;
    assert Live([], 0.0 - 10.0) == Live([], 1.0 - 10.0) == Live([], 10.0) == Live([], 5.0 - 10.0) == [] && InWindow([], -5.0, 5.0) == 0
           && LogOf(StoreRun([], 2, 10.0), "k") == [] == LogAllowed([], "k", 2, 10.0) by { Beginnings(); }
    LiveSnoc([], 0.0, 1.0 - 10.0);
    LiveSnoc([], 0.0, 20.0 - 10.0);
    LiveSnoc([0.0], 1.0, 20.0 - 10.0);
    LiveSnoc([], 20.0, 5.0 - 10.0);
    assert [] + [0.0] == [0.0] && [0.0] + [1.0] == [0.0, 1.0] && [] + [20.0] == [20.0];
    OneAt([], 0.0, [], [], []);
    assert [] + [At(0.0)] == [At(0.0)];
    OneAt([At(0.0)], 1.0, [0.0], [0.0], [0.0]);
    assert [At(0.0)] + [At(1.0)] == [At(0.0), At(1.0)];
    OneAt([At(0.0), At(1.0)], 20.0, [0.0, 1.0], [0.0, 1.0], []);
    assert [At(0.0), At(1.0)] + [At(20.0)] == [At(0.0), At(1.0), At(20.0)] && [0.0, 1.0] + [20.0] == [0.0, 1.0, 20.0];
    OneAt([At(0.0), At(1.0), At(20.0)], 5.0, [20.0], [0.0, 1.0, 20.0], [20.0]);
    var requests := [At(0.0), At(1.0), At(20.0), At(5.0)];
    assert [At(0.0), At(1.0), At(20.0)] + [At(5.0)] == requests && [0.0, 1.0, 20.0] + [5.0] == [0.0, 1.0, 20.0, 5.0];
    InWindowSnoc([], 0.0, -5.0, 5.0);
    InWindowSnoc([0.0], 1.0, -5.0, 5.0);
    InWindowSnoc([0.0, 1.0], 20.0, -5.0, 5.0);
    InWindowSnoc([0.0, 1.0, 20.0], 5.0, -5.0, 5.0);
  }

  lemma Beginnings()
    ensures forall c :: Live([], c) == []
    ensures InWindow([], -5.0, 5.0) == 0
    ensures LogOf(StoreRun([], 2, 10.0), "k") == [] == LogAllowed([], "k", 2, 10.0)
  {
  }

  // ---- the reset time -------------------------------------------------------

  ghost predicate Sorted(times: seq<Time>) {
    forall i, j :: 0 <= i < j < |times| ==> times[i] <= times[j]
  }

  lemma {:induction false} LiveSorted(log: seq<Time>, cutoff: Time, hi: Time)
    requires Sorted(log) && forall i :: 0 <= i < |log| ==> log[i] <= hi
    ensures var live := Live(log, cutoff); Sorted(live) && |live| <= |log| && forall i :: 0 <= i < |live| ==> live[i] <= hi
  {
    if log != [] {
      var n := |log| - 1;
      LiveSorted(log[..n], cutoff, log[n]);
    }
  }

  /** The log of a run is in time order and never longer than the limit. */
  lemma {:induction false} LogShape(requests: seq<Request>, key: string, limit: int, window: real, hi: Time)
    requires Ordered(requests) && forall i :: 0 <= i < |requests| ==> requests[i].now <= hi
    ensures var log := LogOf(StoreRun(requests, limit, window), key);
            Sorted(log) && |log| <= Max(0, limit) && forall i :: 0 <= i < |log| ==> log[i] <= hi
  {
    hide Live, Sorted, Admits;
    if requests == [] {
      assert Sorted([]) by { NothingSorted(); }
    } else {
      var n := |requests| - 1;
      var now := requests[n].now;
      var log := LogOf(StoreRun(requests[..n], limit, window), key);
      LogShape(requests[..n], key, limit, window, now);
      NextLogShape(log, limit, window, now);
    }
  }

  lemma NextLogShape(log: seq<Time>, limit: int, window: real, now: Time)
    requires Sorted(log) && |log| <= Max(0, limit) && forall i :: 0 <= i < |log| ==> log[i] <= now
    ensures var next := Live(log, now - window) + if Admits(log, limit, window, now) then [now] else [];
            Sorted(next) && |next| <= Max(0, limit) && forall i :: 0 <= i < |next| ==> next[i] <= now
  {
    hide Live, Sorted;
    LiveSorted(log, now - window, now);
    SortedNext(Live(log, now - window), now);
  }

  lemma NothingSorted()
    ensures Sorted([])
  {
  }

  lemma SortedNext(times: seq<Time>, now: Time)
    requires Sorted(times) && forall i :: 0 <= i < |times| ==> times[i] <= now
    ensures Sorted(times + [now]) && Sorted(times + [])
  {
    assert times + [] == times;
  }

  /** After a refusal on a run whose clock never goes back, the key's next request is admitted if and only if the
      oldest logged time has left the window: the reset that is reported is exact before it is truncated. */
  lemma ResetIsExact(requests: seq<Request>, r: Request, limit: int, window: real, later: Time)
    requires Ordered(requests + [r]) && limit >= 1
    requires !Admits(LogOf(StoreRun(requests, limit, window), r.key), limit, window, r.now)
    ensures var log := LogOf(StoreRun(requests + [r], limit, window), r.key);
            log != [] && (Admits(log, limit, window, later) <==> later >= log[0] + window)
  {
    hide Live, StoreRun, Sorted;
    var log := LogOf(StoreRun(requests + [r], limit, window), r.key);
    var before := LogOf(StoreRun(requests, limit, window), r.key);
    StoreRunNext(requests, r, limit, window);
    assert log == Live(before, r.now - window) + [];
    OrderedEnd(requests, r);
    LogShape(requests + [r], r.key, limit, window, r.now);
    FullLogReset(log, limit, window, later);
  }

  lemma OrderedEnd(requests: seq<Request>, r: Request)
    requires Ordered(requests + [r])
    ensures forall i :: 0 <= i < |requests + [r]| ==> (requests + [r])[i].now <= r.now
  {
    assert (requests + [r])[|requests|] == r;
  }

  lemma FullLogReset(log: seq<Time>, limit: int, window: real, later: Time)
    requires Sorted(log) && log != [] && |log| == limit
    ensures Admits(log, limit, window, later) <==> later >= log[0] + window
  {
    hide Live;
    LiveAll(log, later - window);
  }

  lemma {:induction false} LiveAll(log: seq<Time>, cutoff: Time)
    ensures |Live(log, cutoff)| <= |log|
    ensures |Live(log, cutoff)| == |log| <==> forall i :: 0 <= i < |log| ==> log[i] > cutoff
  {
    if log != [] {
      LiveAll(log[..|log| - 1], cutoff);
    }
  }

  // ---- the Redis limiter ----------------------------------------------------

  /** A member of the sorted set: the text of a member is the clock reading and the limiter instance, its score
      the clock reading. */
  datatype Member = Member(score: Time, instance: nat)

  /** The sorted set of a key, and when Redis drops the key. */
  datatype Entry = Entry(members: seq<Member>, expiresAt: Time)

  type Zset = map<string, Entry>

  /** The members Redis still has for a key at a time. */
  function Present(z: Zset, key: string, now: Time): seq<Member> {
    if key in z && now < z[key].expiresAt then z[key].members else []
  }

  /** Adding a member that is there already only sets its score, which is the same. */
  function ZAdd(members: seq<Member>, m: Member): seq<Member> {
    if m in members then members else members + [m]
  }

  function ZRemRange(members: seq<Member>, lo: Time, hi: Time): seq<Member> {
    if members == [] then []
    else
      var n := |members| - 1;
      ZRemRange(members[..n], lo, hi) + if lo <= members[n].score <= hi then [] else [members[n]]
  }

  function ZsetStep(z: Zset, r: Request, window: real): Zset {
    var members := ZRemRange(ZAdd(Present(z, r.key, r.now), Member(r.now, r.instance)), 0.0, r.now - window);
    z[r.key := Entry(members, r.now + window + 1.0)]
  }

  function RedisAdmits(z: Zset, r: Request, limit: int, window: real): bool {
    |ZsetStep(z, r, window)[r.key].members| < limit
  }

  /** What all limiters that talk to one Redis share. */
  class RedisServer {
    var zset: Zset

    constructor ()
      ensures zset == map[]
    {
      zset := map[];
    }
  }

  class RedisRateLimiter {
    const server: RedisServer
    const failOpen: bool
    const instance: nat
    var available: bool

    constructor (server: RedisServer, failOpen: bool, instance: nat)
      ensures this.server == server && this.failOpen == failOpen && this.instance == instance && available
    {
      this.server, this.failOpen, this.instance, available := server, failOpen, instance, true;
    }

    /** Add the request, trim the set, count it, renew its expiry.  When Redis does not answer, nothing is
        recorded and the configured verdict is returned. */
    method IsAllowed(key: string, limit: int, window: int, now: Time, up: bool) returns (a: Answer)
      modifies this`available, server
      ensures available == up
      ensures a.reset == Truncate(now + window as real)
      ensures !up ==> server.zset == old(server.zset) && a.allowed == failOpen && a.remaining == (if failOpen then limit - 1 else 0)
      ensures up ==> server.zset == ZsetStep(old(server.zset), Request(key, now, instance, up), window as real)
                     && (a.allowed <==> RedisAdmits(old(server.zset), Request(key, now, instance, up), limit, window as real))
                     && a.remaining == (if a.allowed then limit - |server.zset[key].members| - 1 else 0)
    {
      if !up {
        available := false;
        if failOpen {
          return Answer(true, limit - 1, Truncate(now + window as real));
        }
        return Answer(false, 0, Truncate(now + window as real));
      }
      var members := Present(server.zset, key, now);
      members := ZAdd(members, Member(now, instance));
      members := ZRemRange(members, 0.0, now - window as real);
      var count := |members|;
      server.zset := server.zset[key := Entry(members, now + (window + 1) as real)];
      available := true;
      var remaining := Max(0, limit - count);
      if count >= limit {
        return Answer(false, 0, Truncate(now + window as real));
      }
      return Answer(true, remaining - 1, Truncate(now + window as real));
    }
  }

  function ZsetRun(requests: seq<Request>, window: real): Zset {
    if requests == [] then map[]
    else
      var n := |requests| - 1;
      ZsetStep(ZsetRun(requests[..n], window), requests[n], window)
  }

  /** The times of all requests of a key, allowed or not. */
  function AskedTimes(requests: seq<Request>, key: string): seq<Time> {
    if requests == [] then []
    else
      var n := |requests| - 1;
      var before := AskedTimes(requests[..n], key);
      if requests[n].key == key then before + [requests[n].now] else before
  }

  /** The times of the requests of a key that the Redis limiter allows. */
  function RedisAllowed(requests: seq<Request>, key: string, limit: int, window: real): seq<Time> {
    if requests == [] then []
    else
      var n := |requests| - 1;
      var before := RedisAllowed(requests[..n], key, limit, window);
      if requests[n].key == key && RedisAdmits(ZsetRun(requests[..n], window), requests[n], limit, window)
      then before + [requests[n].now] else before
  }

  /** A later request: no earlier on the clock, and not the same member of the same key. */
  predicate Follows(a: Request, b: Request) {
    a.now <= b.now && !(a.key == b.key && a.now == b.now && a.instance == b.instance)
  }

  /** A clock that never goes back and never gives one instance the same reading twice for a key. */
  ghost predicate Ticking(requests: seq<Request>) {
    && (forall i :: 0 <= i < |requests| ==> requests[i].now >= 0.0)
    && (forall i, j :: 0 <= i < j < |requests| ==> Follows(requests[i], requests[j]))
  }

  lemma TickingIsOrdered(requests: seq<Request>)
    requires Ticking(requests)
    ensures Ordered(requests)
  {
  }

  function Scores(members: seq<Member>): seq<Time> {
    seq(|members|, i requires 0 <= i < |members| => members[i].score)
  }

  lemma ScoresSnoc(members: seq<Member>, m: Member)
    ensures Scores(members + [m]) == Scores(members) + [m.score]
  {
  }

  ghost predicate ScoresWithin(members: seq<Member>, hi: Time) {
    forall i :: 0 <= i < |members| ==> 0.0 <= members[i].score <= hi
  }

  /** Trimming a set of nonnegative scores keeps exactly the live ones. */
  lemma {:induction false} TrimIsLive(members: seq<Member>, cutoff: Time, hi: Time)
    requires ScoresWithin(members, hi)
    ensures Scores(ZRemRange(members, 0.0, cutoff)) == Live(Scores(members), cutoff)
    ensures ScoresWithin(ZRemRange(members, 0.0, cutoff), hi)
  {
    if members != [] {
      var n := |members| - 1;
      TrimIsLive(members[..n], cutoff, hi);
      assert members == members[..n] + [members[n]];
      ScoresSnoc(members[..n], members[n]);
      LiveSnoc(Scores(members[..n]), members[n].score, cutoff);
      ScoresSnoc(ZRemRange(members[..n], 0.0, cutoff), members[n]);
      assert ZRemRange(members[..n], 0.0, cutoff) + [] == ZRemRange(members[..n], 0.0, cutoff);
      assert Live(Scores(members[..n]), cutoff) + [] == Live(Scores(members[..n]), cutoff);
    }
  }

  ghost predicate TimesWithin(times: seq<Time>, hi: Time) {
    forall i :: 0 <= i < |times| ==> 0.0 <= times[i] <= hi
  }

  lemma {:induction false} AskedBounded(requests: seq<Request>, key: string, hi: Time)
    requires Ticking(requests) && forall i :: 0 <= i < |requests| ==> requests[i].now <= hi
    ensures LastAsked(requests, key).Some? ==>
              0.0 <= LastAsked(requests, key).value <= hi && TimesWithin(AskedTimes(requests, key), LastAsked(requests, key).value)
    ensures LastAsked(requests, key).None? ==> AskedTimes(requests, key) == []
  {
    if requests != [] {
      var n := |requests| - 1;
      AskedBounded(requests[..n], key, if requests[n].key == key then requests[n].now else hi);
    }
  }

  lemma {:induction false} NoneLive(log: seq<Time>, cutoff: Time)
    requires forall i :: 0 <= i < |log| ==> log[i] <= cutoff
    ensures Live(log, cutoff) == []
  {
    if log != [] {
      NoneLive(log[..|log| - 1], cutoff);
    }
  }

  /** What a key's entry holds when `asked` are the times of its requests and `last` the latest. */
  ghost predicate HoldsRecent(z: Zset, key: string, window: real, asked: seq<Time>, last: Option<Time>) {
    if last.None? then key !in z && asked == []
    else
      && key in z && z[key].expiresAt == last.value + window + 1.0
      && Scores(z[key].members) == Live(asked, last.value - window)
      && ScoresWithin(z[key].members, last.value)
      && TimesWithin(asked, last.value)
  }

  /** What Redis still has is every time that a later request can see. */
  lemma PresentIsRecent(z: Zset, key: string, window: real, asked: seq<Time>, last: Option<Time>, now: Time)
    requires HoldsRecent(z, key, window, asked, last)
    requires last.Some? ==> last.value <= now
    ensures Live(Scores(Present(z, key, now)), now - window) == Live(asked, now - window)
    ensures last.Some? ==> ScoresWithin(Present(z, key, now), last.value)
    ensures last.None? ==> Present(z, key, now) == []
  {
    if last.Some? {
      if now < z[key].expiresAt {
        LiveOfLive(asked, last.value - window, now - window);
      } else {
        NoneLive(asked, now - window);
      }
    }
  }

  /** One request keeps that: neither trimming nor the key's expiry drops a time still inside the window. */
  lemma ZsetStepRecent(z: Zset, r: Request, window: real, asked: seq<Time>, last: Option<Time>)
    requires HoldsRecent(z, r.key, window, asked, last)
    requires 0.0 <= r.now && (last.Some? ==> last.value <= r.now)
    requires Member(r.now, r.instance) !in Present(z, r.key, r.now)
    ensures HoldsRecent(ZsetStep(z, r, window), r.key, window, asked + [r.now], Some(r.now))
  {
    hide Live, ZRemRange, InWindow;
    var present := Present(z, r.key, r.now);
    var m := Member(r.now, r.instance);
    var cutoff := r.now - window;
    PresentIsRecent(z, r.key, window, asked, last, r.now);
    assert ScoresWithin(present + [m], r.now);
    ScoresSnoc(present, m);
    TrimIsLive(present + [m], cutoff, r.now);
    LiveSnoc(Scores(present), r.now, cutoff);
    LiveSnoc(asked, r.now, cutoff);
  }

  /** On a run whose clock never goes back nor repeats itself for an instance the sorted set of a key is exactly the times of its requests,
      allowed or not, that were in the window when it was last asked about. */
  lemma {:induction false} ZsetIsRecentHistory(requests: seq<Request>, key: string, window: real)
    requires Ticking(requests)
    ensures HoldsRecent(ZsetRun(requests, window), key, window, AskedTimes(requests, key), LastAsked(requests, key))
  {
    if requests != [] {
      var n := |requests| - 1;
      var r := requests[n];
      var z := ZsetRun(requests[..n], window);
      ZsetIsRecentHistory(requests[..n], key, window);
      if r.key == key {
        LastBefore(requests, key);
        NewMember(requests, window);
        ZsetStepRecent(z, r, window, AskedTimes(requests[..n], key), LastAsked(requests[..n], key));
      } else {
        OtherKeyUntouched(z, r, window, key, AskedTimes(requests[..n], key), LastAsked(requests[..n], key));
      }
    }
  }

  /** Every member stands for a request of its key. */
  ghost predicate FromRequests(members: seq<Member>, requests: seq<Request>, key: string) {
    forall k :: 0 <= k < |members| ==> IsAsked(members[k], requests, key)
  }

  ghost predicate IsAsked(m: Member, requests: seq<Request>, key: string) {
    exists j :: 0 <= j < |requests| && requests[j].key == key && requests[j].now == m.score && requests[j].instance == m.instance
  }

  lemma {:induction false} TrimKeepsSource(members: seq<Member>, lo: Time, hi: Time, requests: seq<Request>, key: string)
    requires FromRequests(members, requests, key)
    ensures FromRequests(ZRemRange(members, lo, hi), requests, key)
  {
    hide IsAsked;
    if members != [] {
      TrimKeepsSource(members[..|members| - 1], lo, hi, requests, key);
    }
  }

  lemma MoreRequests(members: seq<Member>, requests: seq<Request>, r: Request, key: string)
    requires FromRequests(members, requests, key)
    ensures FromRequests(members, requests + [r], key)
    ensures IsAsked(Member(r.now, r.instance), requests + [r], r.key)
  {
    forall k | 0 <= k < |members|
      ensures IsAsked(members[k], requests + [r], key)
    {
      assert IsAsked(members[k], requests, key);
      var j :| 0 <= j < |requests| && requests[j].key == key && requests[j].now == members[k].score
               && requests[j].instance == members[k].instance;
      assert (requests + [r])[j] == requests[j];
    }
    assert (requests + [r])[|requests|] == r;
  }

  lemma {:induction false} MembersAreAsked(requests: seq<Request>, key: string, window: real)
    ensures key in ZsetRun(requests, window) ==> FromRequests(ZsetRun(requests, window)[key].members, requests, key)
  {
    hide IsAsked, ZRemRange;
    if requests != [] {
      var n := |requests| - 1;
      var r := requests[n];
      var z := ZsetRun(requests[..n], window);
      MembersAreAsked(requests[..n], key, window);
      assert requests[..n] + [r] == requests;
      if r.key == key {
        var present := Present(z, key, r.now);
        assert FromRequests(present, requests[..n], key);
        MoreRequests(present, requests[..n], r, key);
        TrimKeepsSource(ZAdd(present, Member(r.now, r.instance)), 0.0, r.now - window, requests, key);
      } else if key in z {
        MoreRequests(z[key].members, requests[..n], r, key);
      }
    }
  }

  /** On such a clock a request is never a member already. */
  lemma NewMember(requests: seq<Request>, window: real)
    requires Ticking(requests) && requests != []
    ensures var r := requests[|requests| - 1];
            Member(r.now, r.instance) !in Present(ZsetRun(requests[..|requests| - 1], window), r.key, r.now)
  {
    hide ZsetRun;
    var n := |requests| - 1;
    var r := requests[n];
    MembersAreAsked(requests[..n], r.key, window);
    var present := Present(ZsetRun(requests[..n], window), r.key, r.now);
    forall k | 0 <= k < |present|
      ensures present[k] != Member(r.now, r.instance)
    {
      assert IsAsked(present[k], requests[..n], r.key);
      var j :| 0 <= j < n && requests[..n][j].key == r.key && requests[..n][j].now == present[k].score
               && requests[..n][j].instance == present[k].instance;
      assert Follows(requests[j], requests[n]);
    }
  }

  lemma LastBefore(requests: seq<Request>, key: string)
    requires Ticking(requests) && requests != []
    ensures var before := LastAsked(requests[..|requests| - 1], key);
            before.Some? ==> before.value <= requests[|requests| - 1].now
  {
    assert forall i :: 0 <= i < |requests| - 1 ==> Follows(requests[i], requests[|requests| - 1]);
    AskedBounded(requests[..|requests| - 1], key, requests[|requests| - 1].now);
  }

  lemma OtherKeyUntouched(z: Zset, r: Request, window: real, key: string, asked: seq<Time>, last: Option<Time>)
    requires key != r.key && HoldsRecent(z, key, window, asked, last)
    ensures HoldsRecent(ZsetStep(z, r, window), key, window, asked, last)
  {
    hide Live, ZRemRange;
  }

  /** Redis allows a request exactly when the requests of its key in the window that ends with it, refused ones
      and itself included, are fewer than the limit. */
  lemma RedisCountsEverything(requests: seq<Request>, r: Request, limit: int, window: real)
    requires Ticking(requests + [r])
    ensures RedisAdmits(ZsetRun(requests, window), r, limit, window)
       <==> InWindow(AskedTimes(requests, r.key) + [r.now], r.now - window, r.now) < limit
  {
    hide Live, ZRemRange, InWindow, ZsetStep;
    var all := requests + [r];
    assert all[..|requests|] == requests && all[|requests|] == r;
    ZsetIsRecentHistory(all, r.key, window);
    AllBefore(all);
    AskedBounded(all, r.key, r.now);
    LiveCounts(AskedTimes(all, r.key), r.now - window, r.now);
    var z := ZsetStep(ZsetRun(requests, window), r, window);
    assert ZsetRun(all, window) == z;
    assert |Scores(z[r.key].members)| == |z[r.key].members|;
  }

  lemma AllBefore(requests: seq<Request>)
    requires Ticking(requests) && requests != []
    ensures forall i :: 0 <= i < |requests| ==> requests[i].now <= requests[|requests| - 1].now
  {
    assert forall i :: 0 <= i < |requests| - 1 ==> Follows(requests[i], requests[|requests| - 1]);
  }

  lemma AskedLast(requests: seq<Request>, key: string)
    requires requests != []
    ensures var n := |requests| - 1;
            AskedTimes(requests, key)
            == if requests[n].key == key then AskedTimes(requests[..n], key) + [requests[n].now] else AskedTimes(requests[..n], key)
  {
  }

  /** The last request of a run, with Redis's verdict read off the run's requests alone. */
  lemma RedisAllowedLast(requests: seq<Request>, key: string, limit: int, window: real)
    requires Ticking(requests) && requests != []
    ensures var n := |requests| - 1;
            var r := requests[n];
            var before := RedisAllowed(requests[..n], key, limit, window);
            RedisAllowed(requests, key, limit, window)
            == if r.key == key && InWindow(AskedTimes(requests, key), r.now - window, r.now) < limit
               then before + [r.now] else before
  {
    hide InWindow, ZsetRun, RedisAdmits, Ticking, AskedTimes;
    var n := |requests| - 1;
    assert requests[..n] + [requests[n]] == requests;
    AskedLast(requests, key);
    RedisCountsEverything(requests[..n], requests[n], limit, window);
  }

  lemma {:induction false} AllowedAmongAsked(requests: seq<Request>, key: string, limit: int, window: real, lo: Time, hi: Time)
    ensures InWindow(RedisAllowed(requests, key, limit, window), lo, hi) <= InWindow(AskedTimes(requests, key), lo, hi)
  {
    hide InWindow, ZsetRun, RedisAdmits;
    if requests != [] {
      var n := |requests| - 1;
      AllowedAmongAsked(requests[..n], key, limit, window, lo, hi);
      InWindowSnoc(RedisAllowed(requests[..n], key, limit, window), requests[n].now, lo, hi);
      InWindowSnoc(AskedTimes(requests[..n], key), requests[n].now, lo, hi);
    }
  }

  /** So under Redis no window of that length holds more than `limit - 1` allowed requests of a key: one fewer
      than the local limiter grants, because a request is counted before it is judged. */
  lemma {:induction false} RedisWindowBound(requests: seq<Request>, key: string, limit: int, window: real, hi: Time)
    requires Ticking(requests)
    ensures InWindow(RedisAllowed(requests, key, limit, window), hi - window, hi) <= Max(0, limit - 1)
  {
    hide InWindow, RedisAllowed;
    if requests == [] {
      NothingPicked(limit, window);
      InWindowEmpty(hi - window, hi);
    } else {
      var n := |requests| - 1;
      var now := requests[n].now;
      var before := RedisAllowed(requests[..n], key, limit, window);
      RedisWindowBound(requests[..n], key, limit, window, hi);
      AllBefore(requests);
      RedisAllowedLast(requests, key, limit, window);
      InWindowSnoc(before, now, hi - window, hi);
      if requests[n].key == key && hi - window < now <= hi {
        AllowedAmongAsked(requests[..n], key, limit, window, now - window, now);
        InWindowSnoc(AskedTimes(requests[..n], key), now, now - window, now);
        RedisTimesBounded(requests[..n], key, limit, window, now);
        NarrowerWindow(before, hi - window, hi, now - window, now);
      }
    }
  }

  lemma InWindowEmpty(lo: Time, hi: Time)
    ensures InWindow([], lo, hi) == 0
  {
  }

  lemma {:induction false} RedisTimesBounded(requests: seq<Request>, key: string, limit: int, window: real, hi: Time)
    requires forall i :: 0 <= i < |requests| ==> requests[i].now <= hi
    ensures forall i :: 0 <= i < |RedisAllowed(requests, key, limit, window)| ==> RedisAllowed(requests, key, limit, window)[i] <= hi
  {
    hide RedisAdmits, ZsetRun;
    if requests != [] {
      RedisTimesBounded(requests[..|requests| - 1], key, limit, window, hi);
    }
  }

  /** A second request of one instance at the same clock reading is the same member: it changes nothing, and is
      admitted whenever the first one is. */
  lemma SameTickCountedOnce(z: Zset, r: Request, limit: int, window: real)
    requires r.now >= 0.0 && window > 0.0
    ensures ZsetStep(ZsetStep(z, r, window), r, window) == ZsetStep(z, r, window)
    ensures RedisAdmits(z, r, limit, window) ==> RedisAdmits(ZsetStep(z, r, window), r, limit, window)
  {
    var m := Member(r.now, r.instance);
    var added := ZAdd(Present(z, r.key, r.now), m);
    var members := ZRemRange(added, 0.0, r.now - window);
    assert added[|added| - 1] == m || m in Present(z, r.key, r.now);
    TrimKeeps(added, 0.0, r.now - window, m);
    TrimTwice(added, 0.0, r.now - window);
    assert ZsetStep(z, r, window)[r.key] == Entry(members, r.now + window + 1.0);
    assert Present(ZsetStep(z, r, window), r.key, r.now) == members;
  }

  lemma {:induction false} TrimKeeps(members: seq<Member>, lo: Time, hi: Time, m: Member)
    requires m in members && m.score > hi
    ensures m in ZRemRange(members, lo, hi)
  {
    var n := |members| - 1;
    assert members == members[..n] + [members[n]];
    if m != members[n] {
      TrimKeeps(members[..n], lo, hi, m);
    }
  }

  lemma {:induction false} TrimTwice(members: seq<Member>, lo: Time, hi: Time)
    ensures ZRemRange(ZRemRange(members, lo, hi), lo, hi) == ZRemRange(members, lo, hi)
  {
    if members != [] {
      var n := |members| - 1;
      TrimTwice(members[..n], lo, hi);
      var kept := ZRemRange(members[..n], lo, hi);
      assert (kept + [members[n]])[..|kept|] == kept;
      assert kept + [] == kept;
    }
  }

  // ---- the middleware -------------------------------------------------------

  /** Redis, which all processes share, and the local limiter of each process. */
  datatype Gate = Gate(zset: Zset, locals: map<nat, Store>)

  function LocalOf(g: Gate, instance: nat): Store {
    if instance in g.locals then g.locals[instance] else map[]
  }

  function GateAdmits(g: Gate, r: Request, limit: int, window: real): bool {
    if r.up then RedisAdmits(g.zset, r, limit, window)
    else Admits(LogOf(LocalOf(g, r.instance), r.key), limit, window, r.now)
  }

  function GateStep(g: Gate, r: Request, limit: int, window: real): Gate {
    if r.up then g.(zset := ZsetStep(g.zset, r, window))
    else g.(locals := g.locals[r.instance := StoreStep(LocalOf(g, r.instance), r.key, limit, window, r.now)])
  }

  /** The middleware of one process. */
  class RateLimitMiddleware {
    const redis: RedisRateLimiter
    const fallback: InMemoryRateLimiter
    const limit: int
    const window: int

    constructor (redis: RedisRateLimiter, fallback: InMemoryRateLimiter, limit: int, window: int)
      ensures this.redis == redis && this.fallback == fallback && this.limit == limit && this.window == window
    {
      this.redis, this.fallback, this.limit, this.window := redis, fallback, limit, window;
    }

    /** Ask Redis; when it refuses because it is down, let the process's own limiter decide.  The gate may hold
        the limiters of any other processes, which stay as they are. */
    method Dispatch(key: string, now: Time, up: bool, ghost others: map<nat, Store>) returns (allowed: bool)
      modifies redis, redis.server, fallback
      ensures !redis.failOpen || up ==>
                var r := Request(key, now, redis.instance, up);
                var g := old(Gate(redis.server.zset, others[redis.instance := fallback.store]));
                && Gate(redis.server.zset, others[redis.instance := fallback.store]) == GateStep(g, r, limit, window as real)
                && allowed == GateAdmits(g, r, limit, window as real)
      ensures redis.failOpen && !up ==>
                allowed && redis.server.zset == old(redis.server.zset) && fallback.store == old(fallback.store)
    {
      ghost var stored := others[redis.instance := fallback.store];
      var a := redis.IsAllowed(key, limit, window, now, up);
      if !a.allowed && !redis.available {
        a := fallback.IsAllowed(key, limit, window, now);
      }
      assert stored[redis.instance := fallback.store] == others[redis.instance := fallback.store];
      return a.allowed;
    }
  }

  function GateRun(requests: seq<Request>, limit: int, window: real): Gate {
    if requests == [] then Gate(map[], map[])
    else
      var n := |requests| - 1;
      GateStep(GateRun(requests[..n], limit, window), requests[n], limit, window)
  }

  function GateAllowed(requests: seq<Request>, key: string, limit: int, window: real): seq<Time> {
    if requests == [] then []
    else
      var n := |requests| - 1;
      var before := GateAllowed(requests[..n], key, limit, window);
      if requests[n].key == key && GateAdmits(GateRun(requests[..n], limit, window), requests[n], limit, window)
      then before + [requests[n].now] else before
  }

  /** The requests of a kind, in order. */
  function Picked(requests: seq<Request>, kind: Request -> bool): seq<Request> {
    if requests == [] then []
    else
      var n := |requests| - 1;
      var before := Picked(requests[..n], kind);
      if kind(requests[n]) then before + [requests[n]] else before
  }

  /** The requests that Redis answered. */
  function Answered(): Request -> bool {
    (r: Request) => r.up
  }

  /** The requests of one process that Redis did not answer. */
  function LeftTo(instance: nat): Request -> bool {
    (r: Request) => !r.up && r.instance == instance
  }

  lemma {:induction false} PickedFrom(requests: seq<Request>, kind: Request -> bool, k: nat)
    requires k < |Picked(requests, kind)|
    ensures exists j :: 0 <= j < |requests| && requests[j] == Picked(requests, kind)[k]
  {
    var n := |requests| - 1;
    if k < |Picked(requests[..n], kind)| {
      PickedFrom(requests[..n], kind, k);
      var j :| 0 <= j < n && requests[..n][j] == Picked(requests[..n], kind)[k];
      assert requests[j] == requests[..n][j];
    } else {
      assert requests[n] == Picked(requests, kind)[k];
    }
  }

  lemma {:induction false} PickedTicking(requests: seq<Request>, kind: Request -> bool)
    requires Ticking(requests)
    ensures Ticking(Picked(requests, kind))
  {
    hide Follows;
    if requests != [] {
      var n := |requests| - 1;
      PickedTicking(requests[..n], kind);
      forall k | 0 <= k < |Picked(requests[..n], kind)|
        ensures Follows(Picked(requests[..n], kind)[k], requests[n])
      {
        PickedFrom(requests[..n], kind, k);
        var j :| 0 <= j < n && requests[..n][j] == Picked(requests[..n], kind)[k];
        assert Follows(requests[j], requests[n]);
      }
    }
  }

  lemma PickedNext(requests: seq<Request>, kind: Request -> bool)
    requires requests != []
    ensures var n := |requests| - 1;
            Picked(requests, kind) == Picked(requests[..n], kind) + if kind(requests[n]) then [requests[n]] else []
  {
    var before := Picked(requests[..|requests| - 1], kind);
    assert before + [] == before;
  }

  lemma ZsetRunNext(requests: seq<Request>, r: Request, window: real)
    ensures ZsetRun(requests + [r], window) == ZsetStep(ZsetRun(requests, window), r, window)
  {
    assert (requests + [r])[..|requests|] == requests;
  }

  /** Redis sees exactly the requests it answers, and each process's limiter exactly those left to it. */
  lemma {:induction false} GateSplits(requests: seq<Request>, instance: nat, limit: int, window: real)
    ensures var g := GateRun(requests, limit, window);
            && g.zset == ZsetRun(Picked(requests, Answered()), window)
            && LocalOf(g, instance) == StoreRun(Picked(requests, LeftTo(instance)), limit, window)
  {
    hide ZsetStep, StoreStep, ZsetRun, StoreRun, Picked;
    if requests == [] {
      NothingPicked(limit, window);
    } else {
      var n := |requests| - 1;
      var r := requests[n];
      GateSplits(requests[..n], instance, limit, window);
      PickedNext(requests, Answered());
      PickedNext(requests, LeftTo(instance));
      var up, local := Picked(requests[..n], Answered()), Picked(requests[..n], LeftTo(instance));
      assert up + [] == up && local + [] == local;
      ZsetRunNext(up, r, window);
      StoreRunNext(local, r, limit, window);
    }
  }

  lemma NothingPicked(limit: int, window: real)
    ensures forall kind: Request -> bool :: Picked([], kind) == []
    ensures ZsetRun([], window) == map[] && StoreRun([], limit, window) == map[]
    ensures forall key :: RedisAllowed([], key, limit, window) == [] && AllowedTimes([], key, limit, window) == []
  {
  }

  lemma RedisAllowedSnoc(requests: seq<Request>, r: Request, key: string, limit: int, window: real)
    ensures var before := RedisAllowed(requests, key, limit, window);
            RedisAllowed(requests + [r], key, limit, window)
            == if r.key == key && RedisAdmits(ZsetRun(requests, window), r, limit, window) then before + [r.now] else before
  {
    hide RedisAdmits, ZsetRun;
    assert (requests + [r])[..|requests|] == requests;
  }

  lemma AllowedTimesSnoc(requests: seq<Request>, r: Request, key: string, limit: int, window: real)
    requires Ordered(requests + [r])
    ensures var before := AllowedTimes(requests, key, limit, window);
            AllowedTimes(requests + [r], key, limit, window)
            == if r.key == key && Admits(LogOf(StoreRun(requests, limit, window), key), limit, window, r.now)
               then before + [r.now] else before
  {
    hide Admits, StoreRun, InWindow;
    assert (requests + [r])[..|requests|] == requests;
    OrderedEnd(requests, r);
    forall i | 0 <= i < |requests|
      ensures requests[i].now <= r.now
    {
      assert (requests + [r])[i] == requests[i];
    }
    LimiterRefinesHistory(requests, key, limit, window, r.now);
  }

  /** How many requests the limiters of the first `processes` processes allow in a window. */
  function LocalCount(requests: seq<Request>, key: string, limit: int, window: real, lo: Time, hi: Time, processes: nat): nat {
    if processes == 0 then 0
    else
      LocalCount(requests, key, limit, window, lo, hi, processes - 1)
      + InWindow(AllowedTimes(Picked(requests, LeftTo(processes - 1)), key, limit, window), lo, hi)
  }

  predicate LocallyAllowed(requests: seq<Request>, r: Request, key: string, limit: int, window: real) {
    r.key == key && !r.up && Admits(LogOf(StoreRun(Picked(requests, LeftTo(r.instance)), limit, window), key), limit, window, r.now)
  }

  lemma LocalNext(requests: seq<Request>, key: string, limit: int, window: real, lo: Time, hi: Time, instance: nat)
    requires Ticking(requests) && requests != []
    ensures var n := |requests| - 1;
            var r := requests[n];
            InWindow(AllowedTimes(Picked(requests, LeftTo(instance)), key, limit, window), lo, hi)
            == InWindow(AllowedTimes(Picked(requests[..n], LeftTo(instance)), key, limit, window), lo, hi)
               + if r.instance == instance && LocallyAllowed(requests[..n], r, key, limit, window) && lo < r.now <= hi then 1 else 0
  {
    hide InWindow, AllowedTimes, Admits, StoreRun, Picked;
    var n := |requests| - 1;
    var r := requests[n];
    PickedNext(requests, LeftTo(instance));
    var before := Picked(requests[..n], LeftTo(instance));
    assert before + [] == before;
    if LeftTo(instance)(r) {
      PickedTicking(requests, LeftTo(instance));
      TickingIsOrdered(Picked(requests, LeftTo(instance)));
      AllowedTimesSnoc(before, r, key, limit, window);
      InWindowSnoc(AllowedTimes(before, key, limit, window), r.now, lo, hi);
    }
  }

  lemma {:induction false} LocalCountNext(requests: seq<Request>, key: string, limit: int, window: real, lo: Time, hi: Time, processes: nat)
    requires Ticking(requests) && requests != []
    ensures var n := |requests| - 1;
            var r := requests[n];
            LocalCount(requests, key, limit, window, lo, hi, processes)
            == LocalCount(requests[..n], key, limit, window, lo, hi, processes)
               + if r.instance < processes && LocallyAllowed(requests[..n], r, key, limit, window) && lo < r.now <= hi then 1 else 0
    decreases processes
  {
    hide InWindow, AllowedTimes, LocallyAllowed, Picked;
    if processes > 0 {
      LocalCountNext(requests, key, limit, window, lo, hi, processes - 1);
      LocalNext(requests, key, limit, window, lo, hi, processes - 1);
    }
  }

  lemma {:induction false} NoLocalCount(key: string, limit: int, window: real, lo: Time, hi: Time, processes: nat)
    ensures LocalCount([], key, limit, window, lo, hi, processes) == 0
  {
    NothingPicked(limit, window);
    InWindowEmpty(lo, hi);
    if processes > 0 {
      NoLocalCount(key, limit, window, lo, hi, processes - 1);
    }
  }

  /** What passes in a window is what Redis allows and what each process's limiter allows. */
  lemma {:induction false} GateCounts(requests: seq<Request>, key: string, limit: int, window: real, lo: Time, hi: Time, processes: nat)
    requires Ticking(requests) && forall i :: 0 <= i < |requests| ==> requests[i].instance < processes
    ensures InWindow(GateAllowed(requests, key, limit, window), lo, hi)
         == InWindow(RedisAllowed(Picked(requests, Answered()), key, limit, window), lo, hi)
            + LocalCount(requests, key, limit, window, lo, hi, processes)
  {
    hide InWindow, RedisAllowed, AllowedTimes, RedisAdmits, Admits, ZsetRun, StoreRun, GateRun, LocalCount, Picked;
    if requests == [] {
      NothingPicked(limit, window);
      InWindowEmpty(lo, hi);
      NoLocalCount(key, limit, window, lo, hi, processes);
    } else {
      var n := |requests| - 1;
      var r := requests[n];
      GateCounts(requests[..n], key, limit, window, lo, hi, processes);
      GateSplits(requests[..n], r.instance, limit, window);
      InWindowSnoc(GateAllowed(requests[..n], key, limit, window), r.now, lo, hi);
      LocalCountNext(requests, key, limit, window, lo, hi, processes);
      PickedNext(requests, Answered());
      var up := Picked(requests[..n], Answered());
      assert up + [] == up;
      if r.up {
        RedisAllowedSnoc(up, r, key, limit, window);
        InWindowSnoc(RedisAllowed(up, key, limit, window), r.now, lo, hi);
      }
    }
  }

  lemma {:induction false} LocalBound(requests: seq<Request>, key: string, limit: int, window: real, hi: Time, processes: nat)
    requires Ticking(requests)
    ensures LocalCount(requests, key, limit, window, hi - window, hi, processes) <= processes * Max(0, limit)
    decreases processes
  {
    hide InWindow, AllowedTimes, Picked, Ticking;
    if processes > 0 {
      LocalBound(requests, key, limit, window, hi, processes - 1);
      PickedTicking(requests, LeftTo(processes - 1));
      TickingIsOrdered(Picked(requests, LeftTo(processes - 1)));
      WindowBound(Picked(requests, LeftTo(processes - 1)), key, limit, window, hi);
      assert processes * Max(0, limit) == (processes - 1) * Max(0, limit) + Max(0, limit);
    }
  }

  /** Through any pattern of Redis outages, no window of that length holds more than `limit - 1` allowed requests
      of a key and `limit` more for each process. */
  lemma OutageBound(requests: seq<Request>, key: string, limit: int, window: real, hi: Time, processes: nat)
    requires Ticking(requests) && forall i :: 0 <= i < |requests| ==> requests[i].instance < processes
    ensures InWindow(GateAllowed(requests, key, limit, window), hi - window, hi)
         <= Max(0, limit - 1) + processes * Max(0, limit)
  {
    hide InWindow, RedisAllowed, GateAllowed, Picked, Ticking, LocalCount;
    GateCounts(requests, key, limit, window, hi - window, hi, processes);
    PickedTicking(requests, Answered());
    RedisWindowBound(Picked(requests, Answered()), key, limit, window, hi);
    LocalBound(requests, key, limit, window, hi, processes);
  }
}
