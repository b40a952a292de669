/** The request limiter of the `submitblock` endpoint: a deque of the times of accepted
    requests. */
module RateLimiter {
  import opened Common

  function Fresh(accepted: seq<Time>, now: Time, window: nat): seq<Time> {
    if accepted != [] && Elapsed(now, accepted[0]) >= window then Fresh(accepted[1..], now, window) else accepted
  }

  predicate Allowed(accepted: seq<Time>, capacity: nat, window: nat, now: Time) {
    |Fresh(accepted, now, window)| < capacity
  }

  function Next(accepted: seq<Time>, capacity: nat, window: nat, now: Time): seq<Time> {
    var live := Fresh(accepted, now, window);
    if |live| < capacity then live + [now] else live
  }

  class RequestRateLimiter {
    const capacity: nat
    const window: nat
    var accepted: seq<Time>

    constructor (capacity: nat, window: nat)
      ensures this.capacity == capacity && this.window == window && accepted == []
    {
      this.capacity := capacity;
      this.window := window;
      accepted := [];
    }

    method Allow(now: Time) returns (allowed: bool)
      modifies this
      ensures allowed == Allowed(old(accepted), capacity, window, now)
      ensures accepted == Next(old(accepted), capacity, window, now)
    {
      while accepted != [] && Elapsed(now, accepted[0]) >= window
        invariant Fresh(accepted, now, window) == Fresh(old(accepted), now, window)
        decreases |accepted|
      {
        accepted := accepted[1..];
      }
      if |accepted| >= capacity {
        return false;
      }
      accepted := accepted + [now];
      return true;
    }
  }

  // ---------------------------------------------------------------------------
  // The limiter against its history

  /** The deque after requests at these times. */
  function After(calls: Trace<Time>, capacity: nat, window: nat): seq<Time> {
    match calls
    case Start => []
    case Then(before, now) => Next(After(before, capacity, window), capacity, window, now)
  }

  /** The times of all accepted requests. */
  function Accepted(calls: Trace<Time>, capacity: nat, window: nat): seq<Time> {
    match calls
    case Start => []
    case Then(before, now) =>
      if Allowed(After(before, capacity, window), capacity, window, now)
      then Accepted(before, capacity, window) + [now] else Accepted(before, capacity, window)
  }

  predicate Ordered(calls: Trace<Time>, now: Time) {
    calls.Then? ==> calls.last <= now && Ordered(calls.before, calls.last)
  }

  ghost predicate SortedTimes(s: seq<Time>) {
    forall i, j :: 0 <= i < j < |s| ==> s[i] <= s[j]
  }

  /** How many of these times lie within `window` before `now`, `now - window`
      excluded. */
  function Within(s: seq<Time>, now: Time, window: nat): nat {
    if s == [] then 0
    else Within(s[..|s| - 1], now, window) + (if Elapsed(now, s[|s| - 1]) < window then 1 else 0)
  }

  /** `live` is the end of `s`, and everything before it is out of the window. */
  ghost predicate FreshOf(s: seq<Time>, live: seq<Time>, now: Time, window: nat) {
    && |live| <= |s| && live == s[|s| - |live|..]
    && forall i :: 0 <= i < |s| - |live| ==> Elapsed(now, s[i]) >= window
  }

  lemma {:induction false} FreshIs(s: seq<Time>, now: Time, window: nat)
    ensures FreshOf(s, Fresh(s, now, window), now, window)
    ensures Fresh(s, now, window) != [] ==> Elapsed(now, Fresh(s, now, window)[0]) < window
  {
    if s != [] && Elapsed(now, s[0]) >= window {
      var tail := s[1..];
      FreshIs(tail, now, window);
      var n := |s| - |Fresh(s, now, window)|;
      forall i | 0 <= i < n ensures Elapsed(now, s[i]) >= window {
        assert i > 0 ==> s[i] == tail[i - 1];
      }
    }
  }

  /** Dropping more from the front of what was kept. */
  lemma {:induction false} FreshOfFresh(all: seq<Time>, deque: seq<Time>, now: Time, window: nat)
    requires FreshOf(all, deque, now, window)
    ensures FreshOf(all, Fresh(deque, now, window), now, window)
  {
    FreshIs(deque, now, window);
    var live, base := Fresh(deque, now, window), |all| - |deque|;
    forall i | 0 <= i < |all| - |live| ensures Elapsed(now, all[i]) >= window {
      if i >= base {
        assert all[i] == deque[i - base];
      }
    }
  }

  /** Time passes, and perhaps one more is accepted. */
  lemma {:induction false} Later(all: seq<Time>, live: seq<Time>, t: Time, now: Time, window: nat)
    requires t <= now && FreshOf(all, live, t, window)
    ensures FreshOf(all, live, now, window) && FreshOf(all + [t], live + [t], now, window)
  {
  }

  ghost predicate SortedTo(s: seq<Time>, now: Time) {
    SortedTimes(s) && forall i :: 0 <= i < |s| ==> s[i] <= now
  }

  /** The deque holds the end of the history; what it dropped is out of the window. */
  lemma {:induction false} DequeIsRecent(calls: Trace<Time>, capacity: nat, window: nat, now: Time)
    requires Ordered(calls, now)
    ensures var all := Accepted(calls, capacity, window);
            && SortedTo(all, now)
            && FreshOf(all, After(calls, capacity, window), now, window)
            && |After(calls, capacity, window)| <= capacity
  {
    hide Fresh, FreshOf, SortedTo;
    if calls.Then? {
      var t := calls.last;
      DequeIsRecent(calls.before, capacity, window, t);
      var all, deque := Accepted(calls.before, capacity, window), After(calls.before, capacity, window);
      FreshOfFresh(all, deque, t, window);
      Shorter(deque, t, window);
      Later(all, Fresh(deque, t, window), t, now, window);
      SortedLater(all, t, now);
    } else {
      NothingYet(now, window);
    }
  }

  lemma {:induction false} SortedLater(all: seq<Time>, t: Time, now: Time)
    requires SortedTo(all, t) && t <= now
    ensures SortedTo(all, now) && SortedTo(all + [t], now)
  {
  }

  lemma {:induction false} Shorter(deque: seq<Time>, now: Time, window: nat)
    ensures |Fresh(deque, now, window)| <= |deque|
  {
    FreshIs(deque, now, window);
  }

  lemma {:induction false} NothingYet(now: Time, window: nat)
    ensures FreshOf([], [], now, window) && SortedTo([], now)
  {
  }

  lemma {:induction false} WithinIsFresh(s: seq<Time>, live: seq<Time>, now: Time, window: nat)
    requires SortedTimes(s) && FreshOf(s, live, now, window) && (live != [] ==> Elapsed(now, live[0]) < window)
    ensures Within(s, now, window) == |live|
  {
    if s != [] {
      var n := |s| - 1;
      var rest := s[..n];
      if live == [] {
        WithinIsFresh(rest, [], now, window);
      } else {
        var f := live[..|live| - 1];
        assert live[|live| - 1] == s[n] && live[0] <= s[n];
        assert f == rest[|rest| - |f|..];
        WithinIsFresh(rest, f, now, window);
      }
    }
  }

  /** With ordered times, a request is refused exactly when `capacity` or more were
      accepted in the window before it. */
  lemma {:induction false} RefusalIsExact(calls: Trace<Time>, capacity: nat, window: nat, now: Time)
    requires Ordered(calls, now)
    ensures Allowed(After(calls, capacity, window), capacity, window, now)
            <==> Within(Accepted(calls, capacity, window), now, window) < capacity
  {
    DequeIsRecent(calls, capacity, window, now);
    var all, deque := Accepted(calls, capacity, window), After(calls, capacity, window);
    FreshIs(deque, now, window);
    FreshOfFresh(all, deque, now, window);
    WithinIsFresh(all, Fresh(deque, now, window), now, window);
  }

  /** So no half-open window holds more than `capacity` accepted requests. */
  lemma {:induction false} NeverMoreThanCapacity(calls: Trace<Time>, capacity: nat, window: nat, now: Time, i: nat)
    requires Ordered(calls, now)
    requires i + capacity < |Accepted(calls, capacity, window)|
    ensures Accepted(calls, capacity, window)[i + capacity] - Accepted(calls, capacity, window)[i] >= window
  {
    hide Fresh, FreshOf;
    var t, all := calls.last, Accepted(calls.before, capacity, window);
    if i + capacity < |all| {
      NeverMoreThanCapacity(calls.before, capacity, window, t, i);
    } else {
      DequeIsRecent(calls.before, capacity, window, t);
      FreshOfFresh(all, After(calls.before, capacity, window), t, window);
      OutOfWindow(all, Fresh(After(calls.before, capacity, window), t, window), t, window, i);
    }
  }

  lemma {:induction false} OutOfWindow(all: seq<Time>, live: seq<Time>, t: Time, window: nat, i: nat)
    requires FreshOf(all, live, t, window) && i < |all| - |live|
    ensures Elapsed(t, all[i]) >= window
  {
  }
}
