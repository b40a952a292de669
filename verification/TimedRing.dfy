/** The bounded, time-windowed ring behind both duplicate filters: the forwarded
    hashes of the ingress bridge and the two rings of the submission gate.

    `Evict` and `Record` say what one call does to the deque. The history results
    say what a whole sequence of calls amounts to: a ring is the last `capacity`
    records, less the ones that have expired. */
module TimedRing {
  import opened Common

  datatype Stamped = Stamped(key: Hash, at: Time)

  predicate Expired(entry: Stamped, now: Time, window: nat) {
    Elapsed(now, entry.at) > window
  }

  predicate Holds(entries: seq<Stamped>, key: Hash) {
    exists i :: 0 <= i < |entries| && entries[i].key == key
  }

  /** How many entries carry `key`. */
  function Occurrences(entries: seq<Stamped>, key: Hash): nat {
    if entries == [] then 0
    else (if entries[0].key == key then 1 else 0) + Occurrences(entries[1..], key)
  }

  /** Entries left after dropping expired ones from the front, stopping at the
      first that has not expired. */
  function Evict(entries: seq<Stamped>, now: Time, window: nat): seq<Stamped> {
    if entries == [] || !Expired(entries[0], now, window) then entries
    else Evict(entries[1..], now, window)
  }

  /** `kept` is what front-only eviction leaves: a suffix, everything before it
      expired, and its first entry not. */
  ghost predicate IsEviction(entries: seq<Stamped>, kept: seq<Stamped>, now: Time, window: nat) {
    && |kept| <= |entries| && kept == entries[|entries| - |kept|..]
    && (forall i :: 0 <= i < |entries| - |kept| ==> Expired(entries[i], now, window))
    && (kept != [] ==> !Expired(kept[0], now, window))
  }

  lemma {:induction false} EvictIsEviction(entries: seq<Stamped>, now: Time, window: nat)
    ensures IsEviction(entries, Evict(entries, now, window), now, window)
  {
    if entries != [] && Expired(entries[0], now, window) {
      var tail, kept := entries[1..], Evict(entries, now, window);
      EvictIsEviction(tail, now, window);
      forall i | 0 <= i < |entries| - |kept| ensures Expired(entries[i], now, window) {
        assert i > 0 ==> entries[i] == tail[i - 1];
      }
    }
  }

  /** Append, first dropping the front of a ring whose length is its capacity. */
  function Push(entries: seq<Stamped>, capacity: nat, entry: Stamped): seq<Stamped> {
    (if entries != [] && |entries| == capacity then entries[1..] else entries) + [entry]
  }

  function Record(entries: seq<Stamped>, capacity: nat, window: nat, key: Hash, now: Time): seq<Stamped> {
    Push(Evict(entries, now, window), capacity, Stamped(key, now))
  }

  // ---------------------------------------------------------------------------
  // The ring against its history

  /** One call on a ring: a lookup or a record, at the time it was given. */
  datatype Call = Lookup(at: Time) | Recorded(key: Hash, at: Time)

  function Apply(entries: seq<Stamped>, capacity: nat, window: nat, call: Call): seq<Stamped> {
    match call
    case Lookup(now) => Evict(entries, now, window)
    case Recorded(key, now) => Record(entries, capacity, window, key, now)
  }

  /** The deque after a sequence of calls on a new ring. */
  function After(calls: Trace<Call>, capacity: nat, window: nat): seq<Stamped> {
    match calls
    case Start => []
    case Then(before, call) => Apply(After(before, capacity, window), capacity, window, call)
  }

  /** Everything that was ever recorded, in order. */
  function History(calls: Trace<Call>): seq<Stamped> {
    match calls
    case Start => []
    case Then(before, Lookup(_)) => History(before)
    case Then(before, Recorded(key, now)) => History(before) + [Stamped(key, now)]
  }

  /** The times of the calls never run backwards, and none is later than `now`. */
  predicate NondecreasingTo(calls: Trace<Call>, now: Time) {
    calls.Then? ==> calls.last.at <= now && NondecreasingTo(calls.before, calls.last.at)
  }

  /** Some call made after record number `k` came at a time when that record had
      expired. Calls made before the record say nothing about it. */
  predicate SeenExpired(calls: Trace<Call>, k: nat, window: nat) {
    && calls.Then? && k < |History(calls.before)|
    && (Expired(History(calls.before)[k], calls.last.at, window) || SeenExpired(calls.before, k, window))
  }

  /** Evicting an expired prefix by hand changes nothing that `Evict` would keep. */
  lemma {:induction false} EvictDropsExpiredPrefix(dropped: seq<Stamped>, rest: seq<Stamped>, now: Time, window: nat)
    requires forall i :: 0 <= i < |dropped| ==> Expired(dropped[i], now, window)
    ensures Evict(dropped + rest, now, window) == Evict(rest, now, window)
  {
    if dropped == [] {
      assert dropped + rest == rest;
    } else {
      assert (dropped + rest)[1..] == dropped[1..] + rest;
      EvictDropsExpiredPrefix(dropped[1..], rest, now, window);
    }
  }

  /** With a clock that never runs backwards, what a lookup sees is exactly the last
      `capacity` records less the expired ones, whatever calls came between. */
  lemma {:induction false} RingIsRecentHistory(calls: Trace<Call>, capacity: nat, window: nat, now: Time)
    requires capacity >= 1
    requires NondecreasingTo(calls, now)
    ensures Evict(After(calls, capacity, window), now, window)
         == Evict(Last(History(calls), capacity), now, window)
  {
    match calls
    case Start =>
    case Then(earlier, last) =>
      var before, history := After(earlier, capacity, window), History(earlier);
      RingIsRecentHistory(earlier, capacity, window, last.at);
      match last {
        case Lookup(t) =>
          EvictTwice(before, t, now, window);
          EvictTwice(Last(history, capacity), t, now, window);
        case Recorded(key, t) =>
          PushKeepsRecent(history, capacity, window, Stamped(key, t), now);
      }
  }

  lemma {:induction false} EvictTwice(entries: seq<Stamped>, first: Time, second: Time, window: nat)
    requires first <= second
    ensures Evict(Evict(entries, first, window), second, window) == Evict(entries, second, window)
  {
    EvictIsEviction(entries, first, window);
    var kept := Evict(entries, first, window);
    var dropped := entries[..|entries| - |kept|];
    assert entries == dropped + kept;
    EvictDropsExpiredPrefix(dropped, kept, second, window);
  }

  lemma {:induction false} PushKeepsRecent(history: seq<Stamped>, capacity: nat, window: nat, entry: Stamped, now: Time)
    requires capacity >= 1 && entry.at <= now
    ensures Evict(Push(Evict(Last(history, capacity), entry.at, window), capacity, entry), now, window)
         == Evict(Last(history + [entry], capacity), now, window)
  {
    var recent := Last(history, capacity);
    var kept := Evict(recent, entry.at, window);
    EvictIsEviction(recent, entry.at, window);
    var dropped := PushDropsExpired(history, recent, kept, capacity, window, entry);
    EvictDropsExpiredPrefix(dropped, Push(kept, capacity, entry), now, window);
  }

  /** What the ring no longer holds of the last `capacity` records has expired. */
  lemma {:induction false} PushDropsExpired(history: seq<Stamped>, recent: seq<Stamped>, kept: seq<Stamped>,
                                            capacity: nat, window: nat, entry: Stamped)
    returns (dropped: seq<Stamped>)
    requires capacity >= 1 && recent == Last(history, capacity) && IsEviction(recent, kept, entry.at, window)
    ensures Last(history + [entry], capacity) == dropped + Push(kept, capacity, entry)
    ensures forall i :: 0 <= i < |dropped| ==> Expired(dropped[i], entry.at, window)
  {
    var all := Last(history + [entry], capacity);
    if |kept| == capacity {
      dropped := [];
    } else {
      dropped := all[..|all| - |kept| - 1];
      forall i | 0 <= i < |dropped| ensures Expired(dropped[i], entry.at, window) {
        var j := i + |recent| - |kept| - |dropped|;
        assert dropped[i] == recent[j] && j < |recent| - |kept|;
      }
    }
  }

  predicate Sorted(entries: seq<Stamped>) {
    forall i, j :: 0 <= i < j < |entries| ==> entries[i].at <= entries[j].at
  }

  lemma {:induction false} HistoryIsSorted(calls: Trace<Call>, now: Time)
    requires NondecreasingTo(calls, now)
    ensures Sorted(History(calls))
    ensures forall i :: 0 <= i < |History(calls)| ==> History(calls)[i].at <= now
  {
    if calls.Then? {
      HistoryIsSorted(calls.before, calls.last.at);
    }
  }

  /** A lookup answers yes exactly when the key is among the last `capacity` records
      and was recorded within `window` of now. */
  lemma {:induction false} LookupIsExact(calls: Trace<Call>, capacity: nat, window: nat, key: Hash, now: Time)
    requires capacity >= 1
    requires NondecreasingTo(calls, now)
    ensures var h := History(calls);
            Holds(Evict(After(calls, capacity, window), now, window), key)
            <==> exists k :: 0 <= k < |h| && |h| - capacity <= k && h[k].key == key && !Expired(h[k], now, window)
  {
    RingIsRecentHistory(calls, capacity, window, now);
    HistoryIsSorted(calls, now);
    RecentHolds(History(calls), capacity, window, key, now);
  }

  lemma {:induction false} RecentHolds(h: seq<Stamped>, capacity: nat, window: nat, key: Hash, now: Time)
    requires Sorted(h)
    ensures Holds(Evict(Last(h, capacity), now, window), key)
      <==> exists k :: 0 <= k < |h| && |h| - capacity <= k && h[k].key == key && !Expired(h[k], now, window)
  {
    var recent := Last(h, capacity);
    EvictIsEviction(recent, now, window);
    KeptIsFresh(h, recent, Evict(recent, now, window), capacity, window, now);
    KeptHolds(h, Evict(recent, now, window), capacity, window, key, now);
  }

  /** On records in time order, front-only eviction leaves exactly the fresh ones. */
  lemma {:induction false} KeptIsFresh(h: seq<Stamped>, recent: seq<Stamped>, kept: seq<Stamped>, capacity: nat,
                                       window: nat, now: Time)
    requires Sorted(h) && recent == Last(h, capacity) && IsEviction(recent, kept, now, window)
    ensures |kept| <= |h| && |kept| <= capacity && kept == h[|h| - |kept|..]
    ensures forall k :: 0 <= k < |h| && |h| - capacity <= k ==> (k >= |h| - |kept| <==> !Expired(h[k], now, window))
  {
    forall k | 0 <= k < |h| && |h| - capacity <= k
      ensures k >= |h| - |kept| <==> !Expired(h[k], now, window)
    {
      if k < |h| - |kept| {
        assert h[k] == recent[k - (|h| - |recent|)];
      } else {
        assert kept[0] == h[|h| - |kept|];
        assert h[|h| - |kept|].at <= h[k].at;
      }
    }
  }

  lemma {:induction false} KeptHolds(h: seq<Stamped>, kept: seq<Stamped>, capacity: nat, window: nat, key: Hash,
                                     now: Time)
    requires |kept| <= |h| && |kept| <= capacity && kept == h[|h| - |kept|..]
    requires forall k :: 0 <= k < |h| && |h| - capacity <= k ==> (k >= |h| - |kept| <==> !Expired(h[k], now, window))
    ensures Holds(kept, key)
      <==> exists k :: 0 <= k < |h| && |h| - capacity <= k && h[k].key == key && !Expired(h[k], now, window)
  {
    if Holds(kept, key) {
      var i :| 0 <= i < |kept| && kept[i].key == key;
      assert h[|h| - |kept| + i] == kept[i];
    }
    if k :| 0 <= k < |h| && |h| - capacity <= k && h[k].key == key && !Expired(h[k], now, window) {
      assert kept[k - (|h| - |kept|)] == h[k];
    }
  }

  /** Whatever times the calls carry, the ring is a suffix of the history no longer
      than its capacity, and an entry that no call has seen expire is dropped only by
      `capacity` later records. */
  lemma {:induction false} NeverDroppedEarly(calls: Trace<Call>, capacity: nat, window: nat)
    requires capacity >= 1
    ensures var h, r := History(calls), After(calls, capacity, window);
            && |r| <= capacity && |r| <= |h| && r == h[|h| - |r|..]
            && forall k :: 0 <= k < |h| - |r| && |h| - capacity <= k ==> SeenExpired(calls, k, window)
  {
    match calls
    case Start =>
    case Then(before, call) =>
      NeverDroppedEarly(before, capacity, window);
      var h, r := History(before), After(before, capacity, window);
      var kept := Evict(r, call.at, window);
      EvictIsEviction(r, call.at, window);
      SuffixOfSuffix(h, r, kept);
      forall k | 0 <= k < |h| - |kept| && |h| - capacity <= k ensures SeenExpired(calls, k, window) {
        if k >= |h| - |r| {
          assert r[k - (|h| - |r|)] == h[k];
        }
      }
      DropsAreSeen(calls, h, kept, capacity, window);
  }

  lemma {:induction false} DropsAreSeen(calls: Trace<Call>, h: seq<Stamped>, kept: seq<Stamped>, capacity: nat,
                                        window: nat)
    requires capacity >= 1 && calls.Then? && h == History(calls.before)
    requires kept == Evict(After(calls.before, capacity, window), calls.last.at, window)
    requires |kept| <= capacity && |kept| <= |h| && kept == h[|h| - |kept|..]
    requires forall k :: 0 <= k < |h| - |kept| && |h| - capacity <= k ==> SeenExpired(calls, k, window)
    ensures var h', r := History(calls), After(calls, capacity, window);
            && |r| <= capacity && |r| <= |h'| && r == h'[|h'| - |r|..]
            && forall k :: 0 <= k < |h'| - |r| && |h'| - capacity <= k ==> SeenExpired(calls, k, window)
  {
    if calls.last.Recorded? {
      PushedSuffix(h, kept, capacity, Stamped(calls.last.key, calls.last.at));
    }
  }

  lemma {:induction false} SuffixOfSuffix(h: seq<Stamped>, r: seq<Stamped>, kept: seq<Stamped>)
    requires |kept| <= |r| <= |h| && r == h[|h| - |r|..] && kept == r[|r| - |kept|..]
    ensures kept == h[|h| - |kept|..]
  {
  }

  lemma {:induction false} PushedSuffix(h: seq<Stamped>, kept: seq<Stamped>, capacity: nat, entry: Stamped)
    requires 1 <= capacity && |kept| <= capacity && |kept| <= |h| && kept == h[|h| - |kept|..]
    ensures var r := Push(kept, capacity, entry);
            |r| <= capacity && |r| <= |h| + 1 && r == (h + [entry])[|h| + 1 - |r|..]
            && (|r| == |kept| + 1 || |r| == capacity)
  {
  }

  /** The gate's ring tests `len == capacity`, so a ring built with capacity 0 is never
      full: records made at one instant all stay, however many there are. The bound of
      `NeverDroppedEarly` really needs capacity 1 or more. */
  lemma {:induction false} CapacityZeroIsUnbounded(window: nat, n: nat) returns (calls: Trace<Call>)
    ensures |After(calls, 0, window)| == |History(calls)| == n
    ensures forall i :: 0 <= i < n ==> After(calls, 0, window)[i].at == 0
    ensures NondecreasingTo(calls, 0)
  {
    if n == 0 {
      calls := Start;
    } else {
      var earlier := CapacityZeroIsUnbounded(window, n - 1);
      assert Evict(After(earlier, 0, window), 0, window) == After(earlier, 0, window);
      calls := Then(earlier, Recorded(n, 0));
    }
  }

  /** The records a ring has room for. Capacity 0 never counts as full. */
  function Recent(h: seq<Stamped>, capacity: nat): seq<Stamped> {
    if capacity == 0 then h else Last(h, capacity)
  }

  /** `RingIsRecentHistory` at every capacity. */
  lemma {:induction false} RingIsRecent(calls: Trace<Call>, capacity: nat, window: nat, now: Time)
    requires NondecreasingTo(calls, now)
    ensures Evict(After(calls, capacity, window), now, window) == Evict(Recent(History(calls), capacity), now, window)
  {
    if capacity >= 1 {
      RingIsRecentHistory(calls, capacity, window, now);
    } else if calls.Then? {
      var before, history, t := After(calls.before, 0, window), History(calls.before), calls.last.at;
      RingIsRecent(calls.before, 0, window, t);
      if calls.last.Lookup? {
        EvictTwice(before, t, now, window);
        EvictTwice(history, t, now, window);
      } else {
        EvictThenAppend(history, Stamped(calls.last.key, t), now, window);
      }
    }
  }

  lemma {:induction false} EvictThenAppend(h: seq<Stamped>, e: Stamped, now: Time, window: nat)
    requires e.at <= now
    ensures Evict(Evict(h, e.at, window) + [e], now, window) == Evict(h + [e], now, window)
  {
    var kept := Evict(h, e.at, window);
    EvictIsEviction(h, e.at, window);
    var dropped := h[..|h| - |kept|];
    assert h + [e] == dropped + (kept + [e]);
    EvictDropsExpiredPrefix(dropped, kept + [e], now, window);
  }

  // ---------------------------------------------------------------------------
  // The gate's ring as an object

  /** The bounded ring of recent submissions. */
  class DedupRing {
    const capacity: nat
    const window: nat
    var entries: seq<Stamped>

    constructor (capacity: nat, window: nat)
      ensures this.capacity == capacity && this.window == window && entries == []
    {
      this.capacity := capacity;
      this.window := window;
      entries := [];
    }

    method EvictExpired(now: Time)
      modifies this
      ensures entries == Evict(old(entries), now, window)
    {
      while entries != [] && Elapsed(now, entries[0].at) > window
        invariant Evict(entries, now, window) == Evict(old(entries), now, window)
        decreases |entries|
      {
        entries := entries[1..];
      }
    }

    method Contains(key: Hash, now: Time) returns (found: bool)
      modifies this
      ensures entries == Evict(old(entries), now, window)
      ensures found == Holds(entries, key)
    {
      EvictExpired(now);
      found := Holds(entries, key);
    }

    method Count(key: Hash, now: Time) returns (n: nat)
      modifies this
      ensures entries == Evict(old(entries), now, window)
      ensures n == Occurrences(entries, key)
    {
      EvictExpired(now);
      n := Occurrences(entries, key);
    }

    method Add(key: Hash, now: Time)
      modifies this
      ensures entries == Record(old(entries), capacity, window, key, now)
    {
      EvictExpired(now);
      if |entries| == capacity && entries != [] {
        entries := entries[1..];
      }
      entries := entries + [Stamped(key, now)];
    }
  }
}
