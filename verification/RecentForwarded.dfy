/** The bridge's shared record of blocks: those forwarded lately, and those being
    sent right now. */
module RecentForwarded {
  import opened Common
  import opened TimedRing

  datatype Status = IsOpen | IsInFlight(gen: nat) | IsForwarded

  /** Where a block stands, once the ring has been swept. */
  function StatusOf(swept: seq<Stamped>, inFlight: map<Hash, nat>, h: Hash): Status {
    if Holds(swept, h) then IsForwarded
    else if h in inFlight then IsInFlight(inFlight[h])
    else IsOpen
  }

  /** A record, which keeps nothing at capacity 0. */
  function RecordForwarded(ring: seq<Stamped>, capacity: nat, window: nat, h: Hash, now: Time): seq<Stamped> {
    if capacity == 0 then Evict(ring, now, window) else Record(ring, capacity, window, h, now)
  }

  function ForwardedAfter(calls: Trace<Call>, capacity: nat, window: nat): seq<Stamped> {
    match calls
    case Start => []
    case Then(before, Lookup(now)) => Evict(ForwardedAfter(before, capacity, window), now, window)
    case Then(before, Recorded(key, now)) =>
      RecordForwarded(ForwardedAfter(before, capacity, window), capacity, window, key, now)
  }

  lemma {:induction false} SameAsRing(calls: Trace<Call>, capacity: nat, window: nat)
    ensures ForwardedAfter(calls, capacity, window) == if capacity == 0 then [] else After(calls, capacity, window)
  {
    if calls.Then? {
      SameAsRing(calls.before, capacity, window);
    }
  }

  /** At every capacity, zero included, a block counts as forwarded exactly when it is
      among the last `capacity` recorded and was recorded within the window. */
  lemma ForwardedIsExact(calls: Trace<Call>, capacity: nat, window: nat, h: Hash, now: Time)
    requires NondecreasingTo(calls, now)
    ensures var past := History(calls);
            Holds(Evict(ForwardedAfter(calls, capacity, window), now, window), h)
            <==> exists k :: 0 <= k < |past| && |past| - capacity <= k && past[k].key == h
                             && !Expired(past[k], now, window)
  {
    SameAsRing(calls, capacity, window);
    if capacity >= 1 {
      LookupIsExact(calls, capacity, window, h, now);
    }
  }

  /** The two collections behind the lock. A number stands for each watch channel: an
      entry's channel is open while the entry is there and closed once it is removed. */
  class RecentForwardedHashes {
    const capacity: nat
    const window: nat
    var entries: seq<Stamped>
    var inFlight: map<Hash, nat>
    var nextGen: nat
    var closed: set<nat>

    constructor (capacity: nat, window: nat)
      ensures this.capacity == capacity && this.window == window
      ensures entries == [] && inFlight == map[] && nextGen == 0 && closed == {}
    {
      this.capacity, this.window := capacity, window;
      entries, inFlight, nextGen, closed := [], map[], 0, {};
    }

    method EvictExpired(now: Time)
      modifies this`entries
      ensures entries == Evict(old(entries), now, window)
    {
      while entries != [] && Elapsed(now, entries[0].at) > window
        invariant Evict(entries, now, window) == Evict(old(entries), now, window)
        decreases |entries|
      {
        entries := entries[1..];
      }
    }

    method State(h: Hash, now: Time) returns (status: Status)
      modifies this`entries
      ensures entries == Evict(old(entries), now, window)
      ensures status == StatusOf(entries, inFlight, h)
    {
      EvictExpired(now);
      if Holds(entries, h) {
        status := IsForwarded;
      } else if h in inFlight {
        status := IsInFlight(inFlight[h]);
      } else {
        status := IsOpen;
      }
    }

    method Record(h: Hash, now: Time)
      modifies this`entries
      ensures entries == RecordForwarded(old(entries), capacity, window, h, now)
    {
      EvictExpired(now);
      if capacity == 0 {
        return;
      }
      if |entries| == capacity {
        entries := entries[1..];
      }
      entries := entries + [Stamped(h, now)];
    }

    /** The critical section of one claim attempt. */
    method TryClaim(h: Hash, now: Time) returns (status: Status)
      modifies this`entries, this`inFlight, this`nextGen
      ensures entries == Evict(old(entries), now, window)
      ensures status == StatusOf(entries, old(inFlight), h)
      ensures status.IsOpen? ==> inFlight == old(inFlight)[h := old(nextGen)] && nextGen == old(nextGen) + 1
      ensures !status.IsOpen? ==> inFlight == old(inFlight) && nextGen == old(nextGen)
    {
      status := State(h, now);
      if status.IsOpen? {
        inFlight := inFlight[h := nextGen];
        nextGen := nextGen + 1;
      }
    }

    /** The drop of a claim. Removing the entry closes its channel. */
    method RemoveClaim(h: Hash)
      modifies this`inFlight, this`closed
      ensures inFlight == old(inFlight) - {h}
      ensures closed == old(closed) + (if h in old(inFlight) then {old(inFlight)[h]} else {})
    {
      if h in inFlight {
        closed := closed + {inFlight[h]};
      }
      inFlight := inFlight - {h};
    }
  }
}
