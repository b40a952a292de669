/** The verdicts of the submission gate, told from the candidate, the chain and the run
    before it: which candidates pass, and for which reason every other one is rejected. */
module GateVerdict {
  import opened Common
  import opened TimedRing
  import opened GateWindow
  import opened SubmitGate
  import opened GateBudget

  ghost predicate IsU64(x: int) {
    0 <= x <= U64_MAX
  }

  /** The heights the source reads fit in its 64-bit words. */
  ghost predicate FitsU64(chain: Chain, meta: Meta) {
    IsU64(chain.tip) && IsU64(meta.height) && (meta.observedTip.Some? ==> IsU64(meta.observedTip.value))
  }

  /** Neither tip is more than `allowedBelow` above the candidate, and one of them is at
      most one below it. */
  ghost predicate InWindow(allowedBelow: nat, chain: Chain, meta: Meta) {
    && chain.tip <= meta.height + allowedBelow
    && (meta.observedTip.Some? ==> meta.observedTip.value <= meta.height + allowedBelow)
    && (meta.height <= chain.tip + 1 || (meta.observedTip.Some? && meta.height <= meta.observedTip.value + 1))
  }

  /** The chain checks, in their order. */
  lemma ChainVerdict(allowedBelow: nat, chain: Chain, block: Hash, meta: Meta)
    requires FitsU64(chain, meta)
    ensures var reason := ChainRejection(allowedBelow, chain, block, meta);
            && (reason == Some(HeaderMutated) <==> block != meta.block)
            && (reason == Some(UnknownParent) <==> block == meta.block && !chain.known(meta.parent))
            && (reason == Some(OutOfHeightWindow) <==>
                  block == meta.block && chain.known(meta.parent) && !InWindow(allowedBelow, chain, meta))
            && (reason.None? <==>
                  block == meta.block && chain.known(meta.parent) && InWindow(allowedBelow, chain, meta))
  {
    var tip := Tip(chain, meta);
    assert tip == chain.tip || tip == meta.observedTip.value;
  }

  /** The positions of the records of `block` that a ring with this history would find. */
  ghost function Fresh(h: seq<Stamped>, block: Hash, capacity: nat, window: nat, now: Time): set<nat> {
    set k: nat | k < |h| && (capacity == 0 || |h| - capacity <= k) && h[k].key == block && now <= h[k].at + window
  }

  lemma {:induction false} CountFrom(h: seq<Stamped>, from: nat, key: Hash)
    requires from <= |h|
    ensures Occurrences(h[from..], key) == |set k: nat | from <= k < |h| && h[k].key == key|
    decreases |h| - from
  {
    var all := set k: nat | from <= k < |h| && h[k].key == key;
    if from == |h| {
      assert all == {};
    } else {
      CountFrom(h, from + 1, key);
      assert h[from..][1..] == h[from + 1..];
      var rest := set k: nat | from + 1 <= k < |h| && h[k].key == key;
      assert all == rest + if h[from].key == key then {from} else {};
    }
  }

  /** What the ring counts, in the words of its history. */
  lemma {:induction false} FreshIsCounted(h: seq<Stamped>, block: Hash, capacity: nat, window: nat, now: Time)
    requires Sorted(h) && (h != [] ==> h[|h| - 1].at <= now)
    ensures Occurrences(Evict(Recent(h, capacity), now, window), block) == |Fresh(h, block, capacity, window, now)|
  {
    hide Occurrences, Evict;
    var recent := Recent(h, capacity);
    var kept := Evict(recent, now, window);
    EvictIsEviction(recent, now, window);
    var from := |h| - |kept|;
    assert kept == h[from..];
    CountFrom(h, from, block);
    FreshFrom(h, from, block, capacity, window, now);
  }

  /** What the ring finds. */
  lemma {:induction false} FreshIsFound(h: seq<Stamped>, block: Hash, capacity: nat, window: nat, now: Time)
    requires Sorted(h) && (h != [] ==> h[|h| - 1].at <= now)
    ensures Holds(Evict(Recent(h, capacity), now, window), block) <==> Fresh(h, block, capacity, window, now) != {}
  {
    hide Evict, Holds, Fresh, Sorted;
    var recent := Recent(h, capacity);
    var kept := Evict(recent, now, window);
    EvictIsEviction(recent, now, window);
    var from := |h| - |kept|;
    assert kept == h[from..];
    FreshFrom(h, from, block, capacity, window, now);
    HoldsFrom(h, from, block);
  }

  lemma {:induction false} HoldsFrom(h: seq<Stamped>, from: nat, block: Hash)
    requires from <= |h|
    ensures Holds(h[from..], block) <==> (set k: nat | from <= k < |h| && h[k].key == block) != {}
  {
    var kept, found := h[from..], set k: nat | from <= k < |h| && h[k].key == block;
    if Holds(kept, block) {
      var i: nat :| i < |kept| && kept[i].key == block;
      assert from + i in found;
    }
    if found != {} {
      var k :| k in found;
      assert kept[k - from].key == block;
    }
  }

  lemma {:induction false} FreshFrom(h: seq<Stamped>, from: nat, block: Hash, capacity: nat, window: nat, now: Time)
    requires Sorted(h) && (h != [] ==> h[|h| - 1].at <= now) && from <= |h|
    requires IsEviction(Recent(h, capacity), h[from..], now, window)
    ensures Fresh(h, block, capacity, window, now) == set k: nat | from <= k < |h| && h[k].key == block
  {
  }

  /** The blocks entered in the dedup ring, in order. */
  ghost function Entered(cfg: Config, candidates: seq<Candidate>, run: Trace<Action>): seq<Stamped>
    requires IsRun(cfg, candidates, run)
  {
    History(DedupCalls(cfg, candidates, run))
  }

  /** The block is among the last `capacity` entered, or at capacity 0 among all of them,
      and was entered within the window. */
  ghost predicate IsRepeat(cfg: Config, candidates: seq<Candidate>, run: Trace<Action>, block: Hash, now: Time)
    requires IsRun(cfg, candidates, run)
  {
    Fresh(Entered(cfg, candidates, run), block, cfg.capacity, cfg.window, now) != {}
  }

  /** What an enabled gate finds in its dedup ring. */
  lemma {:induction false} RingFinds(cfg: Config, candidates: seq<Candidate>, run: Trace<Action>, block: Hash,
                                     now: Time)
    requires IsRun(cfg, candidates, run) && Ordered(run, now) && cfg.enabled
    ensures Holds(Evict(SubmitGate.After(cfg, candidates, run).gate.dedup, now, cfg.window), block)
            <==> IsRepeat(cfg, candidates, run, block, now)
  {
    hide Evict, Holds, Fresh, Recent, Sorted, SubmitGate.After, IsRun;
    var calls := DedupCalls(cfg, candidates, run);
    RingsSawCalls(cfg, candidates, run);
    CallsAreOrdered(cfg, candidates, run, now);
    RingIsRecent(calls, cfg.capacity, cfg.window, now);
    HistoryIsSorted(calls, now);
    FreshIsFound(History(calls), block, cfg.capacity, cfg.window, now);
  }

  /** A strict candidate passes an enabled gate exactly if its header still hashes to its
      block, its parent is known, its height is in the window and its block is no repeat;
      otherwise the first of these that fails is the reason. A disabled gate passes
      everything. Only a candidate that passes an enabled gate is entered, and nothing
      else is changed: by a rejection for the chain, nothing at all. */
  lemma {:induction false} StrictVerdict(cfg: Config, candidates: seq<Candidate>, run: Trace<Action>, block: Hash,
                                         meta: Meta, chain: Chain, now: Time)
    requires IsRun(cfg, candidates, run) && FitsU64(chain, meta) && (cfg.enabled ==> Ordered(run, now))
    ensures var g := SubmitGate.After(cfg, candidates, run).gate;
            var reason := ChainRejection(cfg.allowedBelow, chain, block, meta);
            var v := Applied(cfg, g, block, reason, now);
            var onChain := block == meta.block && chain.known(meta.parent) && InWindow(cfg.allowedBelow, chain, meta);
            && (v.rejected.None? <==> !cfg.enabled || (onChain && !IsRepeat(cfg, candidates, run, block, now)))
            && (v.rejected == Some(HeaderMutated) <==> cfg.enabled && block != meta.block)
            && (v.rejected == Some(UnknownParent) <==> cfg.enabled && block == meta.block && !chain.known(meta.parent))
            && (v.rejected == Some(OutOfHeightWindow) <==>
                  cfg.enabled && block == meta.block && chain.known(meta.parent)
                    && !InWindow(cfg.allowedBelow, chain, meta))
            && (v.rejected == Some(DuplicateSubmit) <==>
                  cfg.enabled && onChain && IsRepeat(cfg, candidates, run, block, now))
            && (!cfg.enabled || !onChain ==> v.gate == g)
            && v.gate.attempts == g.attempts && v.gate.inFlight == g.inFlight
  {
    hide Evict, Holds, Record, SubmitGate.After, IsRun, IsRepeat, InWindow, ChainRejection;
    ChainVerdict(cfg.allowedBelow, chain, block, meta);
    if cfg.enabled {
      RingFinds(cfg, candidates, run, block, now);
    }
  }

  /** What a strict candidate leaves in the dedup ring's history. */
  lemma {:induction false} StrictEnters(cfg: Config, candidates: seq<Candidate>, run: Trace<Action>, block: Hash,
                                        reason: Option<Reason>, now: Time)
    requires IsRun(cfg, candidates, run)
    ensures var run' := Then(run, Strict(block, reason, now));
            var passed := Applied(cfg, SubmitGate.After(cfg, candidates, run).gate, block, reason, now).rejected.None?;
            && IsRun(cfg, candidates, run')
            && Entered(cfg, candidates, run') == Entered(cfg, candidates, run)
                                                 + if cfg.enabled && passed then [Stamped(block, now)] else []
  {
    hide Evict, Holds, Record;
    var calls, run' := DedupCalls(cfg, candidates, run), Then(run, Strict(block, reason, now));
    assert History(calls) + [] == History(calls);
    assert History(Then(calls, Lookup(now))) == History(calls);
    assert History(Then(Then(calls, Lookup(now)), Recorded(block, now))) == History(calls) + [Stamped(block, now)];
    assert IsRun(cfg, candidates, run');
  }

  /** The bytes of this candidate are at the node. */
  ghost predicate IsAtNode(cfg: Config, candidates: seq<Candidate>, run: Trace<Action>, body: Hash)
    requires IsRun(cfg, candidates, run)
  {
    exists i :: Owns(SubmitGate.After(cfg, candidates, run), i, body)
  }

  /** The grants that count against the budget of `block`. */
  ghost function Spent(cfg: Config, candidates: seq<Candidate>, run: Trace<Action>, block: Hash, now: Time): nat
    requires IsRun(cfg, candidates, run)
  {
    |Fresh(Grants(cfg, candidates, run), block, cfg.capacity, cfg.window, now)|
  }

  /** What an enabled gate counts in its ring of attempts. */
  lemma {:induction false} RingCounts(cfg: Config, candidates: seq<Candidate>, run: Trace<Action>, block: Hash,
                                      now: Time)
    requires IsRun(cfg, candidates, run) && Ordered(run, now)
    ensures Occurrences(Evict(SubmitGate.After(cfg, candidates, run).gate.attempts, now, cfg.window), block)
         == Spent(cfg, candidates, run, block, now)
  {
    hide Evict, Occurrences, SubmitGate.After, IsRun, AttemptCalls, Grants, Recent, Fresh;
    var calls := AttemptCalls(cfg, candidates, run);
    GrantsAreRecorded(cfg, candidates, run);
    RingsSawCalls(cfg, candidates, run);
    CallsAreOrdered(cfg, candidates, run, now);
    RingIsRecent(calls, cfg.capacity, cfg.window, now);
    HistoryIsSorted(calls, now);
    FreshIsCounted(History(calls), block, cfg.capacity, cfg.window, now);
  }

  /** A reservation is granted by an enabled gate exactly if the chain checks pass, its
      block is no repeat, its bytes are not at the node, and fewer than `perBlock` grants
      of its block count; by a disabled gate exactly if its bytes are not at the node.
      Otherwise the first of these that fails is the reason, the second and the third
      alike. A granted body joins those at the node, and no other verdict moves one. */
  lemma {:induction false} ReservationVerdict(cfg: Config, candidates: seq<Candidate>, run: Trace<Action>, c: Candidate,
                                              meta: Meta, chain: Chain, now: Time)
    requires IsRun(cfg, candidates, run) && FitsU64(chain, meta) && (cfg.enabled ==> Ordered(run, now))
    ensures var g := SubmitGate.After(cfg, candidates, run).gate;
            var reason := ChainRejection(cfg.allowedBelow, chain, c.block, meta);
            var v := Reserved(cfg, g, c, reason, now);
            var onChain := c.block == meta.block && chain.known(meta.parent) && InWindow(cfg.allowedBelow, chain, meta);
            var passes := cfg.enabled ==> onChain;
            var duplicate := || (cfg.enabled && IsRepeat(cfg, candidates, run, c.block, now))
                             || IsAtNode(cfg, candidates, run, c.body);
            var spent := cfg.enabled && Spent(cfg, candidates, run, c.block, now) >= cfg.perBlock;
            && (v.rejected.None? <==> passes && !duplicate && !spent)
            && (v.rejected == Some(HeaderMutated) <==> cfg.enabled && c.block != meta.block)
            && (v.rejected == Some(UnknownParent) <==>
                  cfg.enabled && c.block == meta.block && !chain.known(meta.parent))
            && (v.rejected == Some(OutOfHeightWindow) <==>
                  cfg.enabled && c.block == meta.block && chain.known(meta.parent)
                    && !InWindow(cfg.allowedBelow, chain, meta))
            && (v.rejected == Some(DuplicateSubmit) <==> passes && duplicate)
            && (v.rejected == Some(UnverifiedLimit) <==> passes && !duplicate && spent)
            && (!passes ==> v.gate == g)
            && v.gate.inFlight == g.inFlight + (if v.rejected.None? then {c.body} else {})
  {
    hide Evict, Holds, Record, Occurrences, SubmitGate.After, IsRun, IsRepeat, InWindow, ChainRejection, Owns, Spent,
         SlotsExact;
    ChainVerdict(cfg.allowedBelow, chain, c.block, meta);
    InFlightIsAtNode(cfg, candidates, run, c.body);
    if cfg.enabled {
      RingFinds(cfg, candidates, run, c.block, now);
      RingCounts(cfg, candidates, run, c.block, now);
    }
  }

  lemma {:induction false} InFlightIsAtNode(cfg: Config, candidates: seq<Candidate>, run: Trace<Action>, body: Hash)
    requires IsRun(cfg, candidates, run)
    ensures body in SubmitGate.After(cfg, candidates, run).gate.inFlight <==> IsAtNode(cfg, candidates, run, body)
  {
    SlotsAlwaysExact(cfg, candidates, run);
  }

  /** What a reservation leaves in the histories of the two rings. */
  lemma {:induction false} ReservationGrants(cfg: Config, candidates: seq<Candidate>, run: Trace<Action>, id: nat,
                                             reason: Option<Reason>, now: Time)
    requires IsRun(cfg, candidates, run) && Enabled(SubmitGate.After(cfg, candidates, run), Reserves(id, reason, now))
    ensures var run', s := Then(run, Reserves(id, reason, now)), SubmitGate.After(cfg, candidates, run);
            var c := s.attempts[id].candidate;
            var granted := Reserved(cfg, s.gate, c, reason, now).rejected.None?;
            && IsRun(cfg, candidates, run')
            && Entered(cfg, candidates, run') == Entered(cfg, candidates, run)
            && Grants(cfg, candidates, run') == Grants(cfg, candidates, run)
                                                + (if cfg.enabled && granted then [Stamped(c.block, now)] else [])
            && (IsAtNode(cfg, candidates, run', c.body) <==> granted || IsAtNode(cfg, candidates, run, c.body))
  {
    hide Evict, Holds, Record, Occurrences, Owns, SlotsExact;
    var run', s := Then(run, Reserves(id, reason, now)), SubmitGate.After(cfg, candidates, run);
    InFlightIsAtNode(cfg, candidates, run, s.attempts[id].candidate.body);
    InFlightIsAtNode(cfg, candidates, run', s.attempts[id].candidate.body);
  }
}
