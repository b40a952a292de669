/** How many unverified attempts one block gets out of the submission gate, and how many
    other attempts it takes to give it more. */
module GateBudget {
  import opened Common
  import opened TimedRing
  import opened GateWindow
  import opened SubmitGate

  /** No reservation was made by a block that already had `perBlock` among the last
      `capacity` within the window. */
  ghost predicate WithinBudget(h: seq<Stamped>, capacity: nat, window: nat, perBlock: nat) {
    forall m :: 0 <= m < |h| ==> Occurrences(Evict(Recent(h[..m], capacity), h[m].at, window), h[m].key) < perBlock
  }

  lemma {:induction false} ReservationsWithinBudget(cfg: Config, candidates: seq<Candidate>, run: Trace<Action>,
                                                    now: Time)
    requires IsRun(cfg, candidates, run) && Ordered(run, now)
    ensures WithinBudget(History(AttemptCalls(cfg, candidates, run)), cfg.capacity, cfg.window, cfg.perBlock)
  {
    hide Evict, Occurrences, Recent, Holds;
    if run.Then? {
      var a := run.last;
      var t := if a.Strict? || a.Reserves? || a.Records? then a.now else now;
      ReservationsWithinBudget(cfg, candidates, run.before, t);
      if a.Reserves? {
        var calls := AttemptCalls(cfg, candidates, run.before);
        var h := History(calls);
        RingsSawCalls(cfg, candidates, run.before);
        CallsAreOrdered(cfg, candidates, run.before, t);
        RingIsRecent(calls, cfg.capacity, cfg.window, t);
        var h' := History(AttemptCalls(cfg, candidates, run));
        assert forall m :: 0 <= m < |h| ==> h'[..m] == h[..m];
        assert h'[..|h|] == h;
      }
    }
  }

  lemma {:induction false} OccurrencesJoin(a: seq<Stamped>, b: seq<Stamped>, key: Hash)
    ensures Occurrences(a + b, key) == Occurrences(a, key) + Occurrences(b, key)
  {
    if a == [] {
      assert a + b == b;
    } else {
      assert (a + b)[1..] == a[1..] + b;
      OccurrencesJoin(a[1..], b, key);
    }
  }

  lemma {:induction false} OccurrencesSnoc(a: seq<Stamped>, x: Stamped, key: Hash)
    ensures Occurrences(a + [x], key) == Occurrences(a, key) + if x.key == key then 1 else 0
  {
    OccurrencesJoin(a, [x], key);
    assert Occurrences([x][1..], key) == 0;
  }

  lemma {:induction false} OccurrencesOfNone(a: seq<Stamped>, key: Hash)
    requires a == []
    ensures Occurrences(a, key) == 0
  {
  }

  /** The stretch before a reservation fits in the window if the longer one does. */
  lemma {:induction false} SortedAt(h: seq<Stamped>, i: nat, m: nat)
    requires Sorted(h) && i <= m < |h|
    ensures i < m ==> h[m - 1].at <= h[m].at
  {
  }

  /** What the ring holds when reservation `m` is made begins no later than `i`. */
  lemma {:induction false} KeptFrom(h: seq<Stamped>, i: nat, m: nat, capacity: nat, window: nat)
    returns (kept: seq<Stamped>)
    requires i <= m < |h| && Sorted(h) && (capacity == 0 || m - i <= capacity) && h[m].at - h[i].at <= window
    ensures kept == Evict(Recent(h[..m], capacity), h[m].at, window) && m - i <= |kept| <= m && kept == h[m - |kept|..m]
  {
    hide Evict;
    var before := h[..m];
    assert Sorted(before);
    var room := if capacity == 0 then m else capacity;
    assert Recent(before, capacity) == Last(before, room);
    kept := Evict(Last(before, room), h[m].at, window);
    EvictIsEviction(Last(before, room), h[m].at, window);
    KeptIsFresh(before, Last(before, room), kept, room, window, h[m].at);
    if i < m {
      assert before[i] == h[i] && !Expired(before[i], h[m].at, window);
    }
  }

  /** Reservations in a row that are fresh and not too many are all in the ring. */
  lemma {:induction false} FreshAreCounted(h: seq<Stamped>, i: nat, m: nat, capacity: nat, window: nat, key: Hash)
    requires i <= m < |h| && Sorted(h) && (capacity == 0 || m - i <= capacity) && h[m].at - h[i].at <= window
    ensures Occurrences(h[i..m], key) <= Occurrences(Evict(Recent(h[..m], capacity), h[m].at, window), key)
  {
    hide Occurrences;
    var kept := KeptFrom(h, i, m, capacity, window);
    var start := m - |kept|;
    assert h[start..m] == h[start..i] + h[i..m];
    OccurrencesJoin(h[start..i], h[i..m], key);
  }

  lemma {:induction false} BudgetOfHistory(h: seq<Stamped>, i: nat, j: nat, capacity: nat, window: nat, perBlock: nat,
                                           key: Hash)
    requires Sorted(h) && WithinBudget(h, capacity, window, perBlock)
    requires i <= j <= |h| && (capacity == 0 || j - i <= capacity + 1) && (i < j ==> h[j - 1].at - h[i].at <= window)
    ensures Occurrences(h[i..j], key) <= perBlock
    decreases j
  {
    hide Evict, Recent, Sorted, Occurrences;
    if i < j {
      var m := j - 1;
      assert h[i..j] == h[i..m] + [h[m]];
      OccurrencesSnoc(h[i..m], h[m], key);
      if h[m].key == key {
        FreshAreCounted(h, i, m, capacity, window, key);
      } else {
        SortedAt(h, i, m);
        BudgetOfHistory(h, i, m, capacity, window, perBlock, key);
      }
    } else {
      OccurrencesOfNone(h[i..j], key);
    }
  }

  /** The reservations an enabled gate granted, in order. */
  function Grants(cfg: Config, candidates: seq<Candidate>, run: Trace<Action>): seq<Stamped>
    requires IsRun(cfg, candidates, run)
  {
    if run.Start? then [] else
      var before, s, a := Grants(cfg, candidates, run.before), SubmitGate.After(cfg, candidates, run.before), run.last;
      if a.Reserves? && cfg.enabled && Reserved(cfg, s.gate, s.attempts[a.id].candidate, a.chain, a.now).rejected.None?
      then before + [Stamped(s.attempts[a.id].candidate.block, a.now)]
      else before
  }

  lemma {:induction false} GrantsAreRecorded(cfg: Config, candidates: seq<Candidate>, run: Trace<Action>)
    requires IsRun(cfg, candidates, run)
    ensures History(AttemptCalls(cfg, candidates, run)) == Grants(cfg, candidates, run)
  {
    hide Reserved;
    if run.Then? {
      GrantsAreRecorded(cfg, candidates, run.before);
    }
  }

  /** `n` grants in a row that fit in the window, from grant `i` on. */
  ghost predicate IsStretch(cfg: Config, candidates: seq<Candidate>, run: Trace<Action>, now: Time, i: nat, n: nat) {
    && IsRun(cfg, candidates, run) && Ordered(run, now)
    && var h := Grants(cfg, candidates, run);
    i + n <= |h| && (n > 0 ==> h[i + n - 1].at - h[i].at <= cfg.window)
  }

  /** In any stretch of at most `capacity + 1` grants that fits in the window, one block
      has at most `perBlock`; at capacity 0 in any stretch that does. */
  lemma {:induction false} AttemptBudget(cfg: Config, candidates: seq<Candidate>, run: Trace<Action>, now: Time,
                                         i: nat, n: nat,
                                         block: Hash)
    requires IsStretch(cfg, candidates, run, now, i, n) && (cfg.capacity == 0 || n <= cfg.capacity + 1)
    ensures Occurrences(Grants(cfg, candidates, run)[i..i + n], block) <= cfg.perBlock
  {
    hide Grants, AttemptCalls, History, Occurrences, WithinBudget, Sorted, NondecreasingTo, Evict;
    GrantsAreRecorded(cfg, candidates, run);
    ReservationsWithinBudget(cfg, candidates, run, now);
    CallsAreOrdered(cfg, candidates, run, now);
    HistoryIsSorted(AttemptCalls(cfg, candidates, run), now);
    BudgetOfHistory(Grants(cfg, candidates, run), i, i + n, cfg.capacity, cfg.window, cfg.perBlock, block);
  }

  /** An attempt is turned down for the budget exactly when the last `capacity` grants
      hold `perBlock` fresh ones of its block; at capacity 0, when all of them do. */
  lemma {:induction false} LimitIsExact(cfg: Config, candidates: seq<Candidate>, run: Trace<Action>, c: Candidate,
                                        now: Time)
    requires IsRun(cfg, candidates, run) && Ordered(run, now) && cfg.enabled
    requires Reserved(cfg, SubmitGate.After(cfg, candidates, run).gate, c, None, now).rejected != Some(DuplicateSubmit)
    ensures Reserved(cfg, SubmitGate.After(cfg, candidates, run).gate, c, None, now).rejected == Some(UnverifiedLimit)
            <==> Occurrences(Evict(Recent(Grants(cfg, candidates, run), cfg.capacity), now, cfg.window),
              c.block) >= cfg.perBlock
  {
    hide Grants, AttemptCalls, History, Occurrences, Evict, Recent, Holds;
    GrantsAreRecorded(cfg, candidates, run);
    RingsSawCalls(cfg, candidates, run);
    CallsAreOrdered(cfg, candidates, run, now);
    RingIsRecent(AttemptCalls(cfg, candidates, run), cfg.capacity, cfg.window, now);
  }

  // ---------------------------------------------------------------------------
  // Floods

  /** `n` candidates, all different bodies: the first `p` and the last are of block 0, the
      others of blocks of their own. */
  function Flood(p: nat, n: nat): seq<Candidate> {
    seq(n, i requires 0 <= i < n => Candidate(FloodBlock(p, n, i), i))
  }

  function FloodBlock(p: nat, n: nat, i: int): Hash {
    if i < p || i == n - 1 then 0 else i + 1
  }

  /** What the first `i` of them would leave in an unbounded ring. */
  function Flooded(p: nat, n: nat, i: nat): seq<Stamped> {
    seq(i, k => Stamped(FloodBlock(p, n, k), 0))
  }

  lemma {:induction false} OccurrencesAtMost(s: seq<Stamped>, key: Hash)
    ensures Occurrences(s, key) <= |s|
  {
    if s != [] {
      OccurrencesAtMost(s[1..], key);
    }
  }

  lemma {:induction false} OccurrencesWhere(s: seq<Stamped>, key: Hash)
    ensures (forall k :: 0 <= k < |s| ==> s[k].key != key) ==> Occurrences(s, key) == 0
    ensures (forall k :: 0 <= k < |s| ==> s[k].key == key) ==> Occurrences(s, key) == |s|
  {
    if s != [] {
      OccurrencesWhere(s[1..], key);
    }
  }

  /** Each of them finds room in the budget: block 0 its last time because one of its
      first attempts has been pushed out, or because the ring cannot hold `p`. */
  lemma {:induction false} FloodHasRoom(p: nat, n: nat, capacity: nat, i: nat)
    requires 1 <= p < n && 1 <= capacity && capacity + 2 <= n && i < n
    ensures Occurrences(Last(Flooded(p, n, i), capacity), FloodBlock(p, n, i)) < p
  {
    hide Occurrences;
    var all, key := Flooded(p, n, i), FloodBlock(p, n, i);
    var start := if i <= capacity then 0 else i - capacity;
    assert Last(all, capacity) == all[start..];
    if i < p {
      OccurrencesAtMost(all[start..], key);
    } else if i < n - 1 {
      OccurrencesWhere(all[start..], key);
    } else {
      FewAreLeft(p, n, start);
    }
  }

  /** Of the attempts before the last, one at least of the first `p` is gone. */
  lemma {:induction false} FewAreLeft(p: nat, n: nat, start: nat)
    requires 1 <= p < n && 1 <= start <= n - 1
    ensures Occurrences(Flooded(p, n, n - 1)[start..], 0) < p
  {
    hide Occurrences;
    var all, cut := Flooded(p, n, n - 1), if start <= p then p else start;
    assert all[start..] == all[start..cut] + all[cut..];
    OccurrencesJoin(all[start..cut], all[cut..], 0);
    OccurrencesWhere(all[cut..], 0);
    if start <= p {
      OccurrencesAtMost(all[start..cut], 0);
    } else {
      OccurrencesWhere(all[start..cut], 0);
    }
  }

  /** The gate after the first `i` attempts, all at time 0 and all ended. */
  ghost predicate FloodState(cfg: Config, p: nat, n: nat, i: nat, s: State) {
    && s.gate == Gate([], Last(Flooded(p, n, i), cfg.capacity), {})
    && |s.attempts| == n
    && (forall k :: 0 <= k < n ==>
      s.attempts[k].candidate == Flood(p, n)[k] && (k >= i ==> s.attempts[k].phase == Ready))
  }

  /** One attempt is granted, and fails before the next is made. */
  lemma {:induction false} FloodStep(cfg: Config, p: nat, n: nat, i: nat, s: State)
    requires cfg.enabled && cfg.perBlock == p && 1 <= p < n && 1 <= cfg.capacity && cfg.capacity + 2 <= n && i < n
    requires FloodState(cfg, p, n, i, s)
    ensures Enabled(s, Reserves(i, None, 0)) && Reserved(cfg, s.gate, s.attempts[i].candidate, None, 0).rejected.None?
    ensures var granted := Step(cfg, s, Reserves(i, None, 0));
            && granted.gate.inFlight == {i} && Enabled(granted, Answers(i, Reply.Failed))
            && FloodState(cfg, p, n, i + 1, Step(cfg, granted, Answers(i, Reply.Failed)))
  {
    hide Occurrences;
    FloodHasRoom(p, n, cfg.capacity, i);
    var all, c := Flooded(p, n, i), s.attempts[i].candidate;
    assert Flooded(p, n, i + 1) == all + [Stamped(c.block, 0)];
    assert Evict(s.gate.attempts, 0, cfg.window) == s.gate.attempts;
    var granted := Step(cfg, s, Reserves(i, None, 0));
    assert granted.gate.attempts == Push(s.gate.attempts, cfg.capacity, Stamped(c.block, 0));
    assert granted.gate.attempts == Last(all + [Stamped(c.block, 0)], cfg.capacity);
    assert granted.attempts[i].phase == AtZebra && granted.gate.inFlight == {i};
  }

  /** At no point of the run is more than one body at the node. */
  ghost predicate OneAtATime(cfg: Config, candidates: seq<Candidate>, run: Trace<Action>)
    requires IsRun(cfg, candidates, run)
  {
    && |SubmitGate.After(cfg, candidates, run).gate.inFlight| <= 1
    && (run.Then? ==> OneAtATime(cfg, candidates, run.before))
  }

  lemma {:induction false} FloodRun(cfg: Config, p: nat, n: nat, i: nat) returns (run: Trace<Action>)
    requires cfg.enabled && cfg.perBlock == p && 1 <= p < n && 1 <= cfg.capacity && cfg.capacity + 2 <= n && i <= n
    ensures IsRun(cfg, Flood(p, n), run) && Ordered(run, 0) && Grants(cfg, Flood(p, n), run) == Flooded(p, n, i)
    ensures FloodState(cfg, p, n, i, SubmitGate.After(cfg, Flood(p, n), run)) && OneAtATime(cfg, Flood(p, n), run)
  {
    hide Reserved, Step, Enabled;
    if i == 0 {
      run := Start;
      NoFlood(cfg, p, n);
    } else {
      var before := FloodRun(cfg, p, n, i - 1);
      FloodStep(cfg, p, n, i - 1, SubmitGate.After(cfg, Flood(p, n), before));
      var granted := Then(before, Reserves(i - 1, None, 0));
      assert IsRun(cfg, Flood(p, n), granted) && OneAtATime(cfg, Flood(p, n), granted);
      assert Flooded(p, n, i) == Flooded(p, n, i - 1) + [Stamped(FloodBlock(p, n, i - 1), 0)];
      assert Grants(cfg, Flood(p, n), granted) == Flooded(p, n, i) && Ordered(granted, 0);
      run := Then(granted, Answers(i - 1, Reply.Failed));
    }
  }

  lemma {:induction false} NoFlood(cfg: Config, p: nat, n: nat)
    ensures FloodState(cfg, p, n, 0, Init(Flood(p, n)))
  {
  }

  /** Any longer stretch can give a block more than its budget: for every window, every
      capacity but 0 and every budget but 0, a run at one instant with `n` grants,
      `perBlock + 1` of them of one block, and never more than one attempt at the node. */
  lemma {:induction false} FloodRestoresTheBudget(cfg: Config, n: nat)
    returns (candidates: seq<Candidate>, run: Trace<Action>)
    requires cfg.enabled && cfg.perBlock >= 1 && cfg.capacity >= 1
    requires n > cfg.capacity + 1 && n > cfg.perBlock
    ensures IsStretch(cfg, candidates, run, 0, 0, n) && |Grants(cfg, candidates, run)| == n
    ensures Occurrences(Grants(cfg, candidates, run)[0..n], 0) == cfg.perBlock + 1
    ensures OneAtATime(cfg, candidates, run)
  {
    hide Occurrences, Grants;
    var p := cfg.perBlock;
    candidates := Flood(p, n);
    run := FloodRun(cfg, p, n, n);
    var all := Flooded(p, n, n);
    assert all[0..n] == all[..p] + (all[p..n - 1] + all[n - 1..]);
    OccurrencesJoin(all[..p], all[p..n - 1] + all[n - 1..], 0);
    OccurrencesJoin(all[p..n - 1], all[n - 1..], 0);
    OccurrencesWhere(all[..p], 0);
    OccurrencesWhere(all[p..n - 1], 0);
    OccurrencesWhere(all[n - 1..], 0);
  }

  ghost predicate InBudget(cfg: Config, candidates: seq<Candidate>, run: Trace<Action>, i: nat, n: nat, block: Hash)
    requires IsRun(cfg, candidates, run) && i + n <= |Grants(cfg, candidates, run)|
  {
    Occurrences(Grants(cfg, candidates, run)[i..i + n], block) <= cfg.perBlock
  }

  /** In every run, `n` grants in a row within the window keep every block's budget. */
  ghost predicate BudgetHolds(cfg: Config, n: nat) {
    forall candidates, run, now, i: nat, block | IsStretch(cfg, candidates, run, now, i, n) ::
      InBudget(cfg, candidates, run, i, n, block)
  }

  /** The budget of `perBlock` per window holds for exactly the stretches of up to
      `capacity + 1` or `perBlock` grants, whichever is more; without end only for a
      disabled gate, which grants none, for a budget of 0 or a ring of capacity 0. */
  lemma {:induction false} BudgetExactly(cfg: Config, n: nat)
    ensures BudgetHolds(cfg, n)
            <==> !cfg.enabled || cfg.perBlock == 0 || cfg.capacity == 0 || n <= cfg.capacity + 1 || n <= cfg.perBlock
  {
    hide Occurrences, Grants;
    if cfg.enabled && cfg.perBlock >= 1 && cfg.capacity >= 1 && n > cfg.capacity + 1 && n > cfg.perBlock {
      var candidates, run := FloodRestoresTheBudget(cfg, n);
      assert IsStretch(cfg, candidates, run, 0, 0, n);
      assert !InBudget(cfg, candidates, run, 0, n, 0);
    } else {
      forall candidates, run, now, i: nat, block | IsStretch(cfg, candidates, run, now, i, n)
        ensures InBudget(cfg, candidates, run, i, n, block)
      {
        StretchKeepsBudget(cfg, candidates, run, now, i, n, block);
      }
    }
  }

  lemma {:induction false} StretchKeepsBudget(cfg: Config, candidates: seq<Candidate>, run: Trace<Action>, now: Time,
                                              i: nat, n: nat,
                                              block: Hash)
    requires IsStretch(cfg, candidates, run, now, i, n)
    requires !cfg.enabled || cfg.perBlock == 0 || cfg.capacity == 0 || n <= cfg.capacity + 1 || n <= cfg.perBlock
    ensures Occurrences(Grants(cfg, candidates, run)[i..i + n], block) <= cfg.perBlock
  {
    hide Occurrences, Grants;
    OccurrencesAtMost(Grants(cfg, candidates, run)[i..i + n], block);
    if !cfg.enabled || cfg.perBlock == 0 {
      NothingGranted(cfg, candidates, run);
    } else if n > cfg.perBlock {
      AttemptBudget(cfg, candidates, run, now, i, n, block);
    }
  }

  lemma {:induction false} NothingGranted(cfg: Config, candidates: seq<Candidate>, run: Trace<Action>)
    requires IsRun(cfg, candidates, run) && (!cfg.enabled || cfg.perBlock == 0)
    ensures Grants(cfg, candidates, run) == []
  {
    if run.Then? {
      NothingGranted(cfg, candidates, run.before);
    }
  }

  /** A budget over the capacity of a bounded ring is never enforced: the ring cannot hold
      as many attempts as it would have to count. */
  lemma {:induction false} LimitNeverFires(cfg: Config, candidates: seq<Candidate>, run: Trace<Action>, c: Candidate,
                                           now: Time)
    requires IsRun(cfg, candidates, run) && 1 <= cfg.capacity < cfg.perBlock
    ensures Reserved(cfg, SubmitGate.After(cfg, candidates, run).gate, c, None, now).rejected != Some(UnverifiedLimit)
  {
    hide Evict, Occurrences, Holds;
    var ring := SubmitGate.After(cfg, candidates, run).gate.attempts;
    RingsSawCalls(cfg, candidates, run);
    NeverDroppedEarly(AttemptCalls(cfg, candidates, run), cfg.capacity, cfg.window);
    EvictIsEviction(ring, now, cfg.window);
    OccurrencesAtMost(Evict(ring, now, cfg.window), c.block);
  }
}
