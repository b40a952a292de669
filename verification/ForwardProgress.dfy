/** Liveness of the forward protocol: nothing gets stuck, nothing goes round in
    circles, and when it is over nothing is left behind. */
module ForwardProgress {
  import opened Common
  import Ring = TimedRing
  import opened ForwardProtocol
  import opened ForwardSafety

  predicate Unfinished(c: Copy) {
    !c.caller.Finished? || !c.job.NoJob?
  }

  /** An action by which work gets done, as opposed to an arrival or a fault. */
  predicate Advances(a: Action) {
    !a.Arrive? && !a.Cancel? && !a.Panic? && !a.Abandon? && !a.AbandonUnverified?
  }

  // ---------------------------------------------------------------------------
  // No deadlock

  /** A copy with a permit never waits for another copy. */
  lemma HolderCanMove(cfg: Config, s: State, id: nat) returns (a: Action)
    requires Inv(cfg, s) && id < |s.copies| && HoldsPermit(s.copies[id])
    ensures Enabled(s, a) && Advances(a) && a.id == id
  {
    var c := s.copies[id];
    assert PhaseOk(cfg, c);
    a := match c.job
         case NoJob =>
           if c.caller.Rechecking? then Recheck(id, 0) else if c.caller.Dropping? then DropPermit(id) else Claim(id, 0)
         case CheckingSent => CheckSent(id, 0)
         case Parsing => Parse(id, true)
         case Reserving => Reserve(id, 0)
         case CheckingWork => CheckWork(id, true)
         case Built(_) => if c.caller.Preparing? then Deliver(id) else Discard(id);
  }

  /** Nor does a copy that owns a claim. */
  lemma OwnerCanMove(cfg: Config, s: State, id: nat) returns (a: Action)
    requires Inv(cfg, s) && id < |s.copies| && ClaimOf(s.copies[id]).Some?
    ensures Enabled(s, a) && Advances(a) && a.id == id
  {
    var c := s.copies[id];
    a := if c.caller.Dropping? then DropPermit(id) else if c.caller.Sending? then Commit(id, 0) else EndClaim(id);
  }

  lemma {:induction false} FindHolder(copies: seq<Copy>, pool: Pool) returns (id: nat)
    requires Holders(copies, pool) > 0
    ensures id < |copies| && copies[id].pool == pool && HoldsPermit(copies[id])
  {
    var n := |copies| - 1;
    if Weight(copies[n], pool) == 1 {
      id := n;
    } else {
      id := FindHolder(copies[..n], pool);
    }
  }

  /** While any copy or job is unfinished, some copy can take a step that waits on
      no other copy. */
  lemma SomeCopyCanMove(cfg: Config, s: State, id: nat) returns (a: Action)
    requires ValidConfig(cfg) && Inv(cfg, s) && (forall p :: p in cfg.permits ==> cfg.permits[p] >= 1)
    requires id < |s.copies| && Unfinished(s.copies[id])
    ensures Enabled(s, a) && Advances(a)
  {
    var c := s.copies[id];
    assert PhaseOk(cfg, c);
    if HoldsPermit(c) {
      a := HolderCanMove(cfg, s, id);
    } else if c.caller.Looking? {
      a := Look(id, 0);
    } else if c.caller.Claiming? {
      a := Claim(id, 0);
    } else if c.caller.SendingUnverified? {
      a := CommitUnverified(id, 0);
    } else if ClaimOf(c).Some? {
      a := OwnerCanMove(cfg, s, id);
    } else if c.caller.WantsPermit? {
      assert c.pool.Peers? || c.pool.Gateway?;
      if s.free[c.pool] > 0 {
        a := Acquire(id);
      } else {
        var holder := FindHolder(s.copies, c.pool);
        a := HolderCanMove(cfg, s, holder);
      }
    } else {
      var g, h := c.caller.gen, c.payload.header;
      if g in s.closed {
        a := Wake(id);
      } else {
        var owner :| OwnsClaim(s.copies, owner, h, s.inFlight[h]);
        a := OwnerCanMove(cfg, s, owner);
      }
    }
  }

  /** While a copy waits for another's send, or sends, it keeps no one from parsing. */
  lemma WaitersHoldNoPermit(cfg: Config, s: State, id: nat)
    requires Inv(cfg, s) && id < |s.copies|
    requires var c := s.copies[id].caller;
             c.WaitingEarly? || c.WaitingLate? || c.Sending? || c.SendingUnverified?
    ensures !HoldsPermit(s.copies[id])
  {
    assert PhaseOk(cfg, s.copies[id]);
  }

  // ---------------------------------------------------------------------------
  // No livelock: every step brings its copy nearer its end

  /** The most steps a copy takes before it next needs someone else's new claim. */
  const LONGEST := 32

  function JobRank(job: Job): nat {
    match job
    case NoJob => 0
    case Built(_) => 1
    case CheckingWork => 2
    case Reserving => 3
    case Parsing => 4
    case CheckingSent => 5
  }

  /** Waiting on the send in flight, on one that ended, or on one that ended while
      another started. */
  function WaitRank(inFlight: map<Hash, nat>, h: Hash, gen: nat): nat {
    if h !in inFlight then 0 else if inFlight[h] == gen then 2 else 7
  }

  function Rank(inFlight: map<Hash, nat>, ring: seq<Ring.Stamped>, c: Copy): nat {
    var h := c.payload.header;
    var flying := h in inFlight;
    match c.caller
    case Finished(_) => JobRank(c.job)
    case Committed(_) => 1
    case SendingUnverified => 1
    case Sending(_) => 2
    case Dropping(Finish(_)) => 1
    case Dropping(SendUnverified) => 2
    case Dropping(Send(_)) => 3
    case Claiming(_) => if flying then 10 else 4
    case WaitingLate(gen) => 5 + WaitRank(inFlight, h, gen)
    case Dropping(WaitFor(gen)) => 6 + WaitRank(inFlight, h, gen)
    case Preparing => 14 + JobRank(c.job)
    case Rechecking => if flying then 31 else if Ring.Holds(ring, h) then 26 else 20
    case WantsPermit => if flying then 32 else if Ring.Holds(ring, h) then 27 else 21
    case Looking => if flying then 27 else 22
    case Dropping(LookAgain) => if flying then 28 else 23
    case WaitingEarly(gen) => 23 + WaitRank(inFlight, h, gen)
  }

  /** The copy has not claimed and may yet. */
  predicate MayClaim(c: Copy) {
    match c.caller
    case Finished(_) => false
    case Committed(_) => false
    case SendingUnverified => false
    case Sending(_) => false
    case Dropping(next) => next.LookAgain? || next.WaitFor?
    case _ => true
  }

  function TotalRank(inFlight: map<Hash, nat>, ring: seq<Ring.Stamped>, copies: seq<Copy>): nat {
    if copies == [] then 0
    else TotalRank(inFlight, ring, copies[..|copies| - 1]) + Rank(inFlight, ring, copies[|copies| - 1])
  }

  function Claimants(copies: seq<Copy>): nat {
    if copies == [] then 0
    else Claimants(copies[..|copies| - 1]) + (if MayClaim(copies[|copies| - 1]) then 1 else 0)
  }

  /** An upper bound on the steps left before every copy has finished. */
  function Remaining(s: State): nat {
    Claimants(s.copies) * (LONGEST * |s.copies| + 1) + TotalRank(s.inFlight, s.ring, s.copies)
  }

  lemma {:induction false} TotalFalls(f: map<Hash, nat>, r: seq<Ring.Stamped>, cs: seq<Copy>,
                                      f': map<Hash, nat>, r': seq<Ring.Stamped>, cs': seq<Copy>, k: nat)
    requires |cs| == |cs'|
    requires forall i :: 0 <= i < |cs| ==> Rank(f', r', cs'[i]) <= Rank(f, r, cs[i])
    ensures TotalRank(f', r', cs') <= TotalRank(f, r, cs)
    ensures k < |cs| && Rank(f', r', cs'[k]) < Rank(f, r, cs[k]) ==> TotalRank(f', r', cs') < TotalRank(f, r, cs)
  {
    if cs != [] {
      var n := |cs| - 1;
      TotalFalls(f, r, cs[..n], f', r', cs'[..n], k);
    }
  }

  lemma {:induction false} TotalIsBounded(f: map<Hash, nat>, r: seq<Ring.Stamped>, cs: seq<Copy>)
    ensures TotalRank(f, r, cs) <= LONGEST * |cs|
  {
    if cs != [] {
      TotalIsBounded(f, r, cs[..|cs| - 1]);
    }
  }

  lemma {:induction false} ClaimantsFall(cs: seq<Copy>, cs': seq<Copy>, k: nat)
    requires |cs| == |cs'|
    requires forall i :: 0 <= i < |cs| && MayClaim(cs'[i]) ==> MayClaim(cs[i])
    ensures Claimants(cs') <= Claimants(cs) <= |cs|
    ensures k < |cs| && MayClaim(cs[k]) && !MayClaim(cs'[k]) ==> Claimants(cs') < Claimants(cs)
  {
    if cs != [] {
      var n := |cs| - 1;
      ClaimantsFall(cs[..n], cs'[..n], k);
    }
  }

  predicate TakesClaim(cfg: Config, s: State, a: Action) {
    Enabled(s, a) && a.Claim? && Found(cfg, s, s.copies[a.id], a.now).IsOpen?
  }

  lemma {:induction false} RankMonotone(f: map<Hash, nat>, r: seq<Ring.Stamped>, f': map<Hash, nat>,
                                        r': seq<Ring.Stamped>, c: Copy)
    requires var h := c.payload.header;
             (h in f' ==> h in f && f'[h] == f[h]) && (Ring.Holds(r', h) ==> Ring.Holds(r, h) || h in f')
    ensures Rank(f', r', c) <= Rank(f, r, c)
  {
  }

  /** Short of a new claim, a step makes nothing harder for any copy. */
  lemma {:induction false} OthersDoNotRise(cfg: Config, s: State, a: Action, c: Copy)
    requires Inv(cfg, s) && Enabled(s, a) && !a.Arrive? && !TakesClaim(cfg, s, a)
    ensures Rank(Shared(cfg, s, a).inFlight, Shared(cfg, s, a).ring, c) <= Rank(s.inFlight, s.ring, c)
  {
    var s' := Shared(cfg, s, a);
    RingFrame(cfg, s, a);
    if !a.Claim? && !a.EndClaim? && !a.Abandon? {
      ClaimsFrame(cfg, s, a);
    }
    RankMonotone(s.inFlight, s.ring, s'.inFlight, s'.ring, c);
  }

  /** The steps that read the block's state. */
  lemma {:induction false} ReadingFalls(cfg: Config, s: State, a: Action)
    requires Inv(cfg, s) && Enabled(s, a) && (a.Look? || a.Recheck? || a.Claim?) && !TakesClaim(cfg, s, a)
    ensures Rank(s.inFlight, Swept(cfg, s, a.now), Moved(cfg, s, a)) < Rank(s.inFlight, s.ring, s.copies[a.id])
  {
    assert PhaseOk(cfg, s.copies[a.id]);
    EvictedRing(s.ring, a.now, cfg.window);
  }

  /** The steps that do not. */
  lemma {:induction false} OtherStepsFall(cfg: Config, s: State, a: Action)
    requires Enabled(s, a) && !a.Arrive? && !a.Look? && !a.Recheck? && !a.Claim?
    requires PhaseOk(cfg, s.copies[a.id]) && GenerationsOk(s)
    ensures Rank(s.inFlight, s.ring, Moved(cfg, s, a)) < Rank(s.inFlight, s.ring, s.copies[a.id])
  {
  }

  lemma {:induction false} OwnRankFalls(cfg: Config, s: State, a: Action)
    requires Inv(cfg, s) && Enabled(s, a) && !a.Arrive? && !TakesClaim(cfg, s, a)
    ensures var s' := Shared(cfg, s, a);
            Rank(s'.inFlight, s'.ring, Moved(cfg, s, a)) < Rank(s.inFlight, s.ring, s.copies[a.id])
  {
    if a.Look? || a.Recheck? || a.Claim? {
      ReadingFalls(cfg, s, a);
    } else {
      assert PhaseOk(cfg, s.copies[a.id]);
      OtherStepsFall(cfg, s, a);
      OthersDoNotRise(cfg, s, a, Moved(cfg, s, a));
    }
  }

  lemma {:induction false} ClaimantFrame(cfg: Config, s: State, a: Action)
    requires Enabled(s, a) && !a.Arrive? && PhaseOk(cfg, s.copies[a.id])
    ensures MayClaim(Moved(cfg, s, a)) ==> MayClaim(s.copies[a.id])
    ensures TakesClaim(cfg, s, a) ==> !MayClaim(Moved(cfg, s, a)) && MayClaim(s.copies[a.id])
  {
  }

  /** Every step but an arrival, faults included, leaves fewer steps to take. */
  lemma {:induction false} RemainingFalls(cfg: Config, s: State, a: Action)
    requires Inv(cfg, s) && Enabled(s, a) && !a.Arrive?
    ensures Remaining(Step(cfg, s, a)) < Remaining(s)
  {
    hide Inv, TakesClaim, Claimants, TotalRank, Moved, Shared;
    var s' := Step(cfg, s, a);
    ClaimantsAfterStep(cfg, s, a);
    if TakesClaim(cfg, s, a) {
      TotalIsBounded(s'.inFlight, s'.ring, s'.copies);
    } else {
      TotalAfterStep(cfg, s, a);
    }
    Weigh(Claimants(s'.copies), Claimants(s.copies), LONGEST * |s.copies| + 1,
          TotalRank(s'.inFlight, s'.ring, s'.copies), TotalRank(s.inFlight, s.ring, s.copies));
  }

  lemma {:induction false} ClaimantsAfterStep(cfg: Config, s: State, a: Action)
    requires Inv(cfg, s) && Enabled(s, a) && !a.Arrive?
    ensures |Step(cfg, s, a).copies| == |s.copies|
    ensures Claimants(Step(cfg, s, a).copies) <= Claimants(s.copies)
    ensures TakesClaim(cfg, s, a) ==> Claimants(Step(cfg, s, a).copies) < Claimants(s.copies)
  {
    hide Moved, Shared, MayClaim, TakesClaim, ClaimsExact, GenerationsOk, WaitersOk, PermitsConserved, RingOk, LedgerOk;
    assert PhaseOk(cfg, s.copies[a.id]);
    ClaimantFrame(cfg, s, a);
    ClaimantsFall(s.copies, Step(cfg, s, a).copies, a.id);
  }

  lemma {:induction false} TotalAfterStep(cfg: Config, s: State, a: Action)
    requires Inv(cfg, s) && Enabled(s, a) && !a.Arrive? && !TakesClaim(cfg, s, a)
    ensures var s' := Step(cfg, s, a);
            TotalRank(s'.inFlight, s'.ring, s'.copies) < TotalRank(s.inFlight, s.ring, s.copies)
  {
    hide Rank, Moved, Shared, Inv;
    var s' := Step(cfg, s, a);
    OwnRankFalls(cfg, s, a);
    forall i | 0 <= i < |s.copies|
      ensures Rank(s'.inFlight, s'.ring, s'.copies[i]) <= Rank(s.inFlight, s.ring, s.copies[i])
    {
      OthersDoNotRise(cfg, s, a, s.copies[i]);
    }
    TotalFalls(s.inFlight, s.ring, s.copies, s'.inFlight, s'.ring, s'.copies, a.id);
  }

  lemma {:induction false} Weigh(c': nat, c: nat, m: nat, t': nat, t: nat)
    requires (c' < c && t' < m) || (c' <= c && t' < t)
    ensures c' * m + t' < c * m + t
  {
    MoreIsMore(c', c, m);
  }

  lemma {:induction false} MoreIsMore(x: nat, y: nat, m: nat)
    ensures x <= y ==> x * m <= y * m
    ensures x < y ==> x * m + m <= y * m
  {
    if x < y {
      MoreIsMore(x, y - 1, m);
      assert y * m == (y - 1) * m + m;
    }
  }

  /** `run` continues `start` and no copy arrives in between. */
  predicate Continues(run: Trace<Action>, start: Trace<Action>) {
    run == start || (run.Then? && !run.last.Arrive? && Continues(run.before, start))
  }

  function Steps(run: Trace<Action>, start: Trace<Action>): nat
    requires Continues(run, start)
  {
    if run == start then 0 else 1 + Steps(run.before, start)
  }

  /** No livelock. Once `n` copies have arrived, whatever the schedule and whatever
      fails, at most `33 * n * (n + 1)` more steps are possible. */
  lemma {:induction false} RunsEnd(cfg: Config, run: Trace<Action>, start: Trace<Action>)
    requires ValidConfig(cfg) && IsRun(cfg, run) && Continues(run, start) && IsRun(cfg, start)
    ensures Steps(run, start) + Remaining(After(cfg, run)) <= Remaining(After(cfg, start))
    ensures var n := |After(cfg, start).copies|; Remaining(After(cfg, start)) <= 33 * n * (n + 1)
  {
    if run == start {
      RemainingIsBounded(After(cfg, start));
    } else {
      RunsEnd(cfg, run.before, start);
      InvHolds(cfg, run.before);
      RemainingFalls(cfg, After(cfg, run.before), run.last);
    }
  }

  lemma {:induction false} RemainingIsBounded(s: State)
    ensures Remaining(s) <= 33 * |s.copies| * (|s.copies| + 1)
  {
    var n := |s.copies|;
    ClaimantsFall(s.copies, s.copies, 0);
    TotalIsBounded(s.inFlight, s.ring, s.copies);
    MoreIsMore(Claimants(s.copies), n, LONGEST * n + 1);
    assert n * (LONGEST * n + 1) + LONGEST * n <= 33 * n * (n + 1);
  }

  /** When only an arrival could come next, every copy has finished, nothing is in
      flight, every permit is back, and every place in the ledger was sent. */
  lemma {:induction false} QuietMeansClean(cfg: Config, run: Trace<Action>)
    requires ValidConfig(cfg) && IsRun(cfg, run) && (forall p :: p in cfg.permits ==> cfg.permits[p] >= 1)
    requires forall a :: Advances(a) ==> !Enabled(After(cfg, run), a)
    ensures var s := After(cfg, run);
            && (forall id :: 0 <= id < |s.copies| ==> !Unfinished(s.copies[id]))
            && s.inFlight == map[] && s.free == cfg.permits
            && (forall e :: e in s.unverified ==> e.sent)
  {
    InvHolds(cfg, run);
    var s := After(cfg, run);
    forall h | h in s.inFlight ensures false {
      var id :| OwnsClaim(s.copies, id, h, s.inFlight[h]);
      var a := OwnerCanMove(cfg, s, id);
    }
    forall p | p in s.free ensures s.free[p] == cfg.permits[p] {
      if Holders(s.copies, p) > 0 {
        var id := FindHolder(s.copies, p);
        var a := HolderCanMove(cfg, s, id);
      }
    }
    forall e | e in s.unverified ensures e.sent {
      if !e.sent {
        var id :| OwnsSlot(s.copies, id, e.body);
        var a := SomeCopyCanMove(cfg, s, id);
      }
    }
    forall id | 0 <= id < |s.copies| ensures !Unfinished(s.copies[id]) {
      if Unfinished(s.copies[id]) {
        var a := SomeCopyCanMove(cfg, s, id);
      }
    }
  }
}
