/** When copies of one block get in each other's way after validation. A copy that finds
    the block claimed waits, keeping what it prepared, and sends if the claim fails; one
    that finds the block forwarded throws its parse away. */
module ForwardRace {
  import opened Common
  import Ring = TimedRing
  import Bodies = UnverifiedForwards
  import opened RecentForwarded
  import opened ForwardProtocol
  import opened ForwardSafety
  import opened ForwardDedup

  predicate ArrivalsUse(run: Trace<Action>, pools: set<Pool>) {
    run.Then? ==> ArrivalsUse(run.before, pools) && (run.last.Arrive? ==> run.last.pool in pools)
  }

  function PermitsOf(cfg: Config, pools: set<Pool>, pool: Pool): nat {
    if pool in pools && pool in cfg.permits then cfg.permits[pool] else 0
  }

  /** The permits that copies from these pools can use. */
  function Usable(cfg: Config, pools: set<Pool>): nat {
    PermitsOf(cfg, pools, Peers) + PermitsOf(cfg, pools, Gateway)
  }

  /** A copy that has just validated its body does not find its block open. */
  ghost predicate Loses(cfg: Config, run: Trace<Action>, id: nat, now: Time) {
    && IsRun(cfg, run) && id < |After(cfg, run).copies|
    && After(cfg, run).copies[id].caller == Claiming(true)
    && !Found(cfg, After(cfg, run), After(cfg, run).copies[id], now).IsOpen?
  }

  // ---------------------------------------------------------------------------
  // With one permit no copy loses

  ghost predicate UsePools(s: State, pools: set<Pool>) {
    forall id :: 0 <= id < |s.copies| ==> s.copies[id].pool in pools
  }

  predicate IsOpenFor(s: State, c: Copy) {
    c.payload.header !in s.inFlight && !Ring.Holds(s.ring, c.payload.header)
  }

  /** The copy has been past the recheck and has not tried to claim yet. */
  predicate BetweenRecheckAndClaim(c: Copy) {
    c.caller.Preparing? || c.caller.Claiming?
  }

  /** No copy ever lost a claim, and the one that holds the permit will not. */
  ghost predicate NothingWasted(s: State) {
    forall id :: 0 <= id < |s.copies| ==>
      var c := s.copies[id];
      && !c.caller.WaitingLate? && c.caller != Claiming(false) && !(c.caller.Dropping? && c.caller.next.WaitFor?)
      && (BetweenRecheckAndClaim(c) ==> IsOpenFor(s, c))
  }

  lemma {:induction false} TwoHolders(copies: seq<Copy>, pool: Pool, i: nat, j: nat)
    requires i < j < |copies| && Weight(copies[i], pool) == 1 && Weight(copies[j], pool) == 1
    ensures Holders(copies, pool) >= 2
  {
    var n := |copies| - 1;
    if j < n {
      TwoHolders(copies[..n], pool, i, j);
    } else {
      OneHolder(copies[..n], pool, i);
    }
  }

  lemma {:induction false} OneHolder(copies: seq<Copy>, pool: Pool, i: nat)
    requires i < |copies| && Weight(copies[i], pool) == 1
    ensures Holders(copies, pool) >= 1
  {
    var n := |copies| - 1;
    if i < n {
      OneHolder(copies[..n], pool, i);
    }
  }

  /** Two copies that hold a permit hold two. */
  lemma {:induction false} HoldersAreUsable(cfg: Config, s: State, pools: set<Pool>, i: nat, j: nat)
    requires ValidConfig(cfg) && PermitsConserved(cfg, s) && UsePools(s, pools)
    requires i < j < |s.copies| && HoldsPermit(s.copies[i]) && HoldsPermit(s.copies[j])
    ensures Usable(cfg, pools) >= 2
  {
    var p, q := s.copies[i].pool, s.copies[j].pool;
    assert (p.Peers? || p.Gateway?) && (q.Peers? || q.Gateway?);
    if p == q {
      TwoHolders(s.copies, p, i, j);
    } else {
      OneHolder(s.copies, p, i);
      OneHolder(s.copies, q, j);
    }
  }

  /** What one step can do to the block of another copy that is still open. */
  lemma {:induction false} OpenFrame(cfg: Config, s: State, a: Action, c: Copy)
    requires Inv(cfg, s) && Enabled(s, a) && !a.Arrive? && IsOpenFor(s, c)
    ensures IsOpenFor(Shared(cfg, s, a), c) || (a.Claim? && s.copies[a.id].caller.Claiming?)
  {
    RingFrame(cfg, s, a);
    if a.Commit? {
      assert OwnsClaim(s.copies, a.id, s.copies[a.id].payload.header, s.copies[a.id].caller.gen);
    }
    if !a.Claim? && !a.EndClaim? && !a.Abandon? {
      ClaimsFrame(cfg, s, a);
    }
  }

  lemma {:induction false} OwnMove(cfg: Config, s: State, a: Action)
    requires Inv(cfg, s) && Enabled(s, a) && !a.Arrive? && NothingWasted(s)
    ensures var c := Moved(cfg, s, a);
            && !c.caller.WaitingLate? && c.caller != Claiming(false) && !(c.caller.Dropping? && c.caller.next.WaitFor?)
            && (BetweenRecheckAndClaim(c) ==> IsOpenFor(Shared(cfg, s, a), c))
  {
    hide ClaimsExact, GenerationsOk, WaitersOk, PermitsConserved, DistinctKeys, LedgerOk, Bodies.Reserve, Bodies.Commit,
         Bodies.Without, Bodies.Sent;
    var c := s.copies[a.id];
    assert PhaseOk(cfg, c);
    if a.Look? || a.Recheck? || a.Claim? {
      EvictedRing(s.ring, a.now, cfg.window);
    }
  }

  lemma {:induction false} NothingWastedKept(cfg: Config, s: State, a: Action, pools: set<Pool>)
    requires ValidConfig(cfg) && Inv(cfg, s) && Enabled(s, a)
    requires Usable(cfg, pools) <= 1 && UsePools(s, pools) && NothingWasted(s)
    ensures NothingWasted(Step(cfg, s, a))
  {
    hide Moved, Shared, ClaimsExact, GenerationsOk, WaitersOk, RingOk, LedgerOk, Usable, PermitsConserved;
    if !a.Arrive? {
      OwnMove(cfg, s, a);
      var s' := Step(cfg, s, a);
      forall id | 0 <= id < |s.copies| && id != a.id && BetweenRecheckAndClaim(s.copies[id])
        ensures IsOpenFor(s', s.copies[id])
      {
        assert PhaseOk(cfg, s.copies[id]);
        OpenFrame(cfg, s, a, s.copies[id]);
        if a.Claim? {
          HoldersAreUsable(cfg, s, pools, if id < a.id then id else a.id, if id < a.id then a.id else id);
        }
      }
    }
  }

  lemma {:induction false} NothingWastedAlways(cfg: Config, run: Trace<Action>, pools: set<Pool>)
    requires ValidConfig(cfg) && IsRun(cfg, run) && ArrivalsUse(run, pools) && Usable(cfg, pools) <= 1
    ensures UsePools(After(cfg, run), pools) && NothingWasted(After(cfg, run))
  {
    hide Inv, NothingWasted, Moved, Shared, Usable;
    match run
    case Start =>
      NothingYet(cfg);
    case Then(before, a) =>
      InvHolds(cfg, before);
      NothingWastedAlways(cfg, before, pools);
      NothingWastedKept(cfg, After(cfg, before), a, pools);
      if !a.Arrive? {
        SamePayload(cfg, After(cfg, before), a);
      }
  }

  lemma {:induction false} NothingYet(cfg: Config)
    ensures NothingWasted(Init(cfg))
  {
  }

  /** If the copies that arrive can use one permit at most, one that validated its body
      always finds the block open when it claims: it neither waits nor is discarded. */
  lemma ValidatedCopyNeverLosesTheRace(cfg: Config, run: Trace<Action>, pools: set<Pool>, id: nat, now: Time)
    requires ValidConfig(cfg) && IsRun(cfg, run) && ArrivalsUse(run, pools) && Usable(cfg, pools) <= 1
    requires id < |After(cfg, run).copies| && After(cfg, run).copies[id].caller.Claiming?
    ensures Found(cfg, After(cfg, run), After(cfg, run).copies[id], now).IsOpen?
    ensures After(cfg, run).copies[id].caller.first
  {
    InvHolds(cfg, run);
    NothingWastedAlways(cfg, run, pools);
    EvictedRing(After(cfg, run).ring, now, cfg.window);
  }

  // ---------------------------------------------------------------------------
  // With two permits one can

  const BLOCK := Payload(7, 7, Readable, true)

  /** Two copies of one block, from pools `p` and `q`, and nothing else. */
  function Racing(free: map<Pool, nat>, p: Pool, q: Pool, caller0: Caller, job0: Job, caller1: Caller,
                  job1: Job): State {
    State([], map[], 0, {}, [], free, [Copy(BLOCK, p, caller0, job0), Copy(BLOCK, q, caller1, job1)])
  }

  /** `p` and `q` have a permit each, or two if they are one pool. */
  predicate TwoPermits(cfg: Config, p: Pool, q: Pool) {
    p in cfg.permits && q in cfg.permits && cfg.permits[p] >= 1 && cfg.permits[q] >= (if p == q then 2 else 1)
  }

  /** What is free once both have been handed out. */
  function Spent(cfg: Config, p: Pool, q: Pool): map<Pool, nat>
    requires TwoPermits(cfg, p, q)
  {
    var once := cfg.permits[p := cfg.permits[p] - 1];
    once[q := once[q] - 1]
  }

  /** `a` and then `b` lead from `s` to `t`. */
  ghost predicate Leads(cfg: Config, s: State, a: Action, b: Action, t: State) {
    Enabled(s, a) && Enabled(Step(cfg, s, a), b) && Step(cfg, Step(cfg, s, a), b) == t
  }

  lemma {:induction false} Extend(cfg: Config, pools: set<Pool>, run: Trace<Action>, a: Action, b: Action, t: State)
    requires IsRun(cfg, run) && Leads(cfg, After(cfg, run), a, b, t) && ArrivalsUse(run, pools)
    requires (a.Arrive? ==> a.pool in pools) && (b.Arrive? ==> b.pool in pools)
    ensures IsRun(cfg, Then(Then(run, a), b)) && After(cfg, Then(Then(run, a), b)) == t
    ensures ArrivalsUse(Then(Then(run, a), b), pools)
  {
    hide Enabled, Step;
    assert IsRun(cfg, Then(run, a)) && ArrivalsUse(Then(run, a), pools);
  }

  lemma {:induction false} BothLook(cfg: Config, p: Pool, q: Pool)
    ensures Leads(cfg, Init(cfg), Arrive(BLOCK, p), Arrive(BLOCK, q),
                  Racing(cfg.permits, p, q, Looking, NoJob, Looking, NoJob))
    ensures Leads(cfg, Racing(cfg.permits, p, q, Looking, NoJob, Looking, NoJob), Look(0, 0), Look(1, 0),
                  Racing(cfg.permits, p, q, WantsPermit, NoJob, WantsPermit, NoJob))
  {
    hide Bodies.Without, Bodies.Reserve;
  }

  lemma {:induction false} BothAcquire(cfg: Config, p: Pool, q: Pool)
    requires TwoPermits(cfg, p, q)
    ensures Leads(cfg, Racing(cfg.permits, p, q, WantsPermit, NoJob, WantsPermit, NoJob), Acquire(0), Acquire(1),
                  Racing(Spent(cfg, p, q), p, q, Rechecking, NoJob, Rechecking, NoJob))
  {
    hide Bodies.Without, Bodies.Reserve;
  }

  lemma {:induction false} BothRecheck(cfg: Config, free: map<Pool, nat>, p: Pool, q: Pool)
    ensures Leads(cfg, Racing(free, p, q, Rechecking, NoJob, Rechecking, NoJob), Recheck(0, 0), Recheck(1, 0),
                  Racing(free, p, q, Preparing, CheckingSent, Preparing, CheckingSent))
    ensures Leads(cfg, Racing(free, p, q, Preparing, CheckingSent, Preparing, CheckingSent),
                  CheckSent(0, 0), CheckSent(1, 0),
                  Racing(free, p, q, Preparing, Parsing, Preparing, Parsing))
  {
    hide Bodies.Without, Bodies.Reserve;
  }

  lemma {:induction false} BothValidate(cfg: Config, free: map<Pool, nat>, p: Pool, q: Pool)
    ensures Leads(cfg, Racing(free, p, q, Preparing, Parsing, Preparing, Parsing), Parse(0, true), Parse(1, true),
                  Racing(free, p, q, Preparing, Built(Validated), Preparing, Built(Validated)))
    ensures Leads(cfg, Racing(free, p, q, Preparing, Built(Validated), Preparing, Built(Validated)),
                  Deliver(0), Deliver(1),
                  Racing(free, p, q, Claiming(true), NoJob, Claiming(true), NoJob))
  {
    hide Bodies.Without, Bodies.Reserve;
  }

  lemma {:induction false} BothClaim(cfg: Config, p: Pool, q: Pool) returns (run: Trace<Action>)
    requires TwoPermits(cfg, p, q)
    ensures IsRun(cfg, run) && ArrivalsUse(run, {p, q})
    ensures After(cfg, run) == Racing(Spent(cfg, p, q), p, q, Claiming(true), NoJob, Claiming(true), NoJob)
  {
    hide Leads, Racing, Spent, IsRun, After, ArrivalsUse;
    var free := Spent(cfg, p, q);
    BothLook(cfg, p, q);
    BothAcquire(cfg, p, q);
    BothRecheck(cfg, free, p, q);
    BothValidate(cfg, free, p, q);
    run := Start;
    StartIsRun(cfg, {p, q});
    Extend(cfg, {p, q}, run, Arrive(BLOCK, p), Arrive(BLOCK, q),
           Racing(cfg.permits, p, q, Looking, NoJob, Looking, NoJob));
    run := Then(Then(run, Arrive(BLOCK, p)), Arrive(BLOCK, q));
    Extend(cfg, {p, q}, run, Look(0, 0), Look(1, 0), Racing(cfg.permits, p, q, WantsPermit, NoJob, WantsPermit, NoJob));
    run := Then(Then(run, Look(0, 0)), Look(1, 0));
    Extend(cfg, {p, q}, run, Acquire(0), Acquire(1), Racing(free, p, q, Rechecking, NoJob, Rechecking, NoJob));
    run := Then(Then(run, Acquire(0)), Acquire(1));
    Extend(cfg, {p, q}, run, Recheck(0, 0), Recheck(1, 0),
           Racing(free, p, q, Preparing, CheckingSent, Preparing, CheckingSent));
    run := Then(Then(run, Recheck(0, 0)), Recheck(1, 0));
    Extend(cfg, {p, q}, run, CheckSent(0, 0), CheckSent(1, 0),
           Racing(free, p, q, Preparing, Parsing, Preparing, Parsing));
    run := Then(Then(run, CheckSent(0, 0)), CheckSent(1, 0));
    Extend(cfg, {p, q}, run, Parse(0, true), Parse(1, true),
           Racing(free, p, q, Preparing, Built(Validated), Preparing, Built(Validated)));
    run := Then(Then(run, Parse(0, true)), Parse(1, true));
    Extend(cfg, {p, q}, run, Deliver(0), Deliver(1), Racing(free, p, q, Claiming(true), NoJob, Claiming(true), NoJob));
    run := Then(Then(run, Deliver(0)), Deliver(1));
  }

  lemma {:induction false} StartIsRun(cfg: Config, pools: set<Pool>)
    ensures IsRun(cfg, Start) && After(cfg, Start) == Init(cfg) && ArrivalsUse(Start, pools)
  {
  }

  /** Two permits are enough, from two pools or from one, whatever the rest of the
      configuration: two copies of one block are both parsed, and the second finds the
      claim of the first. */
  lemma {:induction false} TwoPermitsCanRace(cfg: Config, p: Pool, q: Pool) returns (run: Trace<Action>)
    requires TwoPermits(cfg, p, q)
    ensures ArrivalsUse(run, {p, q}) && Loses(cfg, run, 1, 0)
  {
    hide Bodies.Without, Bodies.Reserve;
    var before := BothClaim(cfg, p, q);
    run := Then(before, Claim(0, 0));
  }

  ghost predicate CanLose(cfg: Config, pools: set<Pool>) {
    exists run, id: nat, now :: ArrivalsUse(run, pools) && Loses(cfg, run, id, now)
  }

  lemma {:induction false} UseMore(run: Trace<Action>, few: set<Pool>, pools: set<Pool>)
    requires ArrivalsUse(run, few) && few <= pools
    ensures ArrivalsUse(run, pools)
  {
    if run.Then? {
      UseMore(run.before, few, pools);
    }
  }

  /** In some run a copy that has just validated its body does not find its block open,
      exactly when the copies that arrive can use two permits. */
  lemma {:induction false} LosesExactly(cfg: Config, pools: set<Pool>)
    requires ValidConfig(cfg)
    ensures CanLose(cfg, pools) <==> Usable(cfg, pools) >= 2
  {
    hide Loses;
    if Usable(cfg, pools) >= 2 {
      var p := if PermitsOf(cfg, pools, Peers) >= 1 then Peers else Gateway;
      var q := if PermitsOf(cfg, pools, Gateway) >= 1 then Gateway else Peers;
      var run := TwoPermitsCanRace(cfg, p, q);
      UseMore(run, {p, q}, pools);
    } else {
      forall run, id: nat, now | ArrivalsUse(run, pools) ensures !Loses(cfg, run, id, now) {
        NeverLoses(cfg, run, pools, id, now);
      }
    }
  }

  lemma {:induction false} NeverLoses(cfg: Config, run: Trace<Action>, pools: set<Pool>, id: nat, now: Time)
    requires ValidConfig(cfg) && ArrivalsUse(run, pools) && Usable(cfg, pools) <= 1
    ensures !Loses(cfg, run, id, now)
  {
    if IsRun(cfg, run) && id < |After(cfg, run).copies| && After(cfg, run).copies[id].caller == Claiming(true) {
      ValidatedCopyNeverLosesTheRace(cfg, run, pools, id, now);
    }
  }

  // ---------------------------------------------------------------------------
  // Parses thrown away

  /** A copy that validated its body, at its first claim or a later one, finds the block
      forwarded: its parse goes to waste. */
  ghost predicate Discards(cfg: Config, run: Trace<Action>, id: nat, now: Time) {
    && IsRun(cfg, run) && id < |After(cfg, run).copies|
    && After(cfg, run).copies[id].caller.Claiming?
    && Found(cfg, After(cfg, run), After(cfg, run).copies[id], now).IsForwarded?
  }

  /** The first copy has the claim, at the phase given, and the second is about to try. */
  function Won(free: map<Pool, nat>, p: Pool, q: Pool, caller: Caller): State {
    State([], map[BLOCK.header := 0], 1, {}, [], free,
      [Copy(BLOCK, p, caller, NoJob), Copy(BLOCK, q, Claiming(true), NoJob)])
  }

  lemma {:induction false} FirstClaims(cfg: Config, free: map<Pool, nat>, p: Pool, q: Pool)
    ensures var s := Racing(free, p, q, Claiming(true), NoJob, Claiming(true), NoJob);
            Enabled(s, Claim(0, 0)) && Step(cfg, s, Claim(0, 0)) == Won(free, p, q, Dropping(Send(0)))
  {
    hide Bodies.Without, Bodies.Reserve;
    assert Ring.Evict([], 0, cfg.window) == [];
  }

  lemma {:induction false} FirstSends(cfg: Config, free: map<Pool, nat>, p: Pool, q: Pool)
    ensures var s := Won(free, p, q, Dropping(Send(0)));
            && Enabled(s, DropPermit(0))
            && Step(cfg, s, DropPermit(0)) == Won(GiveBack(s, p).free, p, q, Sending(0))
  {
    hide Bodies.Without, Bodies.Reserve;
  }

  lemma {:induction false} FirstRecords(cfg: Config, free: map<Pool, nat>, p: Pool, q: Pool)
    ensures var s := Won(free, p, q, Sending(0));
            && Enabled(s, Commit(0, 0))
            && var s' := Step(cfg, s, Commit(0, 0));
            && s'.copies == [Copy(BLOCK, p, Committed(0), NoJob), Copy(BLOCK, q, Claiming(true), NoJob)]
            && s'.ring == RecordForwarded([], cfg.capacity, cfg.window, BLOCK.header, 0)
  {
    hide Bodies.Without, Bodies.Reserve, RecordForwarded;
  }

  /** The first of two racing copies has sent and recorded the block. */
  lemma {:induction false} FirstCommits(cfg: Config, p: Pool, q: Pool) returns (run: Trace<Action>)
    requires TwoPermits(cfg, p, q)
    ensures IsRun(cfg, run) && ArrivalsUse(run, {p, q}) && |After(cfg, run).copies| == 2
    ensures After(cfg, run).copies[1] == Copy(BLOCK, q, Claiming(true), NoJob)
    ensures After(cfg, run).ring == RecordForwarded([], cfg.capacity, cfg.window, BLOCK.header, 0)
  {
    hide Step, Enabled, RecordForwarded, Spent, Racing, Won, ArrivalsUse;
    var free := Spent(cfg, p, q);
    FirstClaims(cfg, free, p, q);
    FirstSends(cfg, free, p, q);
    var back := GiveBack(Won(free, p, q, Dropping(Send(0))), p).free;
    FirstRecords(cfg, back, p, q);
    var before := BothClaim(cfg, p, q);
    var claimed := Then(before, Claim(0, 0));
    assert IsRun(cfg, claimed) && After(cfg, claimed) == Won(free, p, q, Dropping(Send(0)));
    var sending := Then(claimed, DropPermit(0));
    assert IsRun(cfg, sending) && After(cfg, sending) == Won(back, p, q, Sending(0));
    run := Then(sending, Commit(0, 0));
    NoArrival(before, Claim(0, 0), {p, q});
    NoArrival(claimed, DropPermit(0), {p, q});
    NoArrival(sending, Commit(0, 0), {p, q});
  }

  lemma {:induction false} NoArrival(run: Trace<Action>, a: Action, pools: set<Pool>)
    requires ArrivalsUse(run, pools) && !a.Arrive?
    ensures ArrivalsUse(Then(run, a), pools)
  {
  }

  lemma {:induction false} TwoPermitsCanDiscard(cfg: Config, p: Pool, q: Pool) returns (run: Trace<Action>)
    requires TwoPermits(cfg, p, q) && cfg.capacity >= 1
    ensures ArrivalsUse(run, {p, q}) && Discards(cfg, run, 1, 0)
  {
    run := FirstCommits(cfg, p, q);
    hide After, IsRun;
    var ring := After(cfg, run).ring;
    assert Ring.Evict([], 0, cfg.window) == [];
    assert ring == [Ring.Stamped(BLOCK.header, 0)];
    assert Ring.Evict(ring, 0, cfg.window) == ring && ring[0].key == BLOCK.header;
  }

  /** A ring of capacity 0 forgets every send at once, so no parse is compared with one. */
  lemma {:induction false} NothingForwardedAtZero(cfg: Config, run: Trace<Action>, c: Copy, now: Time)
    requires IsRun(cfg, run) && cfg.capacity == 0
    ensures !Found(cfg, After(cfg, run), c, now).IsForwarded?
  {
    hide After, IsRun;
    RingSawCalls(cfg, run);
    SameAsRing(RingCalls(cfg, run), 0, cfg.window);
  }

  ghost predicate CanDiscard(cfg: Config, pools: set<Pool>) {
    exists run, id: nat, now :: ArrivalsUse(run, pools) && Discards(cfg, run, id, now)
  }

  /** Some run throws a validated parse away exactly when the copies that arrive can use two
      permits and the ring remembers a send. */
  lemma {:induction false} DiscardsExactly(cfg: Config, pools: set<Pool>)
    requires ValidConfig(cfg)
    ensures CanDiscard(cfg, pools) <==> Usable(cfg, pools) >= 2 && cfg.capacity >= 1
  {
    hide Discards;
    if Usable(cfg, pools) >= 2 && cfg.capacity >= 1 {
      var p := if PermitsOf(cfg, pools, Peers) >= 1 then Peers else Gateway;
      var q := if PermitsOf(cfg, pools, Gateway) >= 1 then Gateway else Peers;
      var run := TwoPermitsCanDiscard(cfg, p, q);
      UseMore(run, {p, q}, pools);
    } else {
      forall run, id: nat, now | ArrivalsUse(run, pools) ensures !Discards(cfg, run, id, now) {
        NeverDiscards(cfg, run, pools, id, now);
      }
    }
  }

  lemma {:induction false} NeverDiscards(cfg: Config, run: Trace<Action>, pools: set<Pool>, id: nat, now: Time)
    requires ValidConfig(cfg) && ArrivalsUse(run, pools) && (Usable(cfg, pools) <= 1 || cfg.capacity == 0)
    ensures !Discards(cfg, run, id, now)
  {
    if IsRun(cfg, run) && id < |After(cfg, run).copies| && After(cfg, run).copies[id].caller.Claiming? {
      if cfg.capacity == 0 {
        NothingForwardedAtZero(cfg, run, After(cfg, run).copies[id], now);
      } else {
        ValidatedCopyNeverLosesTheRace(cfg, run, pools, id, now);
      }
    }
  }
}
