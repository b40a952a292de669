/** First-seen-wins over whole runs: what it takes for a copy to be reported as a
    duplicate, and when a block is sent again. */
module ForwardDedup {
  import opened Common
  import Ring = TimedRing
  import Bodies = UnverifiedForwards
  import opened RecentForwarded
  import opened ForwardProtocol
  import opened ForwardSafety

  /** Headers recorded by one action: it ends a complete send of a body the reader
      accepted. */
  function Forwards(s: State, a: Action): set<Hash>
    requires Enabled(s, a)
  {
    if a.Commit? && s.copies[a.id].payload.verdict.Readable? then {s.copies[a.id].payload.header} else {}
  }

  /** Bodies committed by one action: it ends a complete send of exactly that
      unreadable body. */
  function SendsUnverified(s: State, a: Action): set<Bodies.Body>
    requires Enabled(s, a)
  {
    if a.CommitUnverified? && s.copies[a.id].payload.verdict.Unreadable? then {s.copies[a.id].payload.Body()} else {}
  }

  /** Headers with a complete, committed send of a validated body in the run. */
  function ForwardedIn(cfg: Config, run: Trace<Action>): set<Hash>
    requires IsRun(cfg, run)
  {
    match run
    case Start => {}
    case Then(before, a) => ForwardedIn(cfg, before) + Forwards(After(cfg, before), a)
  }

  /** Unreadable bodies with a complete, committed send in the run. */
  function SentUnverifiedIn(cfg: Config, run: Trace<Action>): set<Bodies.Body>
    requires IsRun(cfg, run)
  {
    match run
    case Start => {}
    case Then(before, a) => SentUnverifiedIn(cfg, before) + SendsUnverified(After(cfg, before), a)
  }

  predicate IsDuplicate(c: Copy) {
    c.caller == Finished(Deduplicated) || c.caller == Dropping(Finish(Deduplicated)) || c.job == Built(PreviouslySent)
  }

  ghost predicate Justified(s: State, forwarded: set<Hash>, sent: set<Bodies.Body>) {
    && (forall h :: Ring.Holds(s.ring, h) ==> h in forwarded)
    && (forall e :: e in s.unverified && e.sent ==> e.body in sent)
    && (forall id :: 0 <= id < |s.copies| && IsDuplicate(s.copies[id]) ==>
          s.copies[id].payload.header in forwarded || s.copies[id].payload.Body() in sent)
  }

  /** A step makes its copy a duplicate only if the ring or the ledger says so. */
  lemma {:induction false} DuplicateFrame(cfg: Config, s: State, a: Action)
    requires Enabled(s, a) && !a.Arrive? && IsDuplicate(Moved(cfg, s, a))
    ensures || IsDuplicate(s.copies[a.id])
            || ((a.Look? || a.Claim?) && Ring.Holds(Swept(cfg, s, a.now), s.copies[a.id].payload.header))
            || exists e :: e in s.unverified && e.body == s.copies[a.id].payload.Body() && e.sent
  {
  }

  lemma {:induction false} SentFrame(cfg: Config, s: State, a: Action)
    requires PhasesOk(cfg, s) && LedgerOk(cfg.bodies, s.unverified, s.copies) && Enabled(s, a) && !a.Arrive?
    ensures forall e :: e in Shared(cfg, s, a).unverified && e.sent ==>
              e in s.unverified || (a.CommitUnverified? && e.body == s.copies[a.id].payload.Body())
  {
    var body := s.copies[a.id].payload.Body();
    LedgerFrame(cfg, s, a);
    Bodies.WithoutKeeps(s.unverified, body);
    if a.Reserve? {
      Bodies.ReserveKeeps(cfg.bodies, s.unverified, body, a.now);
    }
    if a.CommitUnverified? {
      Bodies.CommitKeeps(s.unverified, body, a.now);
    }
  }

  lemma {:induction false} JustifiedKept(cfg: Config, s: State, a: Action, forwarded: set<Hash>, sent: set<Bodies.Body>)
    requires Inv(cfg, s) && Enabled(s, a) && Justified(s, forwarded, sent)
    ensures Justified(Step(cfg, s, a), forwarded + Forwards(s, a), sent + SendsUnverified(s, a))
  {
    hide Moved, Shared, ClaimsExact, GenerationsOk, WaitersOk, PermitsConserved, DistinctKeys, LedgerOk;
    if !a.Arrive? {
      assert PhaseOk(cfg, s.copies[a.id]);
      SamePayload(cfg, s, a);
      RingFrame(cfg, s, a);
      SentFrame(cfg, s, a);
      if a.Look? || a.Claim? {
        EvictedRing(s.ring, a.now, cfg.window);
      }
      if IsDuplicate(Moved(cfg, s, a)) {
        DuplicateFrame(cfg, s, a);
      }
    }
  }

  lemma {:induction false} JustifiedAlways(cfg: Config, run: Trace<Action>)
    requires ValidConfig(cfg) && IsRun(cfg, run)
    ensures Justified(After(cfg, run), ForwardedIn(cfg, run), SentUnverifiedIn(cfg, run))
  {
    match run
    case Start =>
    case Then(before, a) =>
      InvHolds(cfg, before);
      JustifiedAlways(cfg, before);
      JustifiedKept(cfg, After(cfg, before), a, ForwardedIn(cfg, before), SentUnverifiedIn(cfg, before));
  }

  /** In every run, a copy is reported as a duplicate only if a complete send of a
      validated body with its header, or of exactly its own unreadable body, was
      committed earlier. A refused, failed or cancelled copy hides nothing. */
  lemma DeduplicatedOnlyAfterASend(cfg: Config, run: Trace<Action>, id: nat)
    requires ValidConfig(cfg) && IsRun(cfg, run)
    requires id < |After(cfg, run).copies| && After(cfg, run).copies[id].caller == Finished(Deduplicated)
    ensures || After(cfg, run).copies[id].payload.header in ForwardedIn(cfg, run)
            || After(cfg, run).copies[id].payload.Body() in SentUnverifiedIn(cfg, run)
  {
    JustifiedAlways(cfg, run);
  }

  // ---------------------------------------------------------------------------
  // The forwarded ring in a run

  /** The calls a run makes on the forwarded ring. */
  function RingCalls(cfg: Config, run: Trace<Action>): Trace<Ring.Call>
    requires IsRun(cfg, run)
  {
    match run
    case Start => Start
    case Then(before, a) =>
      var calls := RingCalls(cfg, before);
      if a.Look? || a.Recheck? || a.Claim? then Then(calls, Ring.Lookup(a.now))
      else if a.Commit? then Then(calls, Ring.Recorded(After(cfg, before).copies[a.id].payload.header, a.now))
      else calls
  }

  /** The validated sends completed in a run, in the order they were recorded. */
  function Sends(cfg: Config, run: Trace<Action>): seq<Ring.Stamped>
    requires IsRun(cfg, run)
  {
    match run
    case Start => []
    case Then(before, a) =>
      if a.Commit? then Sends(cfg, before) + [Ring.Stamped(After(cfg, before).copies[a.id].payload.header, a.now)]
      else Sends(cfg, before)
  }

  lemma {:induction false} RingSawCalls(cfg: Config, run: Trace<Action>)
    requires IsRun(cfg, run)
    ensures After(cfg, run).ring == ForwardedAfter(RingCalls(cfg, run), cfg.capacity, cfg.window)
    ensures Ring.History(RingCalls(cfg, run)) == Sends(cfg, run)
  {
    hide Moved, Ring.Evict, RecordForwarded, Bodies.Reserve, Bodies.Commit, Bodies.Without, StatusOf;
    if run.Then? {
      RingSawCalls(cfg, run.before);
    }
  }

  /** With ordered times, a copy finds its block forwarded exactly when a validated send
      of it is among the last `capacity` ones and was recorded within the window. So a
      block is sent again only once its last send has expired or has been pushed out. */
  lemma {:induction false} ForwardedExactly(cfg: Config, run: Trace<Action>, c: Copy, now: Time)
    requires IsRun(cfg, run) && Ring.NondecreasingTo(RingCalls(cfg, run), now)
    ensures var sends := Sends(cfg, run);
            Found(cfg, After(cfg, run), c, now).IsForwarded?
            <==> exists k :: 0 <= k < |sends| && |sends| - cfg.capacity <= k && sends[k].key == c.payload.header
                             && !Ring.Expired(sends[k], now, cfg.window)
  {
    RingSawCalls(cfg, run);
    ForwardedIsExact(RingCalls(cfg, run), cfg.capacity, cfg.window, c.payload.header, now);
  }

  /** Whatever the times: a block that is open to a claim has no validated send among the
      last `capacity` ones that no reader of the ring has seen expire. */
  lemma {:induction false} OpenMeansNotSentLately(cfg: Config, run: Trace<Action>, c: Copy, now: Time)
    requires IsRun(cfg, run) && cfg.capacity >= 1 && Found(cfg, After(cfg, run), c, now).IsOpen?
    ensures var sends := Sends(cfg, run);
            forall k :: 0 <= k < |sends| && |sends| - cfg.capacity <= k && sends[k].key == c.payload.header ==>
              Ring.SeenExpired(Then(RingCalls(cfg, run), Ring.Lookup(now)), k, cfg.window)
  {
    hide Ring.Evict, Ring.SeenExpired, RingCalls, Sends, IsRun, After;
    var calls := RingCalls(cfg, run);
    var after := Then(calls, Ring.Lookup(now));
    RingSawCalls(cfg, run);
    SameAsRing(calls, cfg.capacity, cfg.window);
    Ring.NeverDroppedEarly(after, cfg.capacity, cfg.window);
    SuffixLacks(Sends(cfg, run), Swept(cfg, After(cfg, run), now), c.payload.header);
  }

  lemma {:induction false} SuffixLacks(h: seq<Ring.Stamped>, kept: seq<Ring.Stamped>, key: Hash)
    requires |kept| <= |h| && kept == h[|h| - |kept|..] && !Ring.Holds(kept, key)
    ensures forall k :: |h| - |kept| <= k < |h| ==> h[k].key != key
  {
    forall k | |h| - |kept| <= k < |h| ensures h[k].key != key {
      assert kept[k - (|h| - |kept|)] == h[k];
    }
  }

  // ---------------------------------------------------------------------------
  // The unverified ledger in a run

  /** What an action does to the ledger, as an operation on it. */
  function LedgerOp(s: State, a: Action): Option<Bodies.Op>
    requires Enabled(s, a)
  {
    if a.Arrive? then None else
      var c := s.copies[a.id];
      var body := c.payload.Body();
      match a
      case Reserve(_, now) => Some(Bodies.Reserving(body, now))
      case CommitUnverified(_, now) => Some(Bodies.Committing(body, now))
      case CheckWork(_, splits) => if c.payload.proofOfWork && splits then None else Some(Bodies.Releasing(body))
      case Panic(_) => if c.job.CheckingWork? then Some(Bodies.Releasing(body)) else None
      case Discard(_) => if c.job.result.Unverified? then Some(Bodies.Releasing(body)) else None
      case AbandonUnverified(_) => Some(Bodies.Releasing(body))
      case _ => None
  }

  function LedgerOps(cfg: Config, run: Trace<Action>): Trace<Bodies.Op>
    requires IsRun(cfg, run)
  {
    match run
    case Start => Start
    case Then(before, a) =>
      match LedgerOp(After(cfg, before), a)
      case None => LedgerOps(cfg, before)
      case Some(op) => Then(LedgerOps(cfg, before), op)
  }

  lemma {:induction false} LedgerOpIsStep(cfg: Config, s: State, a: Action)
    requires Inv(cfg, s) && Enabled(s, a)
    ensures match LedgerOp(s, a)
            case None => Step(cfg, s, a).unverified == s.unverified
            case Some(op) => Step(cfg, s, a).unverified == Bodies.Apply(cfg.bodies, s.unverified, op)
                             && (!op.Reserving? ==> Bodies.Owned(s.unverified, op.body))
  {
    hide ClaimsExact, GenerationsOk, WaitersOk, PermitsConserved, RingOk, Moved, Bodies.Reserve, Bodies.Commit,
         Bodies.Without, Bodies.WellKept, Swept, RecordForwarded;
    if !a.Arrive? {
      assert PhaseOk(cfg, s.copies[a.id]);
    }
  }

  /** In every run the ledger is only used through its guards. */
  lemma {:induction false} LedgerIsDisciplined(cfg: Config, run: Trace<Action>)
    requires ValidConfig(cfg) && IsRun(cfg, run)
    ensures Bodies.Disciplined(cfg.bodies, LedgerOps(cfg, run))
    ensures Bodies.After(cfg.bodies, LedgerOps(cfg, run)) == After(cfg, run).unverified
  {
    match run
    case Start =>
    case Then(before, a) =>
      InvHolds(cfg, before);
      LedgerIsDisciplined(cfg, before);
      LedgerOpIsStep(cfg, After(cfg, before), a);
  }

  /** In every run, with the clock the ledger reads under its lock never running
      backwards, at most `perHeader` bodies of one header complete an unverified send
      in any interval as long as the window. */
  lemma UnverifiedBudget(cfg: Config, run: Trace<Action>, now: Time, header: Hash, from: Time)
    requires ValidConfig(cfg) && IsRun(cfg, run) && Bodies.NondecreasingTo(LedgerOps(cfg, run), now)
    ensures var commits := Bodies.Commits(LedgerOps(cfg, run));
            Bodies.CommittedIn(commits, header, from, cfg.bodies.window) <= cfg.bodies.perHeader
  {
    LedgerIsDisciplined(cfg, run);
    Bodies.HeaderBudget(cfg.bodies, LedgerOps(cfg, run), now, header, from);
  }
}
