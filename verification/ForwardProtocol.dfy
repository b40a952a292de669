/** The forward protocol of the relay bridge: any number of copies of any number of
    blocks, delivered at any time, race to parse, claim and send.

    One action is one critical section, one permit hand-over or one send. The state
    holds what the copies share (the forwarded ring, the claims in flight, the
    unverified ledger, the parse permits) and where each copy stands. */
module ForwardProtocol {
  import opened Common
  import Ring = TimedRing
  import Bodies = UnverifiedForwards
  import opened RecentForwarded

  // ---------------------------------------------------------------------------
  // State

  /** What the block reader says about a payload: it reads, a transaction in it does
      not parse, or it is wrong in some other way. */
  datatype Verdict = Readable | Unreadable | Malformed

  /** A delivered block, as far as the protocol looks at it. */
  datatype Payload = Payload(header: Hash, digest: Hash, verdict: Verdict, proofOfWork: bool) {
    function Body(): Bodies.Body {
      Bodies.Body(header, digest)
    }
  }

  datatype Pool = Peers | Gateway

  datatype Outcome = Forwarded | ForwardedUnverified | Deduplicated | Refused | Failed

  /** Where a copy goes once it has let go of its permit. */
  datatype Next = LookAgain | WaitFor(gen: nat) | Send(gen: nat) | SendUnverified | Finish(outcome: Outcome)

  datatype Caller =
    | Looking                  // about to read the block's state
    | WaitingEarly(gen: nat)   // waits out a send, before parsing
    | WantsPermit
    | Rechecking               // has the permit, about to read the state again
    | Preparing                // waits for its job, which has the permit
    | Claiming(first: bool)    // validated; has the permit on the first attempt
    | WaitingLate(gen: nat)    // waits out a send, keeping what it prepared
    | Dropping(next: Next)     // has the permit, about to let go of it
    | Sending(gen: nat)        // owns the claim
    | Committed(gen: nat)      // recorded, the claim not yet removed
    | SendingUnverified        // owns a place in the unverified ledger
    | Finished(outcome: Outcome)

  datatype Result = PreviouslySent | Validated | Unverified | Rejected

  /** The work on the blocking pool. It has the permit until its result is taken. */
  datatype Job = NoJob | CheckingSent | Parsing | Reserving | CheckingWork | Built(result: Result)

  datatype Copy = Copy(payload: Payload, pool: Pool, caller: Caller, job: Job)

  datatype Config = Config(capacity: nat, window: nat, bypass: bool, bodies: Bodies.Limits, permits: map<Pool, nat>)

  datatype State = State(
    ring: seq<Ring.Stamped>,
    inFlight: map<Hash, nat>,
    nextGen: nat,
    closed: set<nat>,
    unverified: seq<Bodies.Entry>,
    free: map<Pool, nat>,
    copies: seq<Copy>)

  ghost predicate ValidConfig(cfg: Config) {
    cfg.permits.Keys == {Peers, Gateway}
  }

  function Init(cfg: Config): State {
    State([], map[], 0, {}, [], cfg.permits, [])
  }

  // ---------------------------------------------------------------------------
  // Actions

  datatype Action =
    | Arrive(payload: Payload, pool: Pool)
    | Look(id: nat, now: Time)
    | Wake(id: nat)
    | Acquire(id: nat)
    | Recheck(id: nat, now: Time)
    | DropPermit(id: nat)
    | CheckSent(id: nat, now: Time)
    | Parse(id: nat, builds: bool)
    | Reserve(id: nat, now: Time)
    | CheckWork(id: nat, splits: bool)
    | Panic(id: nat)
    | Deliver(id: nat)
    | Discard(id: nat)
    | Claim(id: nat, now: Time)
    | Commit(id: nat, now: Time)
    | EndClaim(id: nat)
    | Abandon(id: nat)
    | CommitUnverified(id: nat, now: Time)
    | AbandonUnverified(id: nat)
    | Cancel(id: nat)

  predicate Enabled(s: State, a: Action) {
    if a.Arrive? then true else
      && a.id < |s.copies|
      && var c := s.copies[a.id];
      match a
      case Look(_, _) => c.caller.Looking?
      case Wake(_) => (c.caller.WaitingEarly? || c.caller.WaitingLate?) && c.caller.gen in s.closed
      case Acquire(_) => c.caller.WantsPermit? && c.pool in s.free && s.free[c.pool] > 0
      case Recheck(_, _) => c.caller.Rechecking?
      case DropPermit(_) => c.caller.Dropping?
      case CheckSent(_, _) => c.job.CheckingSent?
      case Parse(_, _) => c.job.Parsing?
      case Reserve(_, _) => c.job.Reserving?
      case CheckWork(_, _) => c.job.CheckingWork?
      case Panic(_) => !c.job.NoJob? && !c.job.Built?
      case Deliver(_) => c.caller.Preparing? && c.job.Built?
      case Discard(_) => c.caller.Finished? && c.job.Built?
      case Claim(_, _) => c.caller.Claiming?
      case Commit(_, _) => c.caller.Sending?
      case EndClaim(_) => c.caller.Committed?
      case Abandon(_) => c.caller.Sending?
      case CommitUnverified(_, _) => c.caller.SendingUnverified?
      case AbandonUnverified(_) => c.caller.SendingUnverified?
      case Cancel(_) => c.caller.Looking? || c.caller.WaitingEarly? || c.caller.WantsPermit? || c.caller.Preparing?
                        || c.caller.WaitingLate?
  }

  /** The phase that follows letting go of the permit. */
  function Land(next: Next): Caller {
    match next
    case LookAgain => Looking
    case WaitFor(gen) => WaitingLate(gen)
    case Send(gen) => Sending(gen)
    case SendUnverified => SendingUnverified
    case Finish(outcome) => Finished(outcome)
  }

  function GiveBack(s: State, pool: Pool): State {
    if pool in s.free then s.(free := s.free[pool := s.free[pool] + 1]) else s
  }

  function RemoveClaim(s: State, h: Hash, gen: nat): State {
    s.(inFlight := s.inFlight - {h}, closed := s.closed + {gen})
  }

  /** What a job that found the body unreadable does next. */
  function AfterParse(cfg: Config, p: Payload, builds: bool): Job {
    match p.verdict
    case Readable => Built(if builds then Validated else Rejected)
    case Unreadable => if cfg.bypass then Reserving else Built(Rejected)
    case Malformed => Built(Rejected)
  }

  /** Where a caller goes with a finished job's result and permit. */
  function AfterJob(result: Result): Caller {
    match result
    case PreviouslySent => Dropping(Finish(Deduplicated))
    case Validated => Claiming(true)
    case Unverified => Dropping(SendUnverified)
    case Rejected => Dropping(Finish(Refused))
  }

  /** What one claim attempt leads to, given what it found and the generation a new
      claim would get. */
  function AfterAttempt(status: Status, gen: nat): Next {
    match status
    case IsOpen => Send(gen)
    case IsInFlight(current) => WaitFor(current)
    case IsForwarded => Finish(Deduplicated)
  }

  function Swept(cfg: Config, s: State, now: Time): seq<Ring.Stamped> {
    Ring.Evict(s.ring, now, cfg.window)
  }

  /** What a copy finds when it reads its block's state at `now`. */
  function Found(cfg: Config, s: State, c: Copy, now: Time): Status {
    StatusOf(Swept(cfg, s, now), s.inFlight, c.payload.header)
  }

  /** Where an action leaves its own copy. */
  function Moved(cfg: Config, s: State, a: Action): Copy
    requires Enabled(s, a) && !a.Arrive?
  {
    var c := s.copies[a.id];
    match a
    case Look(_, now) =>
      c.(caller :=
        match Found(cfg, s, c, now)
        case IsOpen => WantsPermit
        case IsInFlight(gen) => WaitingEarly(gen)
        case IsForwarded => Finished(Deduplicated))
    case Wake(_) => c.(caller := if c.caller.WaitingEarly? then Looking else Claiming(false))
    case Acquire(_) => c.(caller := Rechecking)
    case Recheck(_, now) =>
      if Found(cfg, s, c, now).IsOpen? then c.(caller := Preparing, job := CheckingSent)
      else c.(caller := Dropping(LookAgain))
    case DropPermit(_) => c.(caller := Land(c.caller.next))
    case CheckSent(_, now) =>
      var sent := cfg.bypass && Bodies.Sent(cfg.bodies, s.unverified, c.payload.Body(), now);
      c.(job := if sent then Built(PreviouslySent) else Parsing)
    case Parse(_, builds) => c.(job := AfterParse(cfg, c.payload, builds))
    case Reserve(_, now) =>
      var answer := Bodies.Reserve(cfg.bodies, s.unverified, c.payload.Body(), now).1;
      c.(job := if answer.Reserved? then CheckingWork else Built(Rejected))
    case CheckWork(_, splits) =>
      c.(job := Built(if c.payload.proofOfWork && splits then Unverified else Rejected))
    case Panic(_) => c.(job := NoJob, caller := if c.caller.Preparing? then Finished(Failed) else c.caller)
    case Deliver(_) => c.(job := NoJob, caller := AfterJob(c.job.result))
    case Discard(_) => c.(job := NoJob)
    case Claim(_, now) =>
      var next := AfterAttempt(Found(cfg, s, c, now), s.nextGen);
      c.(caller := if c.caller.first then Dropping(next) else Land(next))
    case Commit(_, _) => c.(caller := Committed(c.caller.gen))
    case EndClaim(_) => c.(caller := Finished(Forwarded))
    case Abandon(_) => c.(caller := Finished(Failed))
    case CommitUnverified(_, _) => c.(caller := Finished(ForwardedUnverified))
    case AbandonUnverified(_) => c.(caller := Finished(Failed))
    case Cancel(_) => c.(caller := Finished(Failed))
  }

  /** What an action does to the state the copies share. */
  function Shared(cfg: Config, s: State, a: Action): State
    requires Enabled(s, a) && !a.Arrive?
  {
    var c := s.copies[a.id];
    var released := Bodies.Without(s.unverified, c.payload.Body());
    match a
    case Look(_, now) => s.(ring := Swept(cfg, s, now))
    case Acquire(_) => s.(free := s.free[c.pool := s.free[c.pool] - 1])
    case Recheck(_, now) => s.(ring := Swept(cfg, s, now))
    case DropPermit(_) => GiveBack(s, c.pool)
    case Reserve(_, now) => s.(unverified := Bodies.Reserve(cfg.bodies, s.unverified, c.payload.Body(), now).0)
    case CheckWork(_, splits) => if c.payload.proofOfWork && splits then s else s.(unverified := released)
    case Panic(_) => GiveBack(if c.job.CheckingWork? then s.(unverified := released) else s, c.pool)
    case Discard(_) => GiveBack(if c.job.result.Unverified? then s.(unverified := released) else s, c.pool)
    case Claim(_, now) =>
      var swept := s.(ring := Swept(cfg, s, now));
      if Found(cfg, s, c, now).IsOpen?
      then swept.(inFlight := s.inFlight[c.payload.header := s.nextGen], nextGen := s.nextGen + 1)
      else swept
    case Commit(_, now) => s.(ring := RecordForwarded(s.ring, cfg.capacity, cfg.window, c.payload.header, now))
    case EndClaim(_) => RemoveClaim(s, c.payload.header, c.caller.gen)
    case Abandon(_) => RemoveClaim(s, c.payload.header, c.caller.gen)
    case CommitUnverified(_, now) => s.(unverified := Bodies.Commit(s.unverified, c.payload.Body(), now))
    case AbandonUnverified(_) => s.(unverified := released)
    case _ => s
  }

  function Step(cfg: Config, s: State, a: Action): State
    requires Enabled(s, a)
  {
    if a.Arrive? then s.(copies := s.copies + [Copy(a.payload, a.pool, Looking, NoJob)])
    else Shared(cfg, s, a).(copies := s.copies[a.id := Moved(cfg, s, a)])
  }

  // ---------------------------------------------------------------------------
  // Runs

  function After(cfg: Config, run: Trace<Action>): State
    requires IsRun(cfg, run)
    decreases run, 1
  {
    match run
    case Start => Init(cfg)
    case Then(before, a) => Step(cfg, After(cfg, before), a)
  }

  predicate IsRun(cfg: Config, run: Trace<Action>)
    decreases run, 0
  {
    run.Then? ==> IsRun(cfg, run.before) && Enabled(After(cfg, run.before), run.last)
  }
}
