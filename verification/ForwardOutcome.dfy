/** Which outcome a copy comes to, told from the actions of the run alone: every
    outcome has the actions that decide it, and a copy has an outcome exactly if the
    run holds one of them. */
module ForwardOutcome {
  import opened Common
  import Bodies = UnverifiedForwards
  import opened RecentForwarded
  import opened ForwardProtocol
  import opened ForwardSafety

  // ---------------------------------------------------------------------------
  // What happened in a run

  ghost predicate Happened(run: Trace<Action>, a: Action) {
    run.Then? && (run.last == a || Happened(run.before, a))
  }

  /** The job of copy `id` found that its body had been sent unverified before. */
  ghost predicate FoundSent(cfg: Config, run: Trace<Action>, id: nat)
    requires IsRun(cfg, run)
  {
    && run.Then?
    && (FoundSent(cfg, run.before, id) || SeesSent(cfg, After(cfg, run.before), run.last, id))
  }

  ghost predicate SeesSent(cfg: Config, s: State, a: Action, id: nat)
    requires Enabled(s, a)
  {
    a.CheckSent? && a.id == id && cfg.bypass
      && Bodies.Sent(cfg.bodies, s.unverified, s.copies[id].payload.Body(), a.now)
  }

  /** The job of copy `id` asked for a place in the unverified ledger and got none. */
  ghost predicate TurnedDown(cfg: Config, run: Trace<Action>, id: nat)
    requires IsRun(cfg, run)
  {
    && run.Then?
    && (TurnedDown(cfg, run.before, id) || GetsNoPlace(cfg, After(cfg, run.before), run.last, id))
  }

  ghost predicate GetsNoPlace(cfg: Config, s: State, a: Action, id: nat)
    requires Enabled(s, a)
  {
    && a.Reserve? && a.id == id
    && !Bodies.Reserve(cfg.bodies, s.unverified, s.copies[id].payload.Body(), a.now).1.Reserved?
  }

  /** Copy `id` recorded its block as forwarded. */
  ghost predicate Recorded(run: Trace<Action>, id: nat) {
    run.Then? && ((run.last.Commit? && run.last.id == id) || Recorded(run.before, id))
  }

  /** Copy `id` recorded its block, and let go of its claim after that. */
  ghost predicate RecordedThenEnded(run: Trace<Action>, id: nat) {
    run.Then? && (RecordedThenEnded(run.before, id) || (run.last == EndClaim(id) && Recorded(run.before, id)))
  }

  ghost predicate IsJobStep(a: Action) {
    a.CheckSent? || a.Parse? || a.Reserve? || a.CheckWork?
  }

  ghost predicate JobActed(run: Trace<Action>, id: nat) {
    run.Then? && ((IsJobStep(run.last) && run.last.id == id) || JobActed(run.before, id))
  }

  /** What the job of copy `id` has to say of payload `p`, once it has got that far: that it
      was sent before; of a block that reads, whether it builds; of one that may be sent
      unverified, whether it got a place and then whether its work and its split are good;
      of any other, that there is nothing to send. */
  ghost function Told(cfg: Config, run: Trace<Action>, id: nat, p: Payload): Option<Result>
    requires IsRun(cfg, run)
  {
    if FoundSent(cfg, run, id) then Some(PreviouslySent)
    else if p.verdict.Unreadable? && cfg.bypass then
      if TurnedDown(cfg, run, id) || Happened(run, CheckWork(id, false)) then Some(Rejected)
      else if Happened(run, CheckWork(id, true)) then Some(if p.proofOfWork then Unverified else Rejected)
      else None
    else if Happened(run, Parse(id, false)) then Some(Rejected)
    else if Happened(run, Parse(id, true)) then Some(if p.verdict.Readable? then Validated else Rejected)
    else None
  }

  /** The action `a`, after `before`, decides that copy `id` comes to outcome `o`. */
  ghost predicate Decides(cfg: Config, before: Trace<Action>, a: Action, id: nat, o: Outcome)
    requires IsRun(cfg, before) && Enabled(After(cfg, before), a)
  {
    && !a.Arrive? && a.id == id
    && var s := After(cfg, before);
    match o
    case Forwarded => a.EndClaim?
    case ForwardedUnverified => a.CommitUnverified?
    case Deduplicated =>
      || ((a.Look? || a.Claim?) && Found(cfg, s, s.copies[id], a.now).IsForwarded?)
      || (a.Deliver? && Told(cfg, before, id, s.copies[id].payload) == Some(PreviouslySent))
    case Refused => a.Deliver? && Told(cfg, before, id, s.copies[id].payload) == Some(Rejected)
    case Failed => a.Abandon? || a.AbandonUnverified? || a.Cancel? || a.Panic?
  }

  ghost predicate Decided(cfg: Config, run: Trace<Action>, id: nat, o: Outcome)
    requires IsRun(cfg, run)
  {
    run.Then? && (Decided(cfg, run.before, id, o) || Decides(cfg, run.before, run.last, id, o))
  }

  /** The outcome a copy has come to, or will once it lets go of its permit. */
  function Settled(c: Copy): Option<Outcome> {
    match c.caller
    case Finished(o) => Some(o)
    case Dropping(Finish(o)) => Some(o)
    case _ => None
  }

  // ---------------------------------------------------------------------------
  // A copy's story

  /** The copy has not got as far as its job. */
  predicate BeforeJob(c: Copy) {
    || c.caller.Looking? || c.caller.WaitingEarly? || c.caller.WantsPermit? || c.caller.Rechecking?
    || c.caller == Dropping(LookAgain)
  }

  /** The copy is on the way to sending a valid block, or has sent it. */
  predicate SendsValidated(c: Copy) {
    || c.caller.Claiming? || c.caller.WaitingLate? || (c.caller.Dropping? && c.caller.next.WaitFor?)
    || ClaimOf(c).Some? || c.caller == Finished(Forwarded)
  }

  predicate SendsUnverified(c: Copy) {
    || c.caller == Dropping(SendUnverified) || c.caller.SendingUnverified?
    || c.caller == Finished(ForwardedUnverified)
  }

  /** The job of copy `id` has found nothing against it, and has not judged its work. */
  ghost predicate NothingFound(cfg: Config, run: Trace<Action>, id: nat)
    requires IsRun(cfg, run)
  {
    && !FoundSent(cfg, run, id) && !TurnedDown(cfg, run, id)
    && !Happened(run, CheckWork(id, true)) && !Happened(run, CheckWork(id, false))
  }

  /** The job stands where the run says. */
  ghost predicate JobStory(cfg: Config, run: Trace<Action>, id: nat, c: Copy)
    requires IsRun(cfg, run)
  {
    && (BeforeJob(c) || c.job.CheckingSent? ==> !JobActed(run, id))
    && (c.job.Parsing? || c.job.Reserving? || c.job.CheckingWork? ==> NothingFound(cfg, run, id))
    && (c.job.Parsing? ==> !Happened(run, Parse(id, true)) && !Happened(run, Parse(id, false)))
    && (c.job.Built? ==> Told(cfg, run, id, c.payload) == Some(c.job.result))
    && (!c.job.NoJob? ==> c.caller.Preparing? || c.caller == Finished(Failed))
    && (SendsValidated(c) ==> Told(cfg, run, id, c.payload) == Some(Validated))
    && (SendsUnverified(c) ==> Told(cfg, run, id, c.payload) == Some(Unverified))
    && (c.caller.Committed? ==> Recorded(run, id))
  }

  /** A copy nobody has acted for has no story. */
  lemma {:induction false} NothingHappened(cfg: Config, run: Trace<Action>, id: nat, a: Action, o: Outcome)
    requires IsRun(cfg, run) && id >= |After(cfg, run).copies| && !a.Arrive? && a.id == id
    ensures !JobActed(run, id) && !FoundSent(cfg, run, id) && !Happened(run, a) && !Recorded(run, id)
    ensures !Decided(cfg, run, id, o) && !RecordedThenEnded(run, id)
  {
    hide Moved, Shared, After, Told, Found, Bodies.Sent;
    if run.Then? {
      FewerBefore(cfg, run);
      NothingHappened(cfg, run.before, id, a, o);
    }
  }

  lemma {:induction false} FewerBefore(cfg: Config, run: Trace<Action>)
    requires IsRun(cfg, run) && run.Then?
    ensures |After(cfg, run.before).copies| <= |After(cfg, run).copies|
    ensures |After(cfg, run).copies| == |After(cfg, run.before).copies| + (if run.last.Arrive? then 1 else 0)
  {
    hide Shared, Moved;
  }

  /** An action that is not a step of this copy's job leaves its job's words as they were. */
  lemma {:induction false} ToldFrame(cfg: Config, run: Trace<Action>, id: nat, p: Payload)
    requires IsRun(cfg, run) && run.Then? && (run.last.Arrive? || run.last.id != id || !IsJobStep(run.last))
    ensures Told(cfg, run, id, p) == Told(cfg, run.before, id, p)
    ensures NothingFound(cfg, run, id) == NothingFound(cfg, run.before, id)
    ensures JobActed(run, id) == JobActed(run.before, id)
    ensures forall b :: Happened(run, Parse(id, b)) == Happened(run.before, Parse(id, b))
  {
    hide After;
  }

  lemma {:induction false} NothingSaid(cfg: Config, run: Trace<Action>, id: nat)
    requires IsRun(cfg, run) && !JobActed(run, id)
    ensures NothingFound(cfg, run, id) && !Happened(run, Parse(id, true)) && !Happened(run, Parse(id, false))
  {
    hide After;
    if run.Then? {
      NothingSaid(cfg, run.before, id);
    }
  }

  lemma {:induction false} OwnJobStep(cfg: Config, run: Trace<Action>, c: Copy)
    requires IsRun(cfg, run) && run.Then? && !run.last.Arrive? && IsJobStep(run.last)
    requires PhaseOk(cfg, After(cfg, run.before).copies[run.last.id])
    requires JobStory(cfg, run.before, run.last.id, After(cfg, run.before).copies[run.last.id])
    requires c == Moved(cfg, After(cfg, run.before), run.last)
    ensures JobStory(cfg, run, run.last.id, c)
    ensures Settled(c) == Settled(After(cfg, run.before).copies[run.last.id])
  {
    hide Bodies.Sent, Bodies.Reserve, After, Shared;
    var s, id := After(cfg, run.before), run.last.id;
    if run.last.CheckSent? {
      NothingSaid(cfg, run.before, id);
    }
    assert BeforeJob(c) <==> BeforeJob(s.copies[id]);
  }

  lemma {:induction false} OwnCallerStep(cfg: Config, run: Trace<Action>, c: Copy)
    requires IsRun(cfg, run) && run.Then? && !run.last.Arrive? && !IsJobStep(run.last)
    requires PhaseOk(cfg, After(cfg, run.before).copies[run.last.id])
    requires JobStory(cfg, run.before, run.last.id, After(cfg, run.before).copies[run.last.id])
    requires c == Moved(cfg, After(cfg, run.before), run.last)
    ensures JobStory(cfg, run, run.last.id, c)
  {
    hide Bodies.Sent, Bodies.Reserve, After, Shared, Told, NothingFound, Happened, JobActed, Found;
    ToldFrame(cfg, run, run.last.id, c.payload);
  }

  /** One step decides an outcome for the copy that takes it exactly as the run says. */
  lemma {:induction false} OwnDecision(cfg: Config, run: Trace<Action>, o: Outcome)
    requires IsRun(cfg, run) && run.Then? && !run.last.Arrive?
    requires PhaseOk(cfg, After(cfg, run.before).copies[run.last.id])
    requires JobStory(cfg, run.before, run.last.id, After(cfg, run.before).copies[run.last.id])
    ensures var s, a := After(cfg, run.before), run.last;
            Settled(Moved(cfg, s, a)) == Some(o)
            <==> Settled(s.copies[a.id]) == Some(o) || Decides(cfg, run.before, a, a.id, o)
  {
    hide Bodies.Sent, Bodies.Reserve, After, Shared, Told, NothingFound, Happened, JobActed, Found;
  }

  // ---------------------------------------------------------------------------
  // Over whole runs

  /** The run tells the copy's job and its outcome. */
  ghost predicate Story(cfg: Config, run: Trace<Action>, id: nat, c: Copy)
    requires IsRun(cfg, run)
  {
    && JobStory(cfg, run, id, c)
    && (forall o :: Settled(c) == Some(o) <==> Decided(cfg, run, id, o))
    && (Decided(cfg, run, id, Forwarded) <==> RecordedThenEnded(run, id))
  }

  lemma {:induction false} NewCopyStory(cfg: Config, run: Trace<Action>, id: nat)
    requires IsRun(cfg, run) && run.Then? && run.last.Arrive? && id == |After(cfg, run.before).copies|
    ensures Story(cfg, run, id, Copy(run.last.payload, run.last.pool, Looking, NoJob))
  {
    hide After, Enabled, Told, NothingFound, Happened;
    forall o ensures !Decided(cfg, run, id, o) {
      NothingHappened(cfg, run.before, id, Look(id, 0), o);
    }
    NothingHappened(cfg, run.before, id, Look(id, 0), Failed);
  }

  /** A copy that another action leaves alone keeps its story. */
  lemma {:induction false} OtherStory(cfg: Config, run: Trace<Action>, id: nat, c: Copy)
    requires IsRun(cfg, run) && run.Then? && (run.last.Arrive? || run.last.id != id)
    requires Story(cfg, run.before, id, c)
    ensures Story(cfg, run, id, c)
  {
    hide After, Enabled, Told, NothingFound, Happened, JobActed, Settled;
    ToldFrame(cfg, run, id, c.payload);
  }

  lemma {:induction false} OwnStory(cfg: Config, run: Trace<Action>)
    requires IsRun(cfg, run) && run.Then? && !run.last.Arrive?
    requires PhaseOk(cfg, After(cfg, run.before).copies[run.last.id])
    requires Story(cfg, run.before, run.last.id, After(cfg, run.before).copies[run.last.id])
    ensures Story(cfg, run, run.last.id, Moved(cfg, After(cfg, run.before), run.last))
  {
    var id, c := run.last.id, Moved(cfg, After(cfg, run.before), run.last);
    if IsJobStep(run.last) {
      OwnJobStep(cfg, run, c);
    } else {
      OwnCallerStep(cfg, run, c);
    }
    forall o ensures Settled(c) == Some(o) <==> Decided(cfg, run, id, o) {
      OwnDecision(cfg, run, o);
    }
    EndsAfterRecording(cfg, run);
  }

  lemma {:induction false} EndsAfterRecording(cfg: Config, run: Trace<Action>)
    requires IsRun(cfg, run) && run.Then? && !run.last.Arrive?
    requires Story(cfg, run.before, run.last.id, After(cfg, run.before).copies[run.last.id])
    ensures Decided(cfg, run, run.last.id, Forwarded) <==> RecordedThenEnded(run, run.last.id)
  {
    hide After, Told, NothingFound, Happened, JobActed, Settled;
  }

  lemma {:induction false} StoryHolds(cfg: Config, run: Trace<Action>, id: nat)
    requires ValidConfig(cfg) && IsRun(cfg, run) && id < |After(cfg, run).copies|
    ensures Story(cfg, run, id, After(cfg, run).copies[id])
    decreases run
  {
    hide Story, Moved, Shared, PhaseOk;
    if run.Then? {
      var s, a := After(cfg, run.before), run.last;
      InvHolds(cfg, run.before);
      FewerBefore(cfg, run);
      if id == |s.copies| {
        NewCopyStory(cfg, run, id);
      } else {
        StoryHolds(cfg, run.before, id);
        if !a.Arrive? && a.id == id {
          OwnStory(cfg, run);
        } else {
          OtherStory(cfg, run, id, s.copies[id]);
        }
      }
    }
  }

  /** An outcome is told from the actions of the run, and every copy comes to one at most:
      forwarded if it recorded its block and then let go of its claim, forwarded
      unverified if it recorded a body, deduplicated if it found its block forwarded or
      its body sent, refused if its job handed over nothing to send, and failed if it
      gave up, was cancelled or its job panicked. */
  lemma OutcomeIsExact(cfg: Config, run: Trace<Action>, id: nat, o: Outcome)
    requires ValidConfig(cfg) && IsRun(cfg, run) && id < |After(cfg, run).copies|
    ensures Settled(After(cfg, run).copies[id]) == Some(o) <==> Decided(cfg, run, id, o)
    ensures o.Forwarded? || o.ForwardedUnverified? || o.Failed? ==>
              (After(cfg, run).copies[id].caller == Finished(o) <==> Decided(cfg, run, id, o))
    ensures After(cfg, run).copies[id].caller == Finished(Forwarded) <==> RecordedThenEnded(run, id)
    ensures forall other :: Decided(cfg, run, id, o) && Decided(cfg, run, id, other) ==> other == o
  {
    hide Decided, After, JobStory, Inv, RecordedThenEnded;
    StoryHolds(cfg, run, id);
    InOrder(cfg, run, id);
    var c := After(cfg, run).copies[id];
    assert Settled(c) == Some(Forwarded) <==> Decided(cfg, run, id, Forwarded);
  }

  lemma {:induction false} InOrder(cfg: Config, run: Trace<Action>, id: nat)
    requires ValidConfig(cfg) && IsRun(cfg, run) && id < |After(cfg, run).copies|
    ensures PhaseOk(cfg, After(cfg, run).copies[id])
  {
    hide PhaseOk, After, IsRun;
    InvHolds(cfg, run);
  }

  /** Only a block that reads and builds is forwarded, and only one that does not read,
      with the bypass on, its work done and its split good, is forwarded unverified. */
  lemma SentIsTold(cfg: Config, run: Trace<Action>, id: nat)
    requires ValidConfig(cfg) && IsRun(cfg, run) && id < |After(cfg, run).copies|
    ensures var p := After(cfg, run).copies[id].payload;
            && (Decided(cfg, run, id, Forwarded) ==> p.verdict.Readable? && Happened(run, Parse(id, true)))
            && (Decided(cfg, run, id, ForwardedUnverified) ==>
              && cfg.bypass && p.verdict.Unreadable? && p.proofOfWork && Happened(run, CheckWork(id, true))
              && !FoundSent(cfg, run, id))
  {
    hide Decided, After, Happened, FoundSent, TurnedDown, Inv, RecordedThenEnded, Recorded, JobActed;
    StoryHolds(cfg, run, id);
    InOrder(cfg, run, id);
    var c := After(cfg, run).copies[id];
    assert Settled(c) == Some(Forwarded) <==> Decided(cfg, run, id, Forwarded);
    assert Settled(c) == Some(ForwardedUnverified) <==> Decided(cfg, run, id, ForwardedUnverified);
  }
}
