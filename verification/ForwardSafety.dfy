/** What every step of the forward protocol keeps. */
module ForwardSafety {
  import opened Common
  import Ring = TimedRing
  import Bodies = UnverifiedForwards
  import opened RecentForwarded
  import opened ForwardProtocol

  // ---------------------------------------------------------------------------
  // Ownership, read off a copy's phase

  /** The generation of the claim a copy owns. */
  function ClaimOf(c: Copy): Option<nat> {
    match c.caller
    case Dropping(Send(gen)) => Some(gen)
    case Sending(gen) => Some(gen)
    case Committed(gen) => Some(gen)
    case _ => None
  }

  /** The generation a copy is waiting out, or is about to. */
  function WaitsOn(c: Copy): Option<nat> {
    match c.caller
    case WaitingEarly(gen) => Some(gen)
    case WaitingLate(gen) => Some(gen)
    case Dropping(WaitFor(gen)) => Some(gen)
    case _ => None
  }

  predicate HoldsPermit(c: Copy) {
    c.caller.Rechecking? || c.caller == Claiming(true) || c.caller.Dropping? || !c.job.NoJob?
  }

  /** The copy, or its job, owns a place in the unverified ledger. */
  predicate HoldsSlot(c: Copy) {
    c.job.CheckingWork? || c.job == Built(Unverified) || c.caller == Dropping(SendUnverified)
      || c.caller.SendingUnverified?
  }

  function Holders(copies: seq<Copy>, pool: Pool): nat {
    if copies == [] then 0
    else Holders(copies[..|copies| - 1], pool) + Weight(copies[|copies| - 1], pool)
  }

  function Weight(c: Copy, pool: Pool): nat {
    if c.pool == pool && HoldsPermit(c) then 1 else 0
  }

  // ---------------------------------------------------------------------------
  // The invariant

  /** A copy that has got as far as claiming holds a body the reader accepted, one
      that reserved a place holds a body it could not read, and a job runs only for
      a caller that waits for it or is gone. */
  ghost predicate PhaseOk(cfg: Config, c: Copy) {
    && (c.caller.Preparing? ==> !c.job.NoJob?)
    && (!c.job.NoJob? ==> c.caller.Preparing? || c.caller.Finished?)
    && (c.caller.Claiming? || c.caller.WaitingLate? || ClaimOf(c).Some? || c.job == Built(Validated)
        || c.caller == Finished(Forwarded) || (c.caller.Dropping? && c.caller.next.WaitFor?)
        ==> c.payload.verdict.Readable?)
    && (c.caller.Dropping? && c.caller.next.Finish? ==>
      c.caller.next.outcome.Deduplicated? || c.caller.next.outcome.Refused?)
    && (HoldsSlot(c) || c.job.Reserving? || c.caller == Finished(ForwardedUnverified)
        ==> c.payload.verdict.Unreadable? && cfg.bypass)
  }

  ghost predicate PhasesOk(cfg: Config, s: State) {
    forall id :: 0 <= id < |s.copies| ==> PhaseOk(cfg, s.copies[id])
  }

  ghost predicate OwnsClaim(copies: seq<Copy>, id: nat, h: Hash, gen: nat) {
    id < |copies| && copies[id].payload.header == h && ClaimOf(copies[id]) == Some(gen)
  }

  /** The claims in flight are exactly the live ones, one per header. */
  ghost predicate ClaimsExact(copies: seq<Copy>, inFlight: map<Hash, nat>) {
    && (forall id :: 0 <= id < |copies| && ClaimOf(copies[id]).Some? ==>
          copies[id].payload.header in inFlight && inFlight[copies[id].payload.header] == ClaimOf(copies[id]).value)
    && (forall h :: h in inFlight ==> exists id :: OwnsClaim(copies, id, h, inFlight[h]))
    && (forall i, j :: 0 <= i < j < |copies| && ClaimOf(copies[i]).Some? && ClaimOf(copies[j]).Some? ==>
          copies[i].payload.header != copies[j].payload.header)
  }

  ghost predicate GenerationsOk(s: State) {
    && (forall h :: h in s.inFlight ==> s.inFlight[h] < s.nextGen && s.inFlight[h] !in s.closed)
    && (forall g :: g in s.closed ==> g < s.nextGen)
    && (forall h, k :: h in s.inFlight && k in s.inFlight && s.inFlight[h] == s.inFlight[k] ==> h == k)
  }

  /** No lost wakeup: a waiting copy waits on the send now in flight for its block,
      or on one that has ended. */
  ghost predicate WaitersOk(s: State) {
    forall id :: 0 <= id < |s.copies| && WaitsOn(s.copies[id]).Some? ==>
      var g, h := WaitsOn(s.copies[id]).value, s.copies[id].payload.header;
      g in s.closed || (h in s.inFlight && s.inFlight[h] == g)
  }

  ghost predicate DistinctKeys(ring: seq<Ring.Stamped>) {
    forall i, j :: 0 <= i < j < |ring| ==> ring[i].key != ring[j].key
  }

  ghost predicate RingOk(s: State) {
    && DistinctKeys(s.ring)
    && (forall id :: 0 <= id < |s.copies| && ClaimOf(s.copies[id]).Some? && !s.copies[id].caller.Committed? ==>
          !Ring.Holds(s.ring, s.copies[id].payload.header))
  }

  /** Every permit is free or held, whether its caller is there or not. */
  ghost predicate PermitsConserved(cfg: Config, s: State) {
    && s.free.Keys == cfg.permits.Keys
    && forall p :: p in s.free ==> s.free[p] + Holders(s.copies, p) == cfg.permits[p]
  }

  /** The unsent entries of the ledger are exactly the places owned by a live guard,
      one guard each. */
  ghost predicate LedgerOk(limits: Bodies.Limits, entries: seq<Bodies.Entry>, copies: seq<Copy>) {
    && Bodies.WellKept(limits, entries)
    && (forall e :: e in entries && !e.sent ==> exists id :: OwnsSlot(copies, id, e.body))
    && (forall id :: 0 <= id < |copies| && HoldsSlot(copies[id]) ==> Bodies.Owned(entries, copies[id].payload.Body()))
    && (forall i, j :: 0 <= i < j < |copies| && HoldsSlot(copies[i]) && HoldsSlot(copies[j]) ==>
          copies[i].payload.Body() != copies[j].payload.Body())
  }

  ghost predicate OwnsSlot(copies: seq<Copy>, id: nat, body: Bodies.Body) {
    id < |copies| && HoldsSlot(copies[id]) && copies[id].payload.Body() == body
  }

  ghost predicate Inv(cfg: Config, s: State) {
    && PhasesOk(cfg, s)
    && ClaimsExact(s.copies, s.inFlight)
    && GenerationsOk(s)
    && WaitersOk(s)
    && RingOk(s)
    && PermitsConserved(cfg, s)
    && LedgerOk(cfg.bodies, s.unverified, s.copies)
  }

  // ---------------------------------------------------------------------------
  // Preservation

  /** The moves of a copy's job keep it in order. */
  lemma {:induction false} JobMoveOk(cfg: Config, s: State, a: Action)
    requires Enabled(s, a) && !a.Arrive? && PhaseOk(cfg, s.copies[a.id])
    requires a.CheckSent? || a.Parse? || a.Reserve? || a.CheckWork? || a.Panic? || a.Deliver? || a.Discard?
    ensures PhaseOk(cfg, Moved(cfg, s, a))
  {
    hide Bodies.Reserve, Bodies.Sent;
  }

  /** So do the moves of the copy itself. */
  lemma {:induction false} CallerMoveOk(cfg: Config, s: State, a: Action)
    requires Enabled(s, a) && !a.Arrive? && PhaseOk(cfg, s.copies[a.id])
    requires !(a.CheckSent? || a.Parse? || a.Reserve? || a.CheckWork? || a.Panic? || a.Deliver? || a.Discard?)
    ensures PhaseOk(cfg, Moved(cfg, s, a))
  {
    hide Swept;
  }

  lemma {:induction false} PhasesKept(cfg: Config, s: State, a: Action)
    requires PhasesOk(cfg, s) && Enabled(s, a)
    ensures PhasesOk(cfg, Step(cfg, s, a))
  {
    hide Shared, Moved, PhaseOk;
    if a.Arrive? {
      NewCopyOk(cfg, a.payload, a.pool);
    } else if a.CheckSent? || a.Parse? || a.Reserve? || a.CheckWork? || a.Panic? || a.Deliver? || a.Discard? {
      JobMoveOk(cfg, s, a);
    } else {
      CallerMoveOk(cfg, s, a);
    }
  }

  lemma {:induction false} NewCopyOk(cfg: Config, p: Payload, pool: Pool)
    ensures PhaseOk(cfg, Copy(p, pool, Looking, NoJob))
  {
  }

  /** Only a claim that finds the block open, the end of a claim and an abandoned
      send change the claims. */
  lemma {:induction false} ClaimsFrame(cfg: Config, s: State, a: Action)
    requires Enabled(s, a) && !a.Arrive? && !a.Claim? && !a.EndClaim? && !a.Abandon?
    ensures var s' := Shared(cfg, s, a);
            s'.inFlight == s.inFlight && s'.nextGen == s.nextGen && s'.closed == s.closed
    ensures ClaimOf(Moved(cfg, s, a)) == ClaimOf(s.copies[a.id])
  {
    hide Bodies.Reserve, Bodies.Commit, Bodies.Without, Bodies.Sent, Swept, RecordForwarded, StatusOf;
  }

  lemma {:induction false} SamePayload(cfg: Config, s: State, a: Action)
    requires Enabled(s, a) && !a.Arrive?
    ensures Moved(cfg, s, a).payload == s.copies[a.id].payload && Moved(cfg, s, a).pool == s.copies[a.id].pool
  {
  }

  lemma {:induction false} ClaimsKept(cfg: Config, s: State, a: Action)
    requires ClaimsExact(s.copies, s.inFlight) && Enabled(s, a)
    ensures ClaimsExact(Step(cfg, s, a).copies, Step(cfg, s, a).inFlight)
  {
    hide ClaimsExact, Bodies.Reserve, Bodies.Commit, Bodies.Without, Bodies.Sent, Swept, RecordForwarded;
    if a.Arrive? {
      ClaimsAfterArrival(s.copies, s.inFlight, Copy(a.payload, a.pool, Looking, NoJob));
    } else {
      SamePayload(cfg, s, a);
      var c' := Moved(cfg, s, a);
      if a.Claim? {
        ClaimsAfterMove(s.copies, s.inFlight, a.id, c');
      } else if a.EndClaim? || a.Abandon? {
        ClaimsAfterRemoval(s.copies, s.inFlight, a.id, c');
      } else {
        ClaimsFrame(cfg, s, a);
        ClaimsAfterMove(s.copies, s.inFlight, a.id, c');
      }
    }
  }

  lemma {:induction false} ClaimsAfterArrival(copies: seq<Copy>, inFlight: map<Hash, nat>, c: Copy)
    requires ClaimsExact(copies, inFlight) && ClaimOf(c) == None
    ensures ClaimsExact(copies + [c], inFlight)
  {
    forall h | h in inFlight ensures exists id :: OwnsClaim(copies + [c], id, h, inFlight[h]) {
      var id :| OwnsClaim(copies, id, h, inFlight[h]);
      assert OwnsClaim(copies + [c], id, h, inFlight[h]);
    }
  }

  /** A copy keeps its claim, or takes one on a header that had none. */
  lemma {:induction false} ClaimsAfterMove(copies: seq<Copy>, inFlight: map<Hash, nat>, id: nat, c: Copy)
    requires ClaimsExact(copies, inFlight) && id < |copies| && c.payload == copies[id].payload
    requires ClaimOf(c) == ClaimOf(copies[id]) || (ClaimOf(c).Some? && c.payload.header !in inFlight)
    ensures ClaimsExact(copies[id := c],
                        if ClaimOf(c) == ClaimOf(copies[id])
                          then inFlight else inFlight[c.payload.header := ClaimOf(c).value])
  {
    var copies' := copies[id := c];
    var inFlight' := if ClaimOf(c) == ClaimOf(copies[id])
      then inFlight else inFlight[c.payload.header := ClaimOf(c).value];
    forall h | h in inFlight' ensures exists id :: OwnsClaim(copies', id, h, inFlight'[h]) {
      if h in inFlight {
        var owner :| OwnsClaim(copies, owner, h, inFlight[h]);
        assert OwnsClaim(copies', owner, h, inFlight'[h]);
      } else {
        assert OwnsClaim(copies', id, h, inFlight'[h]);
      }
    }
  }

  lemma {:induction false} ClaimsAfterRemoval(copies: seq<Copy>, inFlight: map<Hash, nat>, id: nat, c: Copy)
    requires ClaimsExact(copies, inFlight) && id < |copies| && c.payload == copies[id].payload
    requires ClaimOf(copies[id]).Some? && ClaimOf(c) == None
    ensures ClaimsExact(copies[id := c], inFlight - {c.payload.header})
  {
    var copies', inFlight' := copies[id := c], inFlight - {c.payload.header};
    forall h | h in inFlight' ensures exists id :: OwnsClaim(copies', id, h, inFlight'[h]) {
      var owner :| OwnsClaim(copies, owner, h, inFlight[h]);
      assert OwnsClaim(copies', owner, h, inFlight'[h]);
    }
  }

  lemma {:induction false} GenerationsKept(cfg: Config, s: State, a: Action)
    requires ClaimsExact(s.copies, s.inFlight) && GenerationsOk(s) && Enabled(s, a)
    ensures GenerationsOk(Step(cfg, s, a))
  {
    hide Moved, Bodies.Reserve, Bodies.Commit, Bodies.Without, Swept, RecordForwarded;
    if !a.Arrive? && !a.Claim? && !a.EndClaim? && !a.Abandon? {
      ClaimsFrame(cfg, s, a);
    }
  }

  /** A copy that starts to wait has just seen the send it waits on. */
  lemma {:induction false} WaitsFrame(cfg: Config, s: State, a: Action)
    requires Enabled(s, a) && !a.Arrive?
    ensures var w := WaitsOn(Moved(cfg, s, a));
            w == None || w == WaitsOn(s.copies[a.id])
            || (s.copies[a.id].payload.header in s.inFlight && w == Some(s.inFlight[s.copies[a.id].payload.header])
                && (a.Look? || a.Claim?))
  {
  }

  /** A claim that goes away closes its generation. */
  lemma {:induction false} InFlightFrame(cfg: Config, s: State, a: Action)
    requires ClaimsExact(s.copies, s.inFlight) && Enabled(s, a) && !a.Arrive?
    ensures var s' := Shared(cfg, s, a);
            && s.closed <= s'.closed
            && forall h :: h in s.inFlight ==>
              (h in s'.inFlight && s'.inFlight[h] == s.inFlight[h]) || s.inFlight[h] in s'.closed
  {
    if !a.Claim? && !a.EndClaim? && !a.Abandon? {
      ClaimsFrame(cfg, s, a);
    }
  }

  lemma {:induction false} WaitersKept(cfg: Config, s: State, a: Action)
    requires ClaimsExact(s.copies, s.inFlight) && WaitersOk(s) && Enabled(s, a)
    ensures WaitersOk(Step(cfg, s, a))
  {
    hide Moved, Shared, ClaimsExact;
    if !a.Arrive? {
      SamePayload(cfg, s, a);
      WaitsFrame(cfg, s, a);
      InFlightFrame(cfg, s, a);
    }
  }

  // The ring.

  lemma {:induction false} EvictedRing(ring: seq<Ring.Stamped>, now: Time, window: nat)
    requires DistinctKeys(ring)
    ensures DistinctKeys(Ring.Evict(ring, now, window))
    ensures forall h :: Ring.Holds(Ring.Evict(ring, now, window), h) ==> Ring.Holds(ring, h)
  {
    Ring.EvictIsEviction(ring, now, window);
    var kept := Ring.Evict(ring, now, window);
    assert forall i :: 0 <= i < |kept| ==> kept[i] == ring[|ring| - |kept| + i];
  }

  lemma {:induction false} RecordedRing(cfg: Config, ring: seq<Ring.Stamped>, h: Hash, now: Time)
    requires DistinctKeys(ring) && !Ring.Holds(ring, h)
    ensures DistinctKeys(RecordForwarded(ring, cfg.capacity, cfg.window, h, now))
    ensures forall k :: Ring.Holds(RecordForwarded(ring, cfg.capacity, cfg.window, h, now), k) ==>
            k == h || Ring.Holds(ring, k)
  {
    EvictedRing(ring, now, cfg.window);
  }

  lemma {:induction false} RingKept(cfg: Config, s: State, a: Action)
    requires ClaimsExact(s.copies, s.inFlight) && RingOk(s) && Enabled(s, a)
    ensures RingOk(Step(cfg, s, a))
  {
    hide Moved, Shared, DistinctKeys, Ring.Holds;
    if !a.Arrive? {
      RingFrame(cfg, s, a);
      OwnRing(cfg, s, a);
      var s', h := Step(cfg, s, a), s.copies[a.id].payload.header;
      forall id | 0 <= id < |s.copies| && id != a.id && ClaimOf(s.copies[id]).Some? && !s.copies[id].caller.Committed?
        ensures !Ring.Holds(s'.ring, s.copies[id].payload.header)
      {
        if a.Commit? {
          assert ClaimOf(s.copies[a.id]).Some?;
        }
      }
    }
  }

  /** A step leaves the ring without repeats, and adds only a header it commits. */
  lemma {:induction false} RingFrame(cfg: Config, s: State, a: Action)
    requires RingOk(s) && Enabled(s, a) && !a.Arrive?
    ensures DistinctKeys(Shared(cfg, s, a).ring)
    ensures forall h :: Ring.Holds(Shared(cfg, s, a).ring, h) ==>
              Ring.Holds(s.ring, h) || (a.Commit? && h == s.copies[a.id].payload.header)
  {
    hide Moved, Bodies.Reserve, Bodies.Commit, Bodies.Without;
    if a.Look? || a.Recheck? || a.Claim? {
      EvictedRing(s.ring, a.now, cfg.window);
    }
    if a.Commit? {
      RecordedRing(cfg, s.ring, s.copies[a.id].payload.header, a.now);
    }
  }

  /** The copy that moved, if it has a claim and has not committed, has a header that is
      not in the ring. */
  lemma {:induction false} OwnRing(cfg: Config, s: State, a: Action)
    requires RingOk(s) && Enabled(s, a) && !a.Arrive?
    ensures var c := Moved(cfg, s, a);
            ClaimOf(c).Some? && !c.caller.Committed? ==> !Ring.Holds(Shared(cfg, s, a).ring, c.payload.header)
  {
    hide Bodies.Reserve, Bodies.Commit, Bodies.Without, Bodies.Sent, RecordForwarded, Ring.Holds, DistinctKeys;
    RingFrame(cfg, s, a);
    SamePayload(cfg, s, a);
    if !a.Claim? && !a.EndClaim? && !a.Abandon? {
      ClaimsFrame(cfg, s, a);
    }
  }

  // The permits.

  lemma {:induction false} HoldersAfterMove(copies: seq<Copy>, id: nat, c: Copy, pool: Pool)
    requires id < |copies|
    ensures Holders(copies[id := c], pool) + Weight(copies[id], pool) == Holders(copies, pool) + Weight(c, pool)
  {
    var n := |copies| - 1;
    if id < n {
      assert copies[id := c][..n] == copies[..n][id := c];
      HoldersAfterMove(copies[..n], id, c, pool);
    } else {
      assert copies[id := c][..n] == copies[..n];
    }
  }

  /** These steps move a permit between the pool and its copy. */
  lemma {:induction false} PermitMoves(cfg: Config, s: State, a: Action, pool: Pool)
    requires (a.Acquire? || a.DropPermit? || a.Panic? || a.Discard?) && Enabled(s, a) && PhaseOk(cfg, s.copies[a.id])
    requires pool in s.free && s.copies[a.id].pool in s.free
    ensures Shared(cfg, s, a).free.Keys == s.free.Keys
    ensures Shared(cfg, s, a).free[pool] + Weight(Moved(cfg, s, a), pool) == s.free[pool] + Weight(s.copies[a.id], pool)
  {
    hide Bodies.Without;
  }

  /** The others move none. */
  lemma {:induction false} PermitStays(cfg: Config, s: State, a: Action, pool: Pool)
    requires Enabled(s, a) && !a.Arrive? && PhaseOk(cfg, s.copies[a.id])
             && !(a.Acquire? || a.DropPermit? || a.Panic? || a.Discard?)
    ensures Shared(cfg, s, a).free == s.free && Weight(Moved(cfg, s, a), pool) == Weight(s.copies[a.id], pool)
  {
    hide Bodies.Reserve, Bodies.Commit, Bodies.Without, Bodies.Sent, Swept, RecordForwarded, StatusOf;
  }

  lemma {:induction false} PermitsKept(cfg: Config, s: State, a: Action)
    requires ValidConfig(cfg) && PhasesOk(cfg, s) && PermitsConserved(cfg, s) && Enabled(s, a)
    ensures PermitsConserved(cfg, Step(cfg, s, a))
  {
    hide Moved, Shared, PhaseOk;
    var s' := Step(cfg, s, a);
    if a.Arrive? {
      assert s'.copies[..|s'.copies| - 1] == s.copies;
    } else {
      var pool := s.copies[a.id].pool;
      assert pool.Peers? || pool.Gateway?;
      forall p | p in s.free
        ensures s'.free.Keys == s.free.Keys && s'.free[p] + Holders(s'.copies, p) == cfg.permits[p]
      {
        if a.Acquire? || a.DropPermit? || a.Panic? || a.Discard? {
          PermitMoves(cfg, s, a, p);
        } else {
          PermitStays(cfg, s, a, p);
        }
        HoldersAfterMove(s.copies, a.id, Moved(cfg, s, a), p);
      }
    }
  }

  // The unverified ledger.

  lemma {:induction false} LedgerAfterArrival(l: Bodies.Limits, entries: seq<Bodies.Entry>, copies: seq<Copy>, c: Copy)
    requires LedgerOk(l, entries, copies) && !HoldsSlot(c)
    ensures LedgerOk(l, entries, copies + [c])
  {
    forall e | e in entries && !e.sent ensures exists id :: OwnsSlot(copies + [c], id, e.body) {
      var id :| OwnsSlot(copies, id, e.body);
      assert OwnsSlot(copies + [c], id, e.body);
    }
  }

  lemma {:induction false} LedgerAfterMove(l: Bodies.Limits, entries: seq<Bodies.Entry>, copies: seq<Copy>, id: nat,
                                           c: Copy)
    requires LedgerOk(l, entries, copies) && id < |copies| && c.payload == copies[id].payload
    requires HoldsSlot(c) == HoldsSlot(copies[id])
    ensures LedgerOk(l, entries, copies[id := c])
  {
    var copies' := copies[id := c];
    forall e | e in entries && !e.sent ensures exists owner :: OwnsSlot(copies', owner, e.body) {
      var owner :| OwnsSlot(copies, owner, e.body);
      assert OwnsSlot(copies', owner, e.body);
    }
  }

  lemma {:induction false} LedgerAfterReserve(l: Bodies.Limits, entries: seq<Bodies.Entry>, copies: seq<Copy>, id: nat,
                                              c: Copy, now: Time)
    requires LedgerOk(l, entries, copies) && id < |copies| && c.payload == copies[id].payload
    requires !HoldsSlot(copies[id])
    requires HoldsSlot(c) == Bodies.Reserve(l, entries, c.payload.Body(), now).1.Reserved?
    ensures LedgerOk(l, Bodies.Reserve(l, entries, c.payload.Body(), now).0, copies[id := c])
  {
    var body := c.payload.Body();
    var (entries', answer) := Bodies.Reserve(l, entries, body, now);
    Bodies.ReserveKeeps(l, entries, body, now);
    var copies' := copies[id := c];
    forall e | e in entries' && !e.sent ensures exists id :: OwnsSlot(copies', id, e.body) {
      if e in entries {
        var owner :| OwnsSlot(copies, owner, e.body);
        assert OwnsSlot(copies', owner, e.body);
      } else {
        assert OwnsSlot(copies', id, e.body);
      }
    }
    forall i | 0 <= i < |copies'| && HoldsSlot(copies'[i]) ensures Bodies.Owned(entries', copies'[i].payload.Body()) {
      if i != id {
        var e :| e in entries && e.body == copies[i].payload.Body() && !e.sent;
        assert e in entries';
      }
    }
    forall i | 0 <= i < |copies'| && i != id && HoldsSlot(copies'[i]) && HoldsSlot(c)
      ensures copies'[i].payload.Body() != body
    {
      var e :| e in entries && e.body == copies[i].payload.Body() && !e.sent;
      assert Bodies.Keeps(e, now, l.window);
    }
  }

  lemma {:induction false} LedgerAfterRelease(l: Bodies.Limits, entries: seq<Bodies.Entry>, copies: seq<Copy>, id: nat,
                                              c: Copy)
    requires LedgerOk(l, entries, copies) && id < |copies| && c.payload == copies[id].payload
    requires HoldsSlot(copies[id]) && !HoldsSlot(c)
    ensures LedgerOk(l, Bodies.Without(entries, c.payload.Body()), copies[id := c])
  {
    var body := c.payload.Body();
    var entries', copies' := Bodies.Without(entries, body), copies[id := c];
    Bodies.WithoutKeeps(entries, body);
    forall e | e in entries' && !e.sent ensures exists id :: OwnsSlot(copies', id, e.body) {
      var owner :| OwnsSlot(copies, owner, e.body);
      assert OwnsSlot(copies', owner, e.body);
    }
    forall i | 0 <= i < |copies'| && HoldsSlot(copies'[i]) ensures Bodies.Owned(entries', copies'[i].payload.Body()) {
      var e :| e in entries && e.body == copies[i].payload.Body() && !e.sent;
      assert e in entries';
    }
  }

  lemma {:induction false} LedgerAfterCommit(l: Bodies.Limits, entries: seq<Bodies.Entry>, copies: seq<Copy>, id: nat,
                                             c: Copy, now: Time)
    requires LedgerOk(l, entries, copies) && id < |copies| && c.payload == copies[id].payload
    requires HoldsSlot(copies[id]) && !HoldsSlot(c)
    ensures LedgerOk(l, Bodies.Commit(entries, c.payload.Body(), now), copies[id := c])
  {
    var body := c.payload.Body();
    var entries', copies' := Bodies.Commit(entries, body, now), copies[id := c];
    Bodies.CommitKeeps(entries, body, now);
    forall e | e in entries' && !e.sent ensures exists id :: OwnsSlot(copies', id, e.body) {
      var k :| 0 <= k < |entries'| && entries'[k] == e;
      assert e == entries[k] && e.body != body;
      var owner :| OwnsSlot(copies, owner, e.body);
      assert OwnsSlot(copies', owner, e.body);
    }
    forall i | 0 <= i < |copies'| && HoldsSlot(copies'[i]) ensures Bodies.Owned(entries', copies'[i].payload.Body()) {
      var e :| e in entries && e.body == copies[i].payload.Body() && !e.sent;
      var k :| 0 <= k < |entries| && entries[k] == e;
      assert entries'[k] == e;
    }
  }

  /** Only these actions touch the ledger, and none of the others passes a place on. */
  lemma {:induction false} LedgerFrame(cfg: Config, s: State, a: Action)
    requires Enabled(s, a) && !a.Arrive? && PhaseOk(cfg, s.copies[a.id])
    ensures var c, c', entries := s.copies[a.id], Moved(cfg, s, a), Shared(cfg, s, a).unverified;
            if a.Reserve? then
              && !HoldsSlot(c)
              && entries == Bodies.Reserve(cfg.bodies, s.unverified, c.payload.Body(), a.now).0
              && HoldsSlot(c') == Bodies.Reserve(cfg.bodies, s.unverified, c.payload.Body(), a.now).1.Reserved?
            else if a.CommitUnverified? then
              HoldsSlot(c) && !HoldsSlot(c') && entries == Bodies.Commit(s.unverified, c.payload.Body(), a.now)
            else if HoldsSlot(c) == HoldsSlot(c') then entries == s.unverified
            else HoldsSlot(c) && entries == Bodies.Without(s.unverified, c.payload.Body())
  {
    hide Bodies.Reserve, Bodies.Commit, Bodies.Without, Bodies.Sent, Swept, RecordForwarded, StatusOf;
  }

  lemma {:induction false} LedgerKept(cfg: Config, s: State, a: Action)
    requires PhasesOk(cfg, s) && LedgerOk(cfg.bodies, s.unverified, s.copies) && Enabled(s, a)
    ensures LedgerOk(cfg.bodies, Step(cfg, s, a).unverified, Step(cfg, s, a).copies)
  {
    if a.Arrive? {
      LedgerAfterArrival(cfg.bodies, s.unverified, s.copies, Copy(a.payload, a.pool, Looking, NoJob));
    } else {
      var c, c' := s.copies[a.id], Moved(cfg, s, a);
      SamePayload(cfg, s, a);
      LedgerFrame(cfg, s, a);
      if a.Reserve? {
        LedgerAfterReserve(cfg.bodies, s.unverified, s.copies, a.id, c', a.now);
      } else if a.CommitUnverified? {
        LedgerAfterCommit(cfg.bodies, s.unverified, s.copies, a.id, c', a.now);
      } else if HoldsSlot(c) == HoldsSlot(c') {
        LedgerAfterMove(cfg.bodies, s.unverified, s.copies, a.id, c');
      } else {
        LedgerAfterRelease(cfg.bodies, s.unverified, s.copies, a.id, c');
      }
    }
  }

  // ---------------------------------------------------------------------------
  // Every run

  lemma {:induction false} InvKept(cfg: Config, s: State, a: Action)
    requires ValidConfig(cfg) && Inv(cfg, s) && Enabled(s, a)
    ensures Inv(cfg, Step(cfg, s, a))
  {
    PhasesKept(cfg, s, a);
    ClaimsKept(cfg, s, a);
    GenerationsKept(cfg, s, a);
    WaitersKept(cfg, s, a);
    RingKept(cfg, s, a);
    PermitsKept(cfg, s, a);
    LedgerKept(cfg, s, a);
  }

  lemma {:induction false} InvHolds(cfg: Config, run: Trace<Action>)
    requires ValidConfig(cfg) && IsRun(cfg, run)
    ensures Inv(cfg, After(cfg, run))
  {
    match run
    case Start =>
    case Then(before, a) =>
      InvHolds(cfg, before);
      InvKept(cfg, After(cfg, before), a);
  }
}
