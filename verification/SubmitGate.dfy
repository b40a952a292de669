/** The sidecar's submission gate: the object, and the runs of any number of strict and
    unverified submissions through it. An unverified submission holds the gate only to
    reserve an attempt and, once Zebra has the block, to record it. */
module SubmitGate {
  import opened Common
  import opened TimedRing
  import opened GateWindow

  datatype Config = Config(enabled: bool, allowedBelow: nat, window: nat, capacity: nat, perBlock: nat)

  /** A block hash and the digest of the exact bytes to submit. */
  datatype Candidate = Candidate(block: Hash, body: Hash)

  /** The gate's state: its two rings and the bodies that wait on Zebra. */
  datatype Gate = Gate(dedup: seq<Stamped>, attempts: seq<Stamped>, inFlight: set<Hash>)

  /** The new state, and why the candidate was rejected, if it was. */
  datatype Verdict = Verdict(gate: Gate, rejected: Option<Reason>)

  /** A strict candidate; `chain` is what the chain checks said. */
  function Applied(cfg: Config, g: Gate, block: Hash, chain: Option<Reason>, now: Time): Verdict {
    if !cfg.enabled then Verdict(g, None)
    else if chain.Some? then Verdict(g, chain)
    else
      var dedup := Evict(g.dedup, now, cfg.window);
      if Holds(dedup, block) then Verdict(g.(dedup := dedup), Some(DuplicateSubmit))
      else Verdict(g.(dedup := Record(dedup, cfg.capacity, cfg.window, block, now)), None)
  }

  /** The dedup ring after the checks that come before the in-flight bodies. */
  function Looked(cfg: Config, g: Gate, now: Time): Gate {
    if cfg.enabled then g.(dedup := Evict(g.dedup, now, cfg.window)) else g
  }

  /** An unverified candidate asks for an attempt. */
  function Reserved(cfg: Config, g: Gate, c: Candidate, chain: Option<Reason>, now: Time): Verdict {
    if cfg.enabled && chain.Some? then Verdict(g, chain)
    else
      var looked := Looked(cfg, g, now);
      if cfg.enabled && Holds(looked.dedup, c.block) then Verdict(looked, Some(DuplicateSubmit))
      else if c.body in g.inFlight then Verdict(looked, Some(DuplicateSubmit))
      else if !cfg.enabled then Verdict(g.(inFlight := g.inFlight + {c.body}), None)
      else
        var attempts := Evict(g.attempts, now, cfg.window);
        if Occurrences(attempts, c.block) >= cfg.perBlock
          then Verdict(looked.(attempts := attempts), Some(UnverifiedLimit))
        else Verdict(looked.(attempts := Record(attempts, cfg.capacity, cfg.window, c.block, now),
                             inFlight := g.inFlight + {c.body}), None)
  }

  /** Zebra has the block. */
  function Submitted(cfg: Config, g: Gate, block: Hash, now: Time): Gate {
    g.(dedup := Record(g.dedup, cfg.capacity, cfg.window, block, now))
  }

  /** A slot ends, in whatever way. */
  function Freed(g: Gate, body: Hash): Gate {
    g.(inFlight := g.inFlight - {body})
  }

  // ---------------------------------------------------------------------------
  // The gate as an object

  class GateObject {
    const config: Config
    const dedup: DedupRing
    const attempts: DedupRing
    var inFlight: set<Hash>

    ghost predicate Valid() {
      && dedup != attempts
      && dedup.capacity == attempts.capacity == config.capacity
      && dedup.window == attempts.window == config.window
    }

    ghost function State(): Gate
      reads this, dedup, attempts
    {
      Gate(dedup.entries, attempts.entries, inFlight)
    }

    constructor (config: Config)
      ensures Valid() && this.config == config && State() == Gate([], [], {})
      ensures fresh(dedup) && fresh(attempts)
    {
      this.config := config;
      dedup := new DedupRing(config.capacity, config.window);
      attempts := new DedupRing(config.capacity, config.window);
      inFlight := {};
    }

    method ApplyAt(c: Candidate, meta: Meta, chain: Chain, now: Time) returns (rejected: Option<Reason>)
      requires Valid()
      modifies this, dedup, attempts
      ensures Valid()
      ensures Verdict(State(), rejected)
           == Applied(config, old(State()), c.block, ChainRejection(config.allowedBelow, chain, c.block, meta), now)
    {
      if !config.enabled {
        return None;
      }
      var reason := ChainRejection(config.allowedBelow, chain, c.block, meta);
      if reason.Some? {
        return reason;
      }
      var seen := dedup.Contains(c.block, now);
      if seen {
        return Some(DuplicateSubmit);
      }
      dedup.Add(c.block, now);
      return None;
    }

    method ReserveUnverifiedAt(c: Candidate, meta: Meta, chain: Chain, now: Time) returns (rejected: Option<Reason>)
      requires Valid()
      modifies this, dedup, attempts
      ensures Valid()
      ensures Verdict(State(), rejected)
           == Reserved(config, old(State()), c, ChainRejection(config.allowedBelow, chain, c.block, meta), now)
    {
      if config.enabled {
        var reason := ChainRejection(config.allowedBelow, chain, c.block, meta);
        if reason.Some? {
          return reason;
        }
        var seen := dedup.Contains(c.block, now);
        if seen {
          return Some(DuplicateSubmit);
        }
      }
      if c.body in inFlight {
        return Some(DuplicateSubmit);
      }
      if config.enabled {
        var made := attempts.Count(c.block, now);
        if made >= config.perBlock {
          return Some(UnverifiedLimit);
        }
        attempts.Add(c.block, now);
      }
      inFlight := inFlight + {c.body};
      return None;
    }

    method RecordSubmitted(c: Candidate, now: Time)
      requires Valid()
      modifies this, dedup, attempts
      ensures Valid() && State() == Submitted(config, old(State()), c.block, now)
    {
      dedup.Add(c.block, now);
    }

    method DropSlot(body: Hash)
      requires Valid()
      modifies this
      ensures Valid() && State() == Freed(old(State()), body)
    {
      inFlight := inFlight - {body};
    }
  }

  // ---------------------------------------------------------------------------
  // Runs

  /** What came back from the node: the result of `submitblock`, or an RPC failure. */
  datatype Reply = Failed | Result(text: Option<string>)

  datatype Status = Accepted | Duplicate | RejectedFor(reason: string)

  /** `classify_submitblock_result`. */
  function Classify(text: Option<string>): Status {
    match text
    case None => Accepted
    case Some(reason) => if reason == "duplicate" then Duplicate else RejectedFor(reason)
  }

  /** Where an unverified submission stands. From `AtZebra` to the end it owns a slot.
      After a rejection it asks the node about the block before it ends. */
  datatype Phase = Ready | AtZebra | Taken | AskingBack | Noted | Over

  datatype Attempt = Attempt(candidate: Candidate, phase: Phase)

  datatype State = State(gate: Gate, attempts: seq<Attempt>)

  /** One critical section of the gate, or one thing that happens to an attempt. `Ends`
      covers a dry run, the end of a rejected attempt, a timeout, cancellation, and the
      normal end. */
  datatype Action =
    | Strict(block: Hash, chain: Option<Reason>, now: Time)
    | Reserves(id: nat, chain: Option<Reason>, now: Time)
    | Answers(id: nat, reply: Reply)
    | Records(id: nat, now: Time)
    | Ends(id: nat)

  predicate OwnsSlot(a: Attempt) {
    a.phase == AtZebra || a.phase == Taken || a.phase == AskingBack || a.phase == Noted
  }

  predicate Enabled(s: State, a: Action) {
    match a
    case Strict(_, _, _) => true
    case Reserves(id, _, _) => id < |s.attempts| && s.attempts[id].phase == Ready
    case Answers(id, _) => id < |s.attempts| && s.attempts[id].phase == AtZebra
    case Records(id, _) => id < |s.attempts| && s.attempts[id].phase == Taken
    case Ends(id) => id < |s.attempts| && OwnsSlot(s.attempts[id])
  }

  function Move(s: State, id: nat, phase: Phase, gate: Gate): State
    requires id < |s.attempts|
  {
    State(gate, s.attempts[id := s.attempts[id].(phase := phase)])
  }

  function Step(cfg: Config, s: State, a: Action): State
    requires Enabled(s, a)
  {
    match a
    case Strict(block, chain, now) => s.(gate := Applied(cfg, s.gate, block, chain, now).gate)
    case Reserves(id, chain, now) =>
      var v := Reserved(cfg, s.gate, s.attempts[id].candidate, chain, now);
      Move(s, id, if v.rejected.None? then AtZebra else Over, v.gate)
    case Answers(id, Failed) => Move(s, id, Over, Freed(s.gate, s.attempts[id].candidate.body))
    case Answers(id, Result(text)) => Move(s, id, if Classify(text).RejectedFor? then AskingBack else Taken, s.gate)
    case Records(id, now) => Move(s, id, Noted, Submitted(cfg, s.gate, s.attempts[id].candidate.block, now))
    case Ends(id) => Move(s, id, Over, Freed(s.gate, s.attempts[id].candidate.body))
  }

  function Init(candidates: seq<Candidate>): State {
    State(Gate([], [], {}), seq(|candidates|, i requires 0 <= i < |candidates| => Attempt(candidates[i], Ready)))
  }

  predicate IsRun(cfg: Config, candidates: seq<Candidate>, run: Trace<Action>)
    decreases run, 0
  {
    run.Then? ==> IsRun(cfg, candidates, run.before) && Enabled(After(cfg, candidates, run.before), run.last)
  }

  function After(cfg: Config, candidates: seq<Candidate>, run: Trace<Action>): State
    requires IsRun(cfg, candidates, run)
    decreases run, 1
  {
    match run
    case Start => Init(candidates)
    case Then(before, a) => Step(cfg, After(cfg, candidates, before), a)
  }

  // ---------------------------------------------------------------------------
  // Slots

  /** Attempt `i` owns the slot of this body. */
  predicate Owns(s: State, i: int, body: Hash) {
    0 <= i < |s.attempts| && OwnsSlot(s.attempts[i]) && s.attempts[i].candidate.body == body
  }

  /** The in-flight bodies are exactly those of the attempts that own a slot, and no two
      of them own the same one. */
  ghost predicate SlotsExact(s: State) {
    && (forall b :: b in s.gate.inFlight <==> exists i :: Owns(s, i, b))
    && (forall i, j, b :: Owns(s, i, b) && Owns(s, j, b) ==> i == j)
  }

  /** What a step does to the slot of the attempt that takes it. */
  lemma {:induction false} SlotMoves(cfg: Config, s: State, a: Action)
    requires Enabled(s, a) && !a.Strict?
    ensures var s', body := Step(cfg, s, a), s.attempts[a.id].candidate.body;
            && |s'.attempts| == |s.attempts| && s'.attempts[a.id].candidate == s.attempts[a.id].candidate
            && (forall i :: 0 <= i < |s.attempts| && i != a.id ==> s'.attempts[i] == s.attempts[i])
            && (OwnsSlot(s'.attempts[a.id]) == OwnsSlot(s.attempts[a.id]) ==> s'.gate.inFlight == s.gate.inFlight)
            && (OwnsSlot(s'.attempts[a.id]) && !OwnsSlot(s.attempts[a.id]) ==>
                  body !in s.gate.inFlight && s'.gate.inFlight == s.gate.inFlight + {body})
            && (!OwnsSlot(s'.attempts[a.id]) && OwnsSlot(s.attempts[a.id]) ==>
                  s'.gate.inFlight == s.gate.inFlight - {body})
  {
    hide Evict, Record, Holds, Occurrences;
  }

  lemma {:induction false} SlotsKept(cfg: Config, s: State, a: Action)
    requires SlotsExact(s) && Enabled(s, a)
    ensures SlotsExact(Step(cfg, s, a))
  {
    hide Evict, Record, Holds, Occurrences;
    var s' := Step(cfg, s, a);
    if a.Strict? {
      assert forall i, b :: Owns(s', i, b) <==> Owns(s, i, b);
    } else {
      hide Step;
      SlotMoves(cfg, s, a);
      var body := s.attempts[a.id].candidate.body;
      assert forall i, b :: i != a.id ==> (Owns(s', i, b) <==> Owns(s, i, b));
      assert forall b :: b != body ==> !Owns(s', a.id, b) && !Owns(s, a.id, b);
      assert Owns(s', a.id, body) <==> OwnsSlot(s'.attempts[a.id]);
      assert Owns(s, a.id, body) <==> OwnsSlot(s.attempts[a.id]);
    }
  }

  lemma {:induction false} SlotsAlwaysExact(cfg: Config, candidates: seq<Candidate>, run: Trace<Action>)
    requires IsRun(cfg, candidates, run)
    ensures SlotsExact(After(cfg, candidates, run))
  {
    if run.Then? {
      SlotsAlwaysExact(cfg, candidates, run.before);
      SlotsKept(cfg, After(cfg, candidates, run.before), run.last);
    }
  }

  // ---------------------------------------------------------------------------
  // What the rings saw

  /** The calls a run made on the dedup ring. */
  function DedupCalls(cfg: Config, candidates: seq<Candidate>, run: Trace<Action>): Trace<Call>
    requires IsRun(cfg, candidates, run)
  {
    match run
    case Start => Start
    case Then(before, a) =>
      var calls, s := DedupCalls(cfg, candidates, before), After(cfg, candidates, before);
      match a
      case Strict(block, chain, now) =>
        if !cfg.enabled || chain.Some? then calls
        else if Applied(cfg, s.gate, block, chain, now).rejected.None?
          then Then(Then(calls, Lookup(now)), Recorded(block, now))
        else Then(calls, Lookup(now))
      case Reserves(_, chain, now) => if cfg.enabled && chain.None? then Then(calls, Lookup(now)) else calls
      case Records(id, now) => Then(calls, Recorded(s.attempts[id].candidate.block, now))
      case _ => calls
  }

  /** The calls a run made on the ring of attempts. */
  function AttemptCalls(cfg: Config, candidates: seq<Candidate>, run: Trace<Action>): Trace<Call>
    requires IsRun(cfg, candidates, run)
  {
    match run
    case Start => Start
    case Then(before, a) =>
      var calls, s := AttemptCalls(cfg, candidates, before), After(cfg, candidates, before);
      if !a.Reserves? || !cfg.enabled then calls
      else
        var c := s.attempts[a.id].candidate;
        var rejected := Reserved(cfg, s.gate, c, a.chain, a.now).rejected;
        if rejected.None? then Then(Then(calls, Lookup(a.now)), Recorded(c.block, a.now))
        else if a.chain.None? && rejected == Some(UnverifiedLimit) then Then(calls, Lookup(a.now))
        else calls
  }

  lemma {:induction false} RingsSawCalls(cfg: Config, candidates: seq<Candidate>, run: Trace<Action>)
    requires IsRun(cfg, candidates, run)
    ensures var gate := After(cfg, candidates, run).gate;
            && gate.dedup == TimedRing.After(DedupCalls(cfg, candidates, run), cfg.capacity, cfg.window)
            && gate.attempts == TimedRing.After(AttemptCalls(cfg, candidates, run), cfg.capacity, cfg.window)
  {
    hide Evict, Record, Occurrences, Holds;
    if run.Then? {
      RingsSawCalls(cfg, candidates, run.before);
    }
  }

  /** Times never run backwards, as they cannot when each is read under the gate lock. */
  predicate Ordered(run: Trace<Action>, now: Time) {
    run.Then? ==>
      if run.last.Strict? || run.last.Reserves? || run.last.Records?
      then run.last.now <= now && Ordered(run.before, run.last.now)
      else Ordered(run.before, now)
  }

  lemma {:induction false} CallsAreOrdered(cfg: Config, candidates: seq<Candidate>, run: Trace<Action>, now: Time)
    requires IsRun(cfg, candidates, run) && Ordered(run, now)
    ensures NondecreasingTo(DedupCalls(cfg, candidates, run), now)
            && NondecreasingTo(AttemptCalls(cfg, candidates, run), now)
  {
    hide Applied, Reserved;
    if run.Then? {
      var a := run.last;
      CallsAreOrdered(cfg, candidates, run.before, if a.Strict? || a.Reserves? || a.Records? then a.now else now);
    }
  }

  // ---------------------------------------------------------------------------
  // The dedup ring

  predicate Happened(run: Trace<Action>, a: Action) {
    run.Then? && (run.last == a || Happened(run.before, a))
  }

  /** The node took the block of this attempt, or said that it had it already. */
  predicate ZebraHad(run: Trace<Action>, id: nat) {
    Happened(run, Answers(id, Result(None))) || Happened(run, Answers(id, Result(Some("duplicate"))))
  }

  /** A strict candidate of this block was accepted at this time. */
  ghost predicate StrictlyAccepted(cfg: Config, candidates: seq<Candidate>, run: Trace<Action>, e: Stamped)
    requires IsRun(cfg, candidates, run)
  {
    && run.Then?
    && (|| StrictlyAccepted(cfg, candidates, run.before, e)
        || (&& cfg.enabled && run.last.Strict? && run.last.chain.None? && e == Stamped(run.last.block, run.last.now)
            && Applied(cfg, After(cfg, candidates, run.before).gate, e.key, None, e.at).rejected.None?))
  }

  /** An attempt on this block was recorded at this time, and the node had the block. */
  ghost predicate Confirmed(candidates: seq<Candidate>, run: Trace<Action>, e: Stamped) {
    exists id :: 0 <= id < |candidates| && candidates[id].block == e.key && Happened(run, Records(id, e.at))
      && ZebraHad(run, id)
  }

  lemma {:induction false} CandidatesStay(cfg: Config, candidates: seq<Candidate>, run: Trace<Action>)
    requires IsRun(cfg, candidates, run)
    ensures var attempts := After(cfg, candidates, run).attempts;
            |attempts| == |candidates| && forall i :: 0 <= i < |candidates| ==> attempts[i].candidate == candidates[i]
  {
    hide Applied, Reserved;
    if run.Then? {
      CandidatesStay(cfg, candidates, run.before);
    }
  }

  /** What has happened to an attempt, by its phase. */
  ghost predicate PhaseTells(run: Trace<Action>, id: nat, phase: Phase) {
    && (phase == Ready || phase == AtZebra ==> forall r :: !Happened(run, Answers(id, r)))
    && (phase != Noted && phase != Over ==> forall t :: !Happened(run, Records(id, t)))
    && (phase == Taken || phase == Noted ==> ZebraHad(run, id))
    && (ZebraHad(run, id) ==> phase == Taken || phase == Noted || phase == Over)
    && (Happened(run, Answers(id, Reply.Failed)) ==> phase == Over)
    && (forall t :: Happened(run, Records(id, t)) ==> ZebraHad(run, id))
    && (forall r :: Happened(run, Answers(id, r)) && r != Result(None) && r != Result(Some("duplicate")) ==>
          (phase == AskingBack || phase == Over) && !ZebraHad(run, id))
  }

  lemma {:induction false} PhasesTell(cfg: Config, candidates: seq<Candidate>, run: Trace<Action>, id: nat)
    requires IsRun(cfg, candidates, run) && id < |After(cfg, candidates, run).attempts|
    ensures PhaseTells(run, id, After(cfg, candidates, run).attempts[id].phase)
  {
    hide Applied, Reserved, Submitted, Freed;
    if run.Then? {
      var s, a := After(cfg, candidates, run.before), run.last;
      PhasesTell(cfg, candidates, run.before, id);
      if a.Strict? || a.id != id {
        assert After(cfg, candidates, run).attempts[id] == s.attempts[id];
      }
    }
  }

  /** Straight after the node's answer an attempt may be recorded exactly if the node took
      the block or had it, and it keeps its slot unless the call itself failed. */
  lemma AnswerDecides(cfg: Config, s: State, id: nat, reply: Reply, t: Time)
    requires Enabled(s, Answers(id, reply))
    ensures var s' := Step(cfg, s, Answers(id, reply));
            && (Enabled(s', Records(id, t)) <==> reply == Result(None) || reply == Result(Some("duplicate")))
            && (Owns(s', id, s.attempts[id].candidate.body) <==> reply != Reply.Failed)
            && s'.gate.dedup == s.gate.dedup && s'.gate.attempts == s.gate.attempts
  {
  }

  /** A reply that is not acceptance, and not "duplicate", is never recorded, whatever
      happens later: nor is an attempt that got none. */
  lemma {:induction false} RefusedIsNeverRecorded(cfg: Config, candidates: seq<Candidate>, run: Trace<Action>, id: nat,
                                                  t: Time)
    requires IsRun(cfg, candidates, run) && Happened(run, Records(id, t))
    ensures id < |candidates| && ZebraHad(run, id)
    ensures forall r :: Happened(run, Answers(id, r)) ==> r == Result(None) || r == Result(Some("duplicate"))
  {
    CandidatesStay(cfg, candidates, run);
    RecorderExists(cfg, candidates, run, id, t);
    PhasesTell(cfg, candidates, run, id);
  }

  lemma {:induction false} RecorderExists(cfg: Config, candidates: seq<Candidate>, run: Trace<Action>, id: nat, t: Time)
    requires IsRun(cfg, candidates, run) && Happened(run, Records(id, t))
    ensures id < |candidates|
  {
    hide Step;
    CandidatesStay(cfg, candidates, run.before);
    if run.last != Records(id, t) {
      RecorderExists(cfg, candidates, run.before, id, t);
    }
  }

  /** The dedup ring was given a block exactly when it was strictly accepted, or an
      attempt on it was recorded that the node had taken or already had. */
  lemma {:induction false} RecordsAreJustified(cfg: Config, candidates: seq<Candidate>, run: Trace<Action>, e: Stamped)
    requires IsRun(cfg, candidates, run)
    ensures e in History(DedupCalls(cfg, candidates, run))
            <==> StrictlyAccepted(cfg, candidates, run, e) || Confirmed(candidates, run, e)
  {
    hide ZebraHad;
    HistoryIs(cfg, candidates, run, e);
    if id :| 0 <= id < |candidates| && candidates[id].block == e.key && Happened(run, Records(id, e.at)) {
      RefusedIsNeverRecorded(cfg, candidates, run, id, e.at);
    }
  }

  lemma {:induction false} HistoryIs(cfg: Config, candidates: seq<Candidate>, run: Trace<Action>, e: Stamped)
    requires IsRun(cfg, candidates, run)
    ensures e in History(DedupCalls(cfg, candidates, run))
            <==> || StrictlyAccepted(cfg, candidates, run, e)
                 || exists id :: 0 <= id < |candidates| && candidates[id].block == e.key
                                 && Happened(run, Records(id, e.at))
  {
    hide Applied, Reserved;
    if run.Then? {
      HistoryIs(cfg, candidates, run.before, e);
      CandidatesStay(cfg, candidates, run.before);
      if id :| 0 <= id < |candidates| && candidates[id].block == e.key && Happened(run.before, Records(id, e.at)) {
        assert Happened(run, Records(id, e.at));
      }
      if run.last.Records? && e == Stamped(candidates[run.last.id].block, run.last.now) {
        assert Happened(run, Records(run.last.id, e.at));
      }
    }
  }

  /** Whatever the gate holds as a duplicate, at any capacity and whatever the times, has
      one of those two reasons. */
  lemma {:induction false} HeldHasAReason(cfg: Config, candidates: seq<Candidate>, run: Trace<Action>, e: Stamped)
    requires IsRun(cfg, candidates, run) && e in After(cfg, candidates, run).gate.dedup
    ensures StrictlyAccepted(cfg, candidates, run, e) || Confirmed(candidates, run, e)
  {
    hide Confirmed, DedupCalls, StrictlyAccepted;
    RingsSawCalls(cfg, candidates, run);
    RingIsFromHistory(DedupCalls(cfg, candidates, run), cfg.capacity, cfg.window, e);
    RecordsAreJustified(cfg, candidates, run, e);
  }

  /** With ordered times, a strict candidate that passes the chain checks is a duplicate
      exactly when the block is among the last `capacity` justified ones, or at capacity 0
      among all of them, and was recorded within the window. */
  lemma {:induction false} DuplicateIsExact(cfg: Config, candidates: seq<Candidate>, run: Trace<Action>, block: Hash,
                                            now: Time)
    requires IsRun(cfg, candidates, run) && Ordered(run, now) && cfg.enabled
    ensures var h := History(DedupCalls(cfg, candidates, run));
            Applied(cfg, After(cfg, candidates, run).gate, block, None, now).rejected.Some?
            <==> exists k :: 0 <= k < |h| && (cfg.capacity == 0 || |h| - cfg.capacity <= k) && h[k].key == block
                             && !Expired(h[k], now, cfg.window)
  {
    hide Evict, Holds, Last, Expired, After, IsRun;
    var calls := DedupCalls(cfg, candidates, run);
    var h := History(calls);
    RingsSawCalls(cfg, candidates, run);
    CallsAreOrdered(cfg, candidates, run, now);
    RingIsRecent(calls, cfg.capacity, cfg.window, now);
    HistoryIsSorted(calls, now);
    AllIsLast(h);
    RecentHolds(h, if cfg.capacity == 0 then |h| else cfg.capacity, cfg.window, block, now);
  }

  lemma {:induction false} AllIsLast(h: seq<Stamped>)
    ensures Last(h, |h|) == h
  {
  }

  /** Whatever the times: a reservation that passes the chain checks is turned down as a
      duplicate only if this block was strictly accepted, or recorded once the node had it,
      or if these very bytes are at the node now. A body that was rejected, or that failed
      or was given up, hides nothing. */
  lemma {:induction false} NothingHidden(cfg: Config, candidates: seq<Candidate>, run: Trace<Action>, c: Candidate,
                                         now: Time)
    requires IsRun(cfg, candidates, run)
    requires Reserved(cfg, After(cfg, candidates, run).gate, c, None, now).rejected == Some(DuplicateSubmit)
    ensures var s := After(cfg, candidates, run);
            || (exists at :: var e := Stamped(c.block, at);
                             StrictlyAccepted(cfg, candidates, run, e) || Confirmed(candidates, run, e))
            || (exists i :: Owns(s, i, c.body))
  {
    hide Confirmed, StrictlyAccepted, Evict, Holds;
    var s := After(cfg, candidates, run);
    SlotsAlwaysExact(cfg, candidates, run);
    if c.body !in s.gate.inFlight {
      var e := HeldEntry(s.gate.dedup, now, cfg.window, c.block);
      HeldHasAReason(cfg, candidates, run, e);
      assert e == Stamped(c.block, e.at);
    }
  }

  lemma {:induction false} HeldEntry(ring: seq<Stamped>, now: Time, window: nat, key: Hash) returns (e: Stamped)
    requires Holds(Evict(ring, now, window), key)
    ensures e in ring && e.key == key
  {
    EvictIsEviction(ring, now, window);
    var kept := Evict(ring, now, window);
    var i :| 0 <= i < |kept| && kept[i].key == key;
    e := kept[i];
    assert e == ring[|ring| - |kept| + i];
  }

  /** Whatever a ring holds was recorded, at any capacity. */
  lemma {:induction false} RingIsFromHistory(calls: Trace<Call>, capacity: nat, window: nat, e: Stamped)
    requires e in TimedRing.After(calls, capacity, window)
    ensures e in History(calls)
  {
    if calls.Then? {
      var before := TimedRing.After(calls.before, capacity, window);
      EvictIsEviction(before, calls.last.at, window);
      if e in before {
        RingIsFromHistory(calls.before, capacity, window, e);
      }
    }
  }
}
