/** The peer scheduler: which peers are known, which wait in the queue, which are handed
    out, and who was first to announce a block. */
module Crawler {
  import opened Common
  import opened Announcements

  datatype Record = Record(active: bool, queued: bool, eligibleAt: Time, score: real, scoredAt: Time, sequence: nat)

  /** `accepts` is the filter on addresses, `decayed` the score of a record as time
      passes. */
  datatype Config = Config(enabled: bool, rotation: bool, rotatedCooldown: nat, erroredCooldown: nat, maxKnown: nat,
                           scoring: bool, accepts: Peer -> bool, decayed: (Record, Time) -> real, awards: nat -> real)

  datatype State = State(peers: map<Peer, Record>, queue: seq<Peer>, next: nat)

  datatype Outcome = Rotated | Errored

  // ---------------------------------------------------------------------------
  // What the operations do

  function Bump(n: nat): nat {
    if n < U64_MAX then n + 1 else n
  }

  function NewRecord(sequence: nat, now: Time): Record {
    Record(false, true, now, 0.0, now, sequence)
  }

  /** One initial peer. A repeated one gets a new record but no second place. */
  function Begin(cfg: Config, s: State, p: Peer, now: Time): State {
    if !cfg.accepts(p) then s
    else if p in s.peers then s.(peers := s.peers[p := NewRecord(s.next, now)])
    else State(s.peers[p := NewRecord(s.next, now)], s.queue + [p], Bump(s.next))
  }

  function Begun(cfg: Config, s: State, initial: seq<Peer>, now: Time): State
    decreases |initial|
  {
    if initial == [] then s else Begun(cfg, Begin(cfg, s, initial[0], now), initial[1..], now)
  }

  /** Discovered peers are added until the table is full. */
  function Added(cfg: Config, s: State, found: seq<Peer>, now: Time): State
    decreases |found|
  {
    if found == [] then s
    else if !cfg.accepts(found[0]) then Added(cfg, s, found[1..], now)
    else if |s.peers| >= cfg.maxKnown then s
    else if found[0] in s.peers then Added(cfg, s, found[1..], now)
    else Added(cfg, Begin(cfg, s, found[0], now), found[1..], now)
  }

  function Released(cfg: Config, s: State, p: Peer, outcome: Outcome, now: Time): State {
    if p !in s.peers then s
    else
      var r := s.peers[p];
      if !cfg.rotation then s.(peers := s.peers[p := r.(active := false)])
      else
        var cooldown := if outcome.Rotated? then cfg.rotatedCooldown else cfg.erroredCooldown;
        State(s.peers[p := r.(active := false, eligibleAt := now + cooldown, queued := true)],
              if r.queued then s.queue else s.queue + [p], s.next)
  }

  function Scored(cfg: Config, s: State, p: Peer, delta: real, now: Time): State {
    if !cfg.scoring || p !in s.peers then s
    else s.(peers := s.peers[p := s.peers[p].(score := cfg.decayed(s.peers[p], now) + delta, scoredAt := now)])
  }

  // ---------------------------------------------------------------------------
  // Handing a peer out

  predicate Eligible(s: State, p: Peer, now: Time) {
    p in s.peers && !s.peers[p].active && s.peers[p].eligibleAt <= now
  }

  /** `k` comes before `j`: a higher score now, or the same and a lower sequence, or the
      same again and an earlier place. */
  predicate Better(cfg: Config, s: State, k: nat, j: nat, now: Time)
    requires k < |s.queue| && j < |s.queue| && s.queue[k] in s.peers && s.queue[j] in s.peers
  {
    var a, b := s.peers[s.queue[k]], s.peers[s.queue[j]];
    var x, y := cfg.decayed(a, now), cfg.decayed(b, now);
    x > y || (x == y && (a.sequence < b.sequence || (a.sequence == b.sequence && k <= j)))
  }

  /** Place `k` is the one to hand out. */
  ghost predicate IsPick(cfg: Config, s: State, k: nat, now: Time) {
    && k < |s.queue| && Eligible(s, s.queue[k], now)
    && forall j :: 0 <= j < |s.queue| && Eligible(s, s.queue[j], now) ==>
      if cfg.scoring then Better(cfg, s, k, j, now) else k <= j
  }

  /** At most one place is the one to hand out, and there is one if any queued peer is
      eligible. */
  lemma {:induction false} PickIsUnique(cfg: Config, s: State, j: nat, now: Time) returns (k: nat)
    requires j < |s.queue| && Eligible(s, s.queue[j], now)
    ensures IsPick(cfg, s, k, now) && forall i: nat :: IsPick(cfg, s, i, now) ==> i == k
  {
    k := BestUpTo(cfg, s, |s.queue|, j, now);
  }

  lemma {:induction false} BestUpTo(cfg: Config, s: State, n: nat, j: nat, now: Time) returns (k: nat)
    requires j < n <= |s.queue| && Eligible(s, s.queue[j], now)
    ensures k < n && Eligible(s, s.queue[k], now)
    ensures forall i :: 0 <= i < n && Eligible(s, s.queue[i], now) ==>
              if cfg.scoring then Better(cfg, s, k, i, now) else k <= i
  {
    if i :| 0 <= i < n - 1 && Eligible(s, s.queue[i], now) {
      k := BestUpTo(cfg, s, n - 1, i, now);
      if cfg.scoring && Eligible(s, s.queue[n - 1], now) && !Better(cfg, s, k, n - 1, now) {
        k := n - 1;
      }
    } else {
      k := n - 1;
    }
  }

  /** Scoring takes the pick out of its place; otherwise the peers passed over go to the
      back. */
  function Taken(cfg: Config, s: State, k: nat): State
    requires k < |s.queue| && s.queue[k] in s.peers
  {
    var p := s.queue[k];
    State(s.peers[p := s.peers[p].(active := true, queued := false)],
          if cfg.scoring then s.queue[..k] + s.queue[k + 1..] else s.queue[k + 1..] + s.queue[..k],
          s.next)
  }

  /** `next_peer` answered `r`, leaving `s'`. */
  ghost predicate Next(cfg: Config, s: State, now: Time, r: Option<Peer>, s': State) {
    match r
    case None => s' == s && forall j :: 0 <= j < |s.queue| ==> !Eligible(s, s.queue[j], now)
    case Some(p) => exists k: nat :: IsPick(cfg, s, k, now) && s.queue[k] == p && s' == Taken(cfg, s, k)
  }

  // ---------------------------------------------------------------------------
  // The invariant

  /** The queue has no duplicates and is exactly the records marked queued; none of them
      is active; with rotation on, every known peer is one or the other. */
  ghost predicate Inv(cfg: Config, s: State) {
    && Distinct(s.queue)
    && (forall p :: p in s.queue <==> p in s.peers && s.peers[p].queued)
    && (forall p :: p in s.peers ==> !(s.peers[p].active && s.peers[p].queued))
    && (cfg.rotation ==> forall p :: p in s.peers ==> s.peers[p].active || s.peers[p].queued)
  }

  ghost predicate AllQueued(s: State) {
    forall p :: p in s.peers ==> s.peers[p].queued
  }

  lemma {:induction false} InvBegin(cfg: Config, s: State, p: Peer, now: Time)
    requires Inv(cfg, s) && (p in s.peers ==> s.peers[p].queued)
    ensures Inv(cfg, Begin(cfg, s, p, now))
  {
  }

  lemma {:induction false} InvBegun(cfg: Config, s: State, initial: seq<Peer>, now: Time)
    requires Inv(cfg, s) && AllQueued(s)
    ensures Inv(cfg, Begun(cfg, s, initial, now)) && AllQueued(Begun(cfg, s, initial, now))
    decreases |initial|
  {
    if initial != [] {
      InvBegin(cfg, s, initial[0], now);
      InvBegun(cfg, Begin(cfg, s, initial[0], now), initial[1..], now);
    }
  }

  lemma {:induction false} InvAdded(cfg: Config, s: State, found: seq<Peer>, now: Time)
    requires Inv(cfg, s)
    ensures Inv(cfg, Added(cfg, s, found, now))
    decreases |found|
  {
    if found != [] && !(cfg.accepts(found[0]) && |s.peers| >= cfg.maxKnown) {
      if cfg.accepts(found[0]) && found[0] !in s.peers {
        InvBegin(cfg, s, found[0], now);
        InvAdded(cfg, Begin(cfg, s, found[0], now), found[1..], now);
      } else {
        InvAdded(cfg, s, found[1..], now);
      }
    }
  }

  lemma {:induction false} InvReleased(cfg: Config, s: State, p: Peer, outcome: Outcome, now: Time)
    requires Inv(cfg, s)
    ensures Inv(cfg, Released(cfg, s, p, outcome, now))
  {
  }

  /** A queued peer is known and inactive. */
  lemma {:induction false} QueuedRecord(cfg: Config, s: State, i: nat, now: Time)
    requires Inv(cfg, s) && i < |s.queue|
    ensures s.queue[i] in s.peers && s.peers[s.queue[i]].queued && !s.peers[s.queue[i]].active
    ensures Eligible(s, s.queue[i], now) <==> s.peers[s.queue[i]].eligibleAt <= now
  {
    assert s.queue[i] in s.queue;
  }

  /** Without scoring, the peers passed over are at the back already. */
  lemma {:induction false} TakenFirst(cfg: Config, s: State, i: nat)
    requires !cfg.scoring && i < |s.queue| && s.queue[i] in s.peers
    ensures var p := s.queue[i];
            Taken(cfg, s, i) == State(s.peers[p := s.peers[p].(queued := false, active := true)],
                                      (s.queue[i..] + s.queue[..i])[1..], s.next)
  {
    assert (s.queue[i..] + s.queue[..i])[1..] == s.queue[i + 1..] + s.queue[..i];
  }

  lemma {:induction false} FirstIsPick(cfg: Config, s: State, i: nat, now: Time)
    requires !cfg.scoring && i < |s.queue| && Eligible(s, s.queue[i], now)
    requires forall j :: 0 <= j < i ==> !Eligible(s, s.queue[j], now)
    ensures IsPick(cfg, s, i, now)
  {
  }

  lemma {:induction false} InvScored(cfg: Config, s: State, p: Peer, delta: real, now: Time)
    requires Inv(cfg, s)
    ensures Inv(cfg, Scored(cfg, s, p, delta, now))
  {
  }

  lemma {:induction false} InvTaken(cfg: Config, s: State, k: nat)
    requires Inv(cfg, s) && k < |s.queue|
    ensures Inv(cfg, Taken(cfg, s, k))
  {
    var s' := Taken(cfg, s, k);
    forall p ensures p in s'.queue <==> p in s.queue && p != s.queue[k] {
      if p in s.queue && p != s.queue[k] {
        var i :| 0 <= i < |s.queue| && s.queue[i] == p;
        assert i < k ==> s.queue[..k][i] == p;
        assert i > k ==> s.queue[k + 1..][i - k - 1] == p;
      }
    }
  }

  // ---------------------------------------------------------------------------
  // Runs

  datatype Op =
    | Hand(now: Time, peer: Option<Peer>)
    | Release(p: Peer, outcome: Outcome, now: Time)
    | Discover(found: seq<Peer>, now: Time)
    | Score(p: Peer, delta: real, now: Time)

  /** One call and the state it left. */
  datatype Event = Event(op: Op, after: State)

  ghost predicate Transition(cfg: Config, s: State, op: Op, s': State) {
    match op
    case Hand(now, peer) => Next(cfg, s, now, peer, s')
    case Release(p, outcome, now) => s' == Released(cfg, s, p, outcome, now)
    case Discover(found, now) => s' == if cfg.enabled then Added(cfg, s, found, now) else s
    case Score(p, delta, now) => s' == Scored(cfg, s, p, delta, now)
  }

  function Reached(start: State, run: Trace<Event>): State {
    if run.Start? then start else run.last.after
  }

  ghost predicate Behaviour(cfg: Config, start: State, run: Trace<Event>) {
    run.Then? ==> Behaviour(cfg, start, run.before)
                  && Transition(cfg, Reached(start, run.before), run.last.op, run.last.after)
  }

  function Initial(cfg: Config, initial: seq<Peer>, now: Time): State {
    Begun(cfg, State(map[], [], 0), initial, now)
  }

  lemma {:induction false} InvKept(cfg: Config, s: State, op: Op, s': State)
    requires Inv(cfg, s) && Transition(cfg, s, op, s')
    ensures Inv(cfg, s')
  {
    match op
    case Hand(now, peer) =>
      if peer.Some? {
        var k: nat :| IsPick(cfg, s, k, now) && s.queue[k] == peer.value && s' == Taken(cfg, s, k);
        InvTaken(cfg, s, k);
      }
    case Release(p, outcome, now) => InvReleased(cfg, s, p, outcome, now);
    case Discover(found, now) => InvAdded(cfg, s, found, now);
    case Score(p, delta, now) => InvScored(cfg, s, p, delta, now);
  }

  /** After any run, from any list of initial peers. */
  lemma {:induction false} InvHolds(cfg: Config, initial: seq<Peer>, now: Time, run: Trace<Event>)
    requires Behaviour(cfg, Initial(cfg, initial, now), run)
    ensures Inv(cfg, Reached(Initial(cfg, initial, now), run))
  {
    var start := Initial(cfg, initial, now);
    if run.Then? {
      InvHolds(cfg, initial, now, run.before);
      InvKept(cfg, Reached(start, run.before), run.last.op, run.last.after);
    } else {
      InvBegun(cfg, State(map[], [], 0), initial, now);
    }
  }

  /** The peers handed out and not released since. */
  function Out(run: Trace<Event>): set<Peer> {
    match run
    case Start => {}
    case Then(before, Event(Hand(_, Some(p)), _)) => Out(before) + {p}
    case Then(before, Event(Release(p, _, _), _)) => Out(before) - {p}
    case Then(before, _) => Out(before)
  }

  ghost predicate ActiveAre(s: State, out: set<Peer>) {
    forall p :: p in s.peers && s.peers[p].active <==> p in out
  }

  lemma {:induction false} NoneActive(cfg: Config, s: State, initial: seq<Peer>, now: Time)
    requires ActiveAre(s, {})
    ensures ActiveAre(Begun(cfg, s, initial, now), {})
    decreases |initial|
  {
    if initial != [] {
      NoneActive(cfg, Begin(cfg, s, initial[0], now), initial[1..], now);
    }
  }

  lemma {:induction false} AddedActive(cfg: Config, s: State, found: seq<Peer>, now: Time, out: set<Peer>)
    requires ActiveAre(s, out)
    ensures ActiveAre(Added(cfg, s, found, now), out)
    decreases |found|
  {
    if found != [] && !(cfg.accepts(found[0]) && |s.peers| >= cfg.maxKnown) {
      if cfg.accepts(found[0]) && found[0] !in s.peers {
        AddedActive(cfg, Begin(cfg, s, found[0], now), found[1..], now, out);
      } else {
        AddedActive(cfg, s, found[1..], now, out);
      }
    }
  }

  /** The active peers are exactly those handed out and not released since. */
  lemma {:induction false} ActiveAreOut(cfg: Config, initial: seq<Peer>, now: Time, run: Trace<Event>)
    requires Behaviour(cfg, Initial(cfg, initial, now), run)
    ensures ActiveAre(Reached(Initial(cfg, initial, now), run), Out(run))
  {
    var start := Initial(cfg, initial, now);
    if run.Then? {
      ActiveAreOut(cfg, initial, now, run.before);
      var s, op, s' := Reached(start, run.before), run.last.op, run.last.after;
      match op {
        case Hand(t, peer) =>
          if peer.Some? {
            var k: nat :| IsPick(cfg, s, k, t) && s.queue[k] == peer.value && s' == Taken(cfg, s, k);
          }
        case Release(p, outcome, t) =>
        case Discover(found, t) => AddedActive(cfg, s, found, t, Out(run.before));
        case Score(p, delta, t) =>
      }
    } else {
      NoneActive(cfg, State(map[], [], 0), initial, now);
    }
  }

  /** No peer is handed out twice without a release between, and with rotation on every
      known peer is out or in the queue, never both. */
  lemma {:induction false} HandedOutOnce(cfg: Config, initial: seq<Peer>, now: Time, run: Trace<Event>)
    requires Behaviour(cfg, Initial(cfg, initial, now), run)
    ensures run.Then? && run.last.op.Hand? && run.last.op.peer.Some? ==> run.last.op.peer.value !in Out(run.before)
    ensures var s := Reached(Initial(cfg, initial, now), run);
            && (forall p :: p in Out(run) ==> p in s.peers && p !in s.queue)
            && (cfg.rotation ==> forall p :: p in s.peers ==> (p in s.queue <==> p !in Out(run)))
  {
    var start := Initial(cfg, initial, now);
    InvHolds(cfg, initial, now, run);
    ActiveAreOut(cfg, initial, now, run);
    if run.Then? && run.last.op.Hand? && run.last.op.peer.Some? {
      ActiveAreOut(cfg, initial, now, run.before);
      var s := Reached(start, run.before);
      var k: nat :| IsPick(cfg, s, k, run.last.op.now) && s.queue[k] == run.last.op.peer.value
        && run.last.after == Taken(cfg, s, k);
    }
  }

  // ---------------------------------------------------------------------------
  // Sequence numbers

  /** Sequence numbers identify peers, and the next one is new. */
  ghost predicate Numbered(s: State) {
    && (forall p :: p in s.peers ==> s.peers[p].sequence < s.next)
    && !Shares(s)
  }

  /** Two peers have the same number. */
  ghost predicate Shares(s: State) {
    exists p, q :: p in s.peers && q in s.peers && p != q && s.peers[p].sequence == s.peers[q].sequence
  }

  ghost predicate UpToNext(s: State) {
    forall p :: p in s.peers ==> s.peers[p].sequence <= s.next
  }

  /** The initial peers that the address filter lets through. */
  function AcceptedOf(cfg: Config, initial: seq<Peer>): seq<Peer> {
    if initial == [] then []
    else if cfg.accepts(initial[0]) then [initial[0]] + AcceptedOf(cfg, initial[1..])
    else AcceptedOf(cfg, initial[1..])
  }

  /** A new peer neither makes nor mends a repeat: if some number was taken, it takes it
      too. */
  lemma {:induction false} NumberedBegin(cfg: Config, s: State, p: Peer, now: Time)
    requires UpToNext(s) && cfg.accepts(p) && p !in s.peers && Begin(cfg, s, p, now).next < U64_MAX
    ensures UpToNext(Begin(cfg, s, p, now)) && (Numbered(Begin(cfg, s, p, now)) <==> Numbered(s))
    ensures !Numbered(s) ==> Shares(Begin(cfg, s, p, now))
  {
    var s' := Begin(cfg, s, p, now);
    assert s'.peers[p].sequence == s.next && s'.next == s.next + 1;
    assert forall q :: q in s.peers ==> q in s'.peers && s'.peers[q] == s.peers[q];
    if !Numbered(s) && !Shares(s) {
      var q :| q in s.peers && s.peers[q].sequence >= s.next;
      assert s'.peers[q].sequence == s'.peers[p].sequence;
    }
  }

  /** A repeated one takes the number that the next new one will get. */
  lemma {:induction false} RepeatIsNotNumbered(cfg: Config, s: State, p: Peer, now: Time)
    requires UpToNext(s) && cfg.accepts(p) && p in s.peers
    ensures UpToNext(Begin(cfg, s, p, now)) && !Numbered(Begin(cfg, s, p, now))
  {
    assert Begin(cfg, s, p, now).peers[p].sequence == s.next;
  }

  lemma {:induction false} NextGrows(cfg: Config, s: State, initial: seq<Peer>, now: Time)
    ensures s.next <= Begun(cfg, s, initial, now).next && s.next <= Added(cfg, s, initial, now).next
    decreases |initial|
  {
    if initial != [] {
      NextGrows(cfg, s, initial[1..], now);
      NextGrows(cfg, Begin(cfg, s, initial[0], now), initial[1..], now);
    }
  }

  ghost predicate NewAndDistinct(s: State, peers: seq<Peer>) {
    Distinct(peers) && forall i :: 0 <= i < |peers| ==> peers[i] !in s.peers
  }

  lemma {:induction false} NewAndDistinctCons(cfg: Config, s: State, p: Peer, rest: seq<Peer>, now: Time)
    requires cfg.accepts(p)
    ensures NewAndDistinct(s, [p] + rest) <==> p !in s.peers && NewAndDistinct(Begin(cfg, s, p, now), rest)
  {
    var all := [p] + rest;
    assert all[0] == p && forall i :: 0 <= i < |rest| ==> all[i + 1] == rest[i];
    if p !in s.peers && NewAndDistinct(Begin(cfg, s, p, now), rest) {
      assert forall i :: 0 < i < |all| ==> all[i] == rest[i - 1];
    }
  }

  lemma {:induction false} BegunNumbered(cfg: Config, s: State, initial: seq<Peer>, now: Time)
    requires UpToNext(s) && Begun(cfg, s, initial, now).next < U64_MAX
    ensures UpToNext(Begun(cfg, s, initial, now))
    ensures Numbered(Begun(cfg, s, initial, now)) <==> Numbered(s) && NewAndDistinct(s, AcceptedOf(cfg, initial))
    decreases |initial|
  {
    hide Numbered, NewAndDistinct, UpToNext;
    if initial == [] {
      NoneIsDistinct(s);
    } else {
      var p, rest := initial[0], initial[1..];
      var s' := Begin(cfg, s, p, now);
      NextGrows(cfg, s', rest, now);
      if cfg.accepts(p) {
        NewAndDistinctCons(cfg, s, p, AcceptedOf(cfg, rest), now);
        if p in s.peers {
          RepeatIsNotNumbered(cfg, s, p, now);
        } else {
          NumberedBegin(cfg, s, p, now);
        }
      }
      BegunNumbered(cfg, s', rest, now);
    }
  }

  lemma {:induction false} NoneIsDistinct(s: State)
    ensures NewAndDistinct(s, [])
  {
  }

  lemma {:induction false} AddedNumbered(cfg: Config, s: State, found: seq<Peer>, now: Time)
    requires UpToNext(s) && Added(cfg, s, found, now).next < U64_MAX
    ensures UpToNext(Added(cfg, s, found, now)) && (Numbered(Added(cfg, s, found, now)) <==> Numbered(s))
    decreases |found|
  {
    hide Numbered, UpToNext;
    if found != [] && !(cfg.accepts(found[0]) && |s.peers| >= cfg.maxKnown) {
      if cfg.accepts(found[0]) && found[0] !in s.peers {
        NextGrows(cfg, Begin(cfg, s, found[0], now), found[1..], now);
        NumberedBegin(cfg, s, found[0], now);
        AddedNumbered(cfg, Begin(cfg, s, found[0], now), found[1..], now);
      } else {
        AddedNumbered(cfg, s, found[1..], now);
      }
    }
  }

  /** The other operations leave all numbers alone. */
  lemma {:induction false} SameNumbers(s: State, s': State)
    requires s'.next == s.next && s'.peers.Keys == s.peers.Keys
    requires forall p :: p in s.peers ==> s'.peers[p].sequence == s.peers[p].sequence
    ensures (UpToNext(s) <==> UpToNext(s')) && (Numbered(s) <==> Numbered(s'))
  {
  }

  lemma {:induction false} TransitionNumbered(cfg: Config, s: State, op: Op, s': State)
    requires Transition(cfg, s, op, s') && UpToNext(s) && s'.next < U64_MAX
    ensures UpToNext(s') && (Numbered(s') <==> Numbered(s)) && s.next <= s'.next
  {
    hide Numbered, UpToNext;
    match op
    case Hand(t, peer) =>
      if peer.Some? {
        var k: nat :| IsPick(cfg, s, k, t) && s.queue[k] == peer.value && s' == Taken(cfg, s, k);
        SameNumbers(s, s');
      }
    case Release(p, outcome, t) => SameNumbers(s, s');
    case Discover(found, t) =>
      if cfg.enabled {
        NextGrows(cfg, s, found, t);
        AddedNumbered(cfg, s, found, t);
      }
    case Score(p, delta, t) => SameNumbers(s, s');
  }

  lemma {:induction false} NextNeverFalls(cfg: Config, s: State, op: Op, s': State)
    requires Transition(cfg, s, op, s')
    ensures s.next <= s'.next
  {
    if op.Hand? && op.peer.Some? {
      var k: nat :| IsPick(cfg, s, k, op.now) && s.queue[k] == op.peer.value && s' == Taken(cfg, s, k);
    }
    if op.Discover? {
      NextGrows(cfg, s, op.found, op.now);
    }
  }

  /** After every run, short of the counter's end: sequence numbers are distinct, and the
      next one new, exactly when no accepted initial peer was repeated. */
  lemma {:induction false} NumberedExactly(cfg: Config, initial: seq<Peer>, now: Time, run: Trace<Event>)
    requires Behaviour(cfg, Initial(cfg, initial, now), run) && Reached(Initial(cfg, initial, now), run).next < U64_MAX
    ensures UpToNext(Reached(Initial(cfg, initial, now), run))
    ensures Numbered(Reached(Initial(cfg, initial, now), run)) <==> Distinct(AcceptedOf(cfg, initial))
  {
    hide Begun, Transition;
    var start := Initial(cfg, initial, now);
    if run.Then? {
      NextNeverFalls(cfg, Reached(start, run.before), run.last.op, run.last.after);
      NumberedExactly(cfg, initial, now, run.before);
      TransitionNumbered(cfg, Reached(start, run.before), run.last.op, run.last.after);
    } else {
      BegunNumbered(cfg, State(map[], [], 0), initial, now);
    }
  }

  /** Every repeat of an accepted initial peer comes out: whatever the run, as soon as one
      more peer is discovered, two peers have the same number. */
  lemma {:induction false} RepeatSharesANumber(cfg: Config, initial: seq<Peer>, now: Time, run: Trace<Event>, p: Peer,
                                               t: Time)
    requires Behaviour(cfg, Initial(cfg, initial, now), run) && !Distinct(AcceptedOf(cfg, initial))
    requires var s := Reached(Initial(cfg, initial, now), run);
             s.next + 1 < U64_MAX && cfg.accepts(p) && p !in s.peers && |s.peers| < cfg.maxKnown
    ensures Shares(Added(cfg, Reached(Initial(cfg, initial, now), run), [p], t))
  {
    hide Begun, Transition, Numbered, Shares;
    var s := Reached(Initial(cfg, initial, now), run);
    NumberedExactly(cfg, initial, now, run);
    NumberedBegin(cfg, s, p, t);
    assert [p][1..] == [];
    assert Added(cfg, s, [p], t) == Added(cfg, Begin(cfg, s, p, t), [], t);
  }

  // ---------------------------------------------------------------------------
  // Who gets in

  /** The accepted peers that are not known, each where it comes first. */
  function Novel(cfg: Config, known: set<Peer>, found: seq<Peer>): seq<Peer> {
    if found == [] then [] else
      var n := |found| - 1;
      var earlier := Novel(cfg, known, found[..n]);
      if cfg.accepts(found[n]) && found[n] !in known && found[n] !in earlier then earlier + [found[n]] else earlier
  }

  function First<T>(s: seq<T>, n: nat): seq<T> {
    if |s| <= n then s else s[..n]
  }

  lemma {:induction false} NovelHead(cfg: Config, known: set<Peer>, x: Peer, rest: seq<Peer>)
    ensures Novel(cfg, known, [x] + rest)
         == if cfg.accepts(x) && x !in known then [x] + Novel(cfg, known + {x}, rest) else Novel(cfg, known, rest)
  {
    var all := [x] + rest;
    if rest == [] {
      assert all == [x] && all[..0] == [];
      assert Novel(cfg, known, []) == [] && Novel(cfg, known + {x}, []) == [];
    } else {
      var n := |rest| - 1;
      assert all[..n + 1] == [x] + rest[..n] && all[n + 1] == rest[n];
      NovelHead(cfg, known, x, rest[..n]);
    }
  }

  /** The state has `more` at the back of its queue, with new records, and is otherwise
      as it was. */
  ghost predicate Grown(s: State, more: seq<Peer>, now: Time, s': State) {
    && s'.queue == s.queue + more
    && s'.peers.Keys == s.peers.Keys + (set p | p in more)
    && (forall p :: p in s.peers ==> s'.peers[p] == s.peers[p])
    && (forall p :: p in more ==> p !in s.peers && s'.peers[p] == NewRecord(s'.peers[p].sequence, now))
  }

  lemma {:induction false} GrownOnce(cfg: Config, s: State, p: Peer, more: seq<Peer>, now: Time, s': State)
    requires cfg.accepts(p) && p !in s.peers && Grown(Begin(cfg, s, p, now), more, now, s')
    ensures Grown(s, [p] + more, now, s')
  {
    assert (s.queue + [p]) + more == s.queue + ([p] + more);
    assert forall q :: q in [p] + more <==> q == p || q in more;
  }

  /** Discovery appends the new peers, in the order they were first found, as far as the
      table has room, and changes nothing about the peers it knew. */
  lemma {:induction false} AddedExactly(cfg: Config, s: State, found: seq<Peer>, now: Time)
    ensures var room := if |s.peers| < cfg.maxKnown then cfg.maxKnown - |s.peers| else 0;
            Grown(s, First(Novel(cfg, s.peers.Keys, found), room), now, Added(cfg, s, found, now))
    decreases |found|
  {
    hide Grown;
    if found == [] {
      NothingGrown(s, now);
    } else {
      var p, rest := found[0], found[1..];
      assert [p] + rest == found;
      NovelHead(cfg, s.peers.Keys, p, rest);
      if cfg.accepts(p) && |s.peers| >= cfg.maxKnown {
        NothingGrown(s, now);
      } else if cfg.accepts(p) && p !in s.peers {
        var s1 := Begin(cfg, s, p, now);
        AddedExactly(cfg, s1, rest, now);
        assert s1.peers.Keys == s.peers.Keys + {p};
        var more := First(Novel(cfg, s1.peers.Keys, rest), cfg.maxKnown - |s1.peers|);
        assert First([p] + Novel(cfg, s1.peers.Keys, rest), cfg.maxKnown - |s.peers|) == [p] + more;
        GrownOnce(cfg, s, p, more, now, Added(cfg, s, found, now));
      } else {
        AddedExactly(cfg, s, rest, now);
      }
    }
  }

  lemma {:induction false} NothingGrown(s: State, now: Time)
    ensures Grown(s, [], now, s)
  {
  }

  /** The initial queue is the accepted initial peers, each where it comes first. */
  lemma {:induction false} BegunExactly(cfg: Config, s: State, initial: seq<Peer>, now: Time)
    ensures var s', novel := Begun(cfg, s, initial, now), Novel(cfg, s.peers.Keys, initial);
            s'.queue == s.queue + novel && s'.peers.Keys == s.peers.Keys + (set p | p in novel)
    decreases |initial|
  {
    if initial != [] {
      var p, rest := initial[0], initial[1..];
      assert [p] + rest == initial;
      NovelHead(cfg, s.peers.Keys, p, rest);
      var s1 := Begin(cfg, s, p, now);
      BegunExactly(cfg, s1, rest, now);
      if cfg.accepts(p) && p !in s.peers {
        assert s1.peers.Keys == s.peers.Keys + {p};
        assert (s.queue + [p]) + Novel(cfg, s1.peers.Keys, rest) == s.queue + ([p] + Novel(cfg, s1.peers.Keys, rest));
      } else {
        assert s1.peers.Keys == s.peers.Keys;
      }
    }
  }

  // ---------------------------------------------------------------------------
  // Turns

  /** How and when a known peer was last released. */
  function LastRelease(start: State, run: Trace<Event>, p: Peer): Option<(Outcome, Time)> {
    match run
    case Start => None
    case Then(before, Event(Release(q, outcome, now), _)) =>
      if q == p && p in Reached(start, before).peers then Some((outcome, now)) else LastRelease(start, before, p)
    case Then(before, _) => LastRelease(start, before, p)
  }

  /** The record has the cooldown of its peer's last release. */
  ghost predicate CoolsDown(cfg: Config, s: State, p: Peer, last: Option<(Outcome, Time)>) {
    last.Some? ==>
      && p in s.peers
      && s.peers[p].eligibleAt == last.value.1 + if last.value.0.Errored? then cfg.erroredCooldown
                                                 else cfg.rotatedCooldown
  }

  lemma {:induction false} CoolsDownKept(cfg: Config, s: State, op: Op, s': State, p: Peer,
                                         last: Option<(Outcome, Time)>)
    requires Transition(cfg, s, op, s') && CoolsDown(cfg, s, p, last) && (op.Release? ==> op.p != p || p !in s.peers)
    ensures CoolsDown(cfg, s', p, last)
  {
    match op
    case Hand(t, peer) =>
      if peer.Some? {
        var k: nat :| IsPick(cfg, s, k, t) && s.queue[k] == peer.value && s' == Taken(cfg, s, k);
      }
    case Discover(found, t) => AddedExactly(cfg, s, found, t);
    case _ =>
  }

  lemma {:induction false} CoolsDownAlways(cfg: Config, start: State, run: Trace<Event>, p: Peer)
    requires Behaviour(cfg, start, run) && cfg.rotation
    ensures CoolsDown(cfg, Reached(start, run), p, LastRelease(start, run, p))
  {
    hide Transition, CoolsDown;
    if run.Then? {
      var s, op, s' := Reached(start, run.before), run.last.op, run.last.after;
      CoolsDownAlways(cfg, start, run.before, p);
      if op.Release? && op.p == p && p in s.peers {
        ReleaseCools(cfg, s, p, op.outcome, op.now, s');
      } else {
        CoolsDownKept(cfg, s, op, s', p, LastRelease(start, run.before, p));
      }
    } else {
      NeverReleased(cfg, start, p);
    }
  }

  lemma {:induction false} ReleaseCools(cfg: Config, s: State, p: Peer, outcome: Outcome, now: Time, s': State)
    requires cfg.rotation && p in s.peers && Transition(cfg, s, Release(p, outcome, now), s')
    ensures CoolsDown(cfg, s', p, Some((outcome, now)))
  {
  }

  lemma {:induction false} NeverReleased(cfg: Config, s: State, p: Peer)
    ensures CoolsDown(cfg, s, p, None)
  {
  }

  /** With rotation on, in every run: a peer that has been released is eligible again
      exactly if it is not out, and the cooldown of its last release is over, the longer
      or shorter one by how that release came about. */
  lemma {:induction false} CooldownIsExact(cfg: Config, initial: seq<Peer>, now: Time, run: Trace<Event>, p: Peer,
                                           t: Time)
    requires Behaviour(cfg, Initial(cfg, initial, now), run) && cfg.rotation
    requires LastRelease(Initial(cfg, initial, now), run, p).Some?
    ensures var s, last := Reached(Initial(cfg, initial, now), run), LastRelease(Initial(cfg, initial, now), run, p);
            && (Eligible(s, p, t) <==>
                  && p !in Out(run)
                  && (last.value.0.Rotated? ==> last.value.1 + cfg.rotatedCooldown <= t)
                  && (last.value.0.Errored? ==> last.value.1 + cfg.erroredCooldown <= t))
            && (p in s.queue <==> p !in Out(run))
  {
    hide Begun, Transition, Out, LastRelease;
    CoolsDownAlways(cfg, Initial(cfg, initial, now), run, p);
    ActiveAreOut(cfg, initial, now, run);
    HandedOutOnce(cfg, initial, now, run);
  }

  ghost predicate WasHandedOut(run: Trace<Event>, p: Peer) {
    run.Then? && ((run.last.op.Hand? && run.last.op.peer == Some(p)) || WasHandedOut(run.before, p))
  }

  /** Without rotation a peer gets one turn: once handed out it is never queued again. */
  lemma {:induction false} OneTurn(cfg: Config, initial: seq<Peer>, now: Time, run: Trace<Event>, p: Peer)
    requires Behaviour(cfg, Initial(cfg, initial, now), run) && !cfg.rotation && WasHandedOut(run, p)
    ensures p in Reached(Initial(cfg, initial, now), run).peers && p !in Reached(Initial(cfg, initial, now), run).queue
  {
    hide Begun, Inv;
    var start := Initial(cfg, initial, now);
    var s, op, s' := Reached(start, run.before), run.last.op, run.last.after;
    if op.Hand? && op.peer == Some(p) {
      HandedOutOnce(cfg, initial, now, run);
    } else {
      OneTurn(cfg, initial, now, run.before, p);
      match op
      case Hand(t, peer) =>
        if peer.Some? {
          var k: nat :| IsPick(cfg, s, k, t) && s.queue[k] == peer.value && s' == Taken(cfg, s, k);
        }
      case Discover(found, t) => AddedExactly(cfg, s, found, t);
      case Release(q, outcome, t) =>
      case Score(q, delta, t) =>
    }
  }

  /** An award counts in full from the moment it is made, and for its peer alone. */
  lemma ScoreAddsUp(cfg: Config, s: State, p: Peer, delta: real, now: Time)
    requires p in s.peers && forall r: Record :: cfg.decayed(r, r.scoredAt) == r.score
    ensures var s' := Scored(cfg, s, p, delta, now);
            && cfg.decayed(s'.peers[p], now) == cfg.decayed(s.peers[p], now) + (if cfg.scoring then delta else 0.0)
            && s'.peers.Keys == s.peers.Keys && s'.queue == s.queue
            && forall q :: q in s.peers && q != p ==> s'.peers[q] == s.peers[q]
  {
    if cfg.scoring {
      var r := Scored(cfg, s, p, delta, now).peers[p];
      assert r.scoredAt == now && cfg.decayed(r, r.scoredAt) == r.score;
    }
  }

  // ---------------------------------------------------------------------------
  // The object

  class CrawlerObject {
    const cfg: Config
    var peers: map<Peer, Record>
    var queue: seq<Peer>
    var nextSequence: nat
    var announcements: map<Hash, seq<Peer>>
    var announcementOrder: seq<Hash>

    ghost function Value(): State
      reads this
    {
      State(peers, queue, nextSequence)
    }

    ghost function Book(): Ledger
      reads this
    {
      Ledger(announcements, announcementOrder)
    }

    ghost predicate Valid()
      reads this
    {
      Inv(cfg, Value()) && LedgerOk(Book())
    }

    constructor (cfg: Config, initial: seq<Peer>, now: Time)
      ensures this.cfg == cfg && Valid() && Value() == Initial(cfg, initial, now) && Book() == Ledger(map[], [])
    {
      this.cfg := cfg;
      peers, queue, nextSequence := map[], [], 0;
      announcements, announcementOrder := map[], [];
      new;
      var i := 0;
      while i < |initial|
        invariant 0 <= i <= |initial| && this.cfg == cfg && Book() == Ledger(map[], [])
        invariant Begun(cfg, Value(), initial[i..], now) == Initial(cfg, initial, now)
      {
        assert initial[i..][1..] == initial[i + 1..];
        var peer := initial[i];
        if cfg.accepts(peer) {
          var known := peer in peers;
          peers := peers[peer := NewRecord(nextSequence, now)];
          if !known {
            queue := queue + [peer];
            nextSequence := Bump(nextSequence);
          }
        }
        i := i + 1;
      }
      InvBegun(cfg, State(map[], [], 0), initial, now);
    }

    method NextPeer(now: Time) returns (r: Option<Peer>)
      requires Valid()
      modifies this`peers, this`queue
      ensures Valid() && Transition(cfg, old(Value()), Hand(now, r), Value())
    {
      if cfg.scoring {
        r := NextScoredPeer(now);
      } else {
        r := NextQueuedPeer(now);
      }
      InvKept(cfg, old(Value()), Hand(now, r), Value());
    }

    /** The queue is turned until an eligible peer comes up, at most once round. */
    method NextQueuedPeer(now: Time) returns (r: Option<Peer>)
      requires Valid() && !cfg.scoring
      modifies this`peers, this`queue
      ensures Next(cfg, old(Value()), now, r, Value())
    {
      hide Inv, LedgerOk, IsPick, Taken, Eligible;
      ghost var s := Value();
      var candidates := |queue|;
      var i := 0;
      while i < candidates
        invariant 0 <= i <= candidates == |s.queue|
        invariant queue == s.queue[i..] + s.queue[..i] && peers == s.peers && nextSequence == s.next
        invariant forall j :: 0 <= j < i ==> !Eligible(s, s.queue[j], now)
      {
        var peer := queue[0];
        QueuedRecord(cfg, s, i, now);
        queue := queue[1..];
        var record := peers[peer];
        peers := peers[peer := record.(queued := false)];
        if record.eligibleAt <= now {
          peers := peers[peer := record.(queued := false, active := true)];
          FirstIsPick(cfg, s, i, now);
          TakenFirst(cfg, s, i);
          return Some(peer);
        }
        peers := peers[peer := record.(queued := true)];
        queue := queue + [peer];
        i := i + 1;
      }
      return None;
    }

    method NextScoredPeer(now: Time) returns (r: Option<Peer>)
      requires Valid() && cfg.scoring
      modifies this`peers, this`queue
      ensures Next(cfg, old(Value()), now, r, Value())
    {
      ghost var s := Value();
      var best: Option<nat> := None;
      var i := 0;
      while i < |queue|
        invariant 0 <= i <= |queue| && Value() == s
        invariant best.None? ==> forall j :: 0 <= j < i ==> !Eligible(s, s.queue[j], now)
        invariant best.Some? ==> best.value < i && Eligible(s, s.queue[best.value], now)
        invariant best.Some? ==> forall j :: 0 <= j < i && Eligible(s, s.queue[j], now) ==>
                  Better(cfg, s, best.value, j, now)
      {
        assert queue[i] in queue;
        var record := peers[queue[i]];
        if !record.active && record.eligibleAt <= now {
          var score := cfg.decayed(record, now);
          if best.None? {
            best := Some(i);
          } else {
            var leader := peers[queue[best.value]];
            var top := cfg.decayed(leader, now);
            if score > top || (score == top && record.sequence < leader.sequence) {
              best := Some(i);
            }
          }
        }
        i := i + 1;
      }
      if best.None? {
        return None;
      }
      var k := best.value;
      var peer := queue[k];
      queue := queue[..k] + queue[k + 1..];
      peers := peers[peer := peers[peer].(queued := false, active := true)];
      assert IsPick(cfg, s, k, now) && Value() == Taken(cfg, s, k);
      return Some(peer);
    }

    method ReleasePeer(peer: Peer, outcome: Outcome, now: Time)
      requires Valid()
      modifies this`peers, this`queue
      ensures Valid() && Transition(cfg, old(Value()), Release(peer, outcome, now), Value())
    {
      hide Inv, LedgerOk;
      InvReleased(cfg, Value(), peer, outcome, now);
      if peer !in peers {
        return;
      }
      var record := peers[peer].(active := false);
      if cfg.rotation {
        var cooldown := if outcome.Rotated? then cfg.rotatedCooldown else cfg.erroredCooldown;
        record := record.(eligibleAt := now + cooldown);
        if !record.queued {
          record := record.(queued := true);
          queue := queue + [peer];
        }
      }
      peers := peers[peer := record];
    }

    method AddDiscovered(found: seq<Peer>, now: Time) returns (accepted: nat)
      requires Valid()
      modifies this`peers, this`queue, this`nextSequence
      ensures Valid() && Transition(cfg, old(Value()), Discover(found, now), Value())
      ensures |queue| == |old(queue)| + accepted
      ensures accepted > 0 ==> |peers| <= cfg.maxKnown
    {
      accepted := 0;
      if !cfg.enabled {
        return;
      }
      ghost var s := Value();
      var i := 0;
      while i < |found|
        invariant 0 <= i <= |found| && Book() == old(Book())
        invariant Added(cfg, Value(), found[i..], now) == Added(cfg, s, found, now)
        invariant |queue| == |old(queue)| + accepted && (accepted > 0 ==> |peers| <= cfg.maxKnown)
      {
        assert found[i..][1..] == found[i + 1..];
        var peer := found[i];
        i := i + 1;
        if !cfg.accepts(peer) {
          continue;
        }
        if |peers| >= cfg.maxKnown {
          break;
        }
        if peer in peers {
          continue;
        }
        var sequence := nextSequence;
        nextSequence := Bump(nextSequence);
        peers := peers[peer := NewRecord(sequence, now)];
        queue := queue + [peer];
        accepted := accepted + 1;
      }
      InvAdded(cfg, s, found, now);
    }

    /** The award for announcing a block, by how many peers came before. */
    method ScoreBlockAnnouncement(peer: Peer, block: Hash, now: Time) returns (rank: Option<nat>)
      requires Valid()
      modifies this`peers, this`announcements, this`announcementOrder
      ensures Valid()
      ensures !cfg.scoring ==> rank.None? && Value() == old(Value()) && Book() == old(Book())
      ensures cfg.scoring ==> rank == Rank(old(Book()), peer, block)
                              && Book() == Pruned(Entered(old(Book()), peer, block))
      ensures cfg.scoring && rank.None? ==> Value() == old(Value())
      ensures cfg.scoring && rank.Some? ==> Value() == Scored(cfg, old(Value()), peer, cfg.awards(rank.value), now)
    {
      hide Inv, LedgerOk, Pruned;
      if !cfg.scoring {
        return None;
      }
      if block !in announcements {
        announcementOrder := announcementOrder + [block];
        announcements := announcements[block := []];
      }
      var entry := announcements[block];
      if peer in entry {
        rank := None;
      } else {
        announcements := announcements[block := entry + [peer]];
        rank := Some(|entry| + 1);
      }
      assert Book() == Entered(old(Book()), peer, block);
      EnteredOk(old(Book()), peer, block);
      PrunedOk(Entered(old(Book()), peer, block));
      PruneAnnouncements();
      if rank.Some? {
        InvScored(cfg, old(Value()), peer, cfg.awards(rank.value), now);
      }
      if rank.Some? && peer in peers {
        var record := peers[peer];
        peers := peers[peer := record.(score := cfg.decayed(record, now) + cfg.awards(rank.value), scoredAt := now)];
      }
    }

    method PruneAnnouncements()
      modifies this`announcements, this`announcementOrder
      ensures Book() == Pruned(old(Book()))
    {
      while |announcementOrder| > MAX_TRACKED_ANNOUNCEMENTS
        invariant Pruned(Book()) == Pruned(old(Book()))
        decreases |announcementOrder|
      {
        announcements := announcements - {announcementOrder[0]};
        announcementOrder := announcementOrder[1..];
      }
    }
  }
}
