/** The ledger of who announced each block, in order, which awards the first ones most.
    It tracks the blocks that came up last. */
module Announcements {
  import opened Common

  /** A socket address. */
  type Peer = nat

  const MAX_TRACKED_ANNOUNCEMENTS := 4096

  /** Who announced each tracked block, in order, and the blocks in the order they were
      first announced. */
  datatype Ledger = Ledger(lists: map<Hash, seq<Peer>>, order: seq<Hash>)

  function Listed(l: Ledger, block: Hash): seq<Peer> {
    if block in l.lists then l.lists[block] else []
  }

  /** The place an announcement earns; a repeated one earns none. */
  function Rank(l: Ledger, p: Peer, block: Hash): Option<nat> {
    if p in Listed(l, block) then None else Some(|Listed(l, block)| + 1)
  }

  function Append<T(==)>(s: seq<T>, x: T): seq<T> {
    if x in s then s else s + [x]
  }

  function Entered(l: Ledger, p: Peer, block: Hash): Ledger {
    Ledger(l.lists[block := Append(Listed(l, block), p)], if block in l.lists then l.order else l.order + [block])
  }

  function Pruned(l: Ledger): Ledger
    decreases |l.order|
  {
    if |l.order| > MAX_TRACKED_ANNOUNCEMENTS then Pruned(Ledger(l.lists - {l.order[0]}, l.order[1..])) else l
  }

  ghost predicate LedgerOk(l: Ledger) {
    && Distinct(l.order) && (forall b :: b in l.order <==> b in l.lists)
    && forall b :: b in l.lists ==> Distinct(l.lists[b])
  }

  lemma {:induction false} PrunedOk(l: Ledger)
    requires LedgerOk(l)
    ensures LedgerOk(Pruned(l)) && |Pruned(l).order| <= MAX_TRACKED_ANNOUNCEMENTS
    decreases |l.order|
  {
    if |l.order| > MAX_TRACKED_ANNOUNCEMENTS {
      var smaller := Ledger(l.lists - {l.order[0]}, l.order[1..]);
      assert forall b :: b in l.order <==> b == l.order[0] || b in smaller.order;
      PrunedOk(smaller);
    }
  }

  lemma {:induction false} EnteredOk(l: Ledger, p: Peer, block: Hash)
    requires LedgerOk(l)
    ensures LedgerOk(Entered(l, p, block))
  {
  }

  datatype Announcement = Announcement(p: Peer, block: Hash)

  function LedgerAfter(run: Trace<Announcement>): Ledger {
    match run
    case Start => Ledger(map[], [])
    case Then(before, Announcement(p, block)) => Pruned(Entered(LedgerAfter(before), p, block))
  }

  /** Announcements one after the other: the ledger is bounded, and its lists and order
      always agree. */
  lemma {:induction false} LedgerBounded(run: Trace<Announcement>)
    ensures var l := LedgerAfter(run); LedgerOk(l) && |l.order| <= MAX_TRACKED_ANNOUNCEMENTS
  {
    if run.Then? {
      LedgerBounded(run.before);
      EnteredOk(LedgerAfter(run.before), run.last.p, run.last.block);
      PrunedOk(Entered(LedgerAfter(run.before), run.last.p, run.last.block));
    }
  }

  // ---------------------------------------------------------------------------
  // The ledger against its history

  /** The blocks that started to be tracked, in order: a block counts again if it comes up
      when it is not among the last ones. */
  function Additions(run: Trace<Announcement>): seq<Hash> {
    match run
    case Start => []
    case Then(before, a) =>
      if a.block in Last(Additions(before), MAX_TRACKED_ANNOUNCEMENTS)
        then Additions(before) else Additions(before) + [a.block]
  }

  predicate Tracked(run: Trace<Announcement>, block: Hash) {
    block in Last(Additions(run), MAX_TRACKED_ANNOUNCEMENTS)
  }

  /** The distinct peers that announced a block since it has been tracked, first come
      first. */
  function Announcers(run: Trace<Announcement>, block: Hash): seq<Peer> {
    if !Tracked(run, block) || run.Start? then []
    else if run.last.block == block then Append(Announcers(run.before, block), run.last.p)
    else Announcers(run.before, block)
  }

  /** Pruning keeps the last blocks, with their lists. */
  lemma {:induction false} PrunedIs(l: Ledger)
    requires LedgerOk(l)
    ensures Pruned(l).order == Last(l.order, MAX_TRACKED_ANNOUNCEMENTS)
    ensures forall b :: b in Pruned(l).order ==> b in l.lists && Listed(Pruned(l), b) == Listed(l, b)
    decreases |l.order|
  {
    if |l.order| > MAX_TRACKED_ANNOUNCEMENTS {
      var smaller := Ledger(l.lists - {l.order[0]}, l.order[1..]);
      assert forall b :: b in l.order <==> b == l.order[0] || b in smaller.order;
      PrunedIs(smaller);
      PrunedOk(smaller);
      forall b | b in Pruned(l).order ensures b in l.lists && Listed(Pruned(l), b) == Listed(l, b) {
        assert b in smaller.order;
      }
    }
  }

  lemma {:induction false} LastSnoc(s: seq<Hash>, x: Hash, n: nat)
    requires n >= 1
    ensures Last(Last(s, n) + [x], n) == Last(s + [x], n)
  {
  }

  /** For every run, however long: the ledger tracks exactly the last 4,096 blocks that
      came up, and lists for each exactly the peers that announced it since. */
  lemma {:induction false} LedgerIsHistory(run: Trace<Announcement>, block: Hash)
    ensures LedgerAfter(run).order == Last(Additions(run), MAX_TRACKED_ANNOUNCEMENTS)
    ensures Listed(LedgerAfter(run), block) == Announcers(run, block)
  {
    if run.Then? {
      var l, a := LedgerAfter(run.before), run.last;
      LedgerIsHistory(run.before, block);
      LedgerBounded(run.before);
      EnteredOk(l, a.p, a.block);
      var entered := Entered(l, a.p, a.block);
      PrunedIs(entered);
      PrunedOk(entered);
      LastSnoc(Additions(run.before), a.block, MAX_TRACKED_ANNOUNCEMENTS);
      if a.block != block && Tracked(run, block) {
        StillTracked(run, block);
      }
    }
  }

  /** A block that is tracked now and did not come up just now was tracked before. */
  lemma {:induction false} StillTracked(run: Trace<Announcement>, block: Hash)
    requires run.Then? && run.last.block != block && Tracked(run, block)
    ensures Tracked(run.before, block)
  {
    LastSnoc(Additions(run.before), run.last.block, MAX_TRACKED_ANNOUNCEMENTS);
  }

  /** `p` has announced the block. */
  predicate Announced(run: Trace<Announcement>, p: Peer, block: Hash) {
    run.Then? && (run.last == Announcement(p, block) || Announced(run.before, p, block))
  }

  /** Since `p` last announced the block, it has been pruned. */
  predicate PrunedSince(run: Trace<Announcement>, p: Peer, block: Hash) {
    run.Then? && run.last != Announcement(p, block) && (!Tracked(run, block) || PrunedSince(run.before, p, block))
  }

  lemma {:induction false} JustTracked(run: Trace<Announcement>)
    requires run.Then?
    ensures Tracked(run, run.last.block)
  {
    var block, recent := run.last.block, Last(Additions(run), MAX_TRACKED_ANNOUNCEMENTS);
    if block !in Last(Additions(run.before), MAX_TRACKED_ANNOUNCEMENTS) {
      assert recent[|recent| - 1] == block;
    }
  }

  lemma {:induction false} AnnouncersAre(run: Trace<Announcement>, p: Peer, block: Hash)
    ensures p in Announcers(run, block) <==> Announced(run, p, block) && !PrunedSince(run, p, block)
  {
    hide Tracked;
    if run.Then? {
      AnnouncersAre(run.before, p, block);
      JustTracked(run);
    }
  }

  /** In every run the Nth distinct peer to announce a block since it has been tracked
      earns the Nth place, and a peer that has announced it before earns another place
      exactly when the block has been pruned since. */
  lemma {:induction false} RankIsPlace(run: Trace<Announcement>, p: Peer, block: Hash)
    ensures Rank(LedgerAfter(run), p, block) ==
            if Announced(run, p, block) && !PrunedSince(run, p, block) then None else Some(|Announcers(run, block)| + 1)
  {
    LedgerIsHistory(run, block);
    AnnouncersAre(run, p, block);
  }

  /** `p` announces blocks 0 to `n`. */
  function Spree(p: Peer, n: nat): Trace<Announcement> {
    Then(if n == 0 then Start else Spree(p, n - 1), Announcement(p, n))
  }

  lemma {:induction false} SpreeAdds(p: Peer, n: nat)
    ensures |Additions(Spree(p, n))| == n + 1 && forall i :: 0 <= i <= n ==> Additions(Spree(p, n))[i] == i
    ensures Announced(Spree(p, n), p, 0)
  {
    if n > 0 {
      SpreeAdds(p, n - 1);
    }
  }

  /** So a re-announcement can earn the first place again, against the source's comment:
      it takes as many other new blocks as the ledger tracks. */
  lemma {:induction false} PrunedBlockIsFirstAgain(p: Peer) returns (run: Trace<Announcement>)
    ensures Announced(run, p, 0) && Rank(LedgerAfter(run), p, 0) == Some(1)
    ensures |Additions(run)| == MAX_TRACKED_ANNOUNCEMENTS + 1
  {
    hide Spree, Announced;
    run := Spree(p, MAX_TRACKED_ANNOUNCEMENTS);
    SpreeAdds(p, MAX_TRACKED_ANNOUNCEMENTS);
    LedgerIsHistory(run, 0);
    var recent := Last(Additions(run), MAX_TRACKED_ANNOUNCEMENTS);
    assert forall i :: 0 <= i < |recent| ==> recent[i] == i + 1;
    assert !Tracked(run, 0);
  }

  // ---------------------------------------------------------------------------
  // Concurrent announcements

  /** An announcement is entered under one lock and the ledger pruned under another, so
      that those of other peers come between. */
  datatype LedgerStep = Enters(p: Peer, block: Hash) | Prunes

  function Along(steps: Trace<LedgerStep>): Ledger {
    match steps
    case Start => Ledger(map[], [])
    case Then(before, Enters(p, block)) => Entered(Along(before), p, block)
    case Then(before, Prunes) => Pruned(Along(before))
  }

  /** How many announcements have been entered and not pruned after. */
  function Waiting(steps: Trace<LedgerStep>): int {
    match steps
    case Start => 0
    case Then(before, Enters(_, _)) => Waiting(before) + 1
    case Then(before, Prunes) => Waiting(before) - 1
  }

  /** Each prune follows an entry of its own. */
  predicate Paired(steps: Trace<LedgerStep>) {
    Waiting(steps) >= 0 && (steps.Then? ==> Paired(steps.before))
  }

  /** In every interleaving the ledger is at most one block over the bound for each
      announcement between its two locks, and within it when there is none. */
  lemma {:induction false} LedgerBoundedAlong(steps: Trace<LedgerStep>)
    requires Paired(steps)
    ensures LedgerOk(Along(steps)) && |Along(steps).order| <= MAX_TRACKED_ANNOUNCEMENTS + Waiting(steps)
  {
    hide LedgerOk, Pruned;
    match steps
    case Start => NoLedger();
    case Then(before, Enters(p, block)) =>
      LedgerBoundedAlong(before);
      EnteredOk(Along(before), p, block);
    case Then(before, Prunes) =>
      LedgerBoundedAlong(before);
      PrunedOk(Along(before));
  }

  lemma {:induction false} NoLedger()
    ensures LedgerOk(Ledger(map[], []))
  {
  }

  predicate EnteredIn(steps: Trace<LedgerStep>, p: Peer, block: Hash) {
    steps.Then? && (steps.last == Enters(p, block) || EnteredIn(steps.before, p, block))
  }

  /** Since `p` last announced the block, it has been out of the ledger. */
  predicate GoneSince(steps: Trace<LedgerStep>, p: Peer, block: Hash) {
    && steps.Then? && steps.last != Enters(p, block)
    && (block !in Along(steps).lists || GoneSince(steps.before, p, block))
  }

  /** And in every interleaving a peer that has announced a block earns another place for
      it exactly when the block has been pruned since. */
  lemma {:induction false} RankAlong(steps: Trace<LedgerStep>, p: Peer, block: Hash)
    requires Paired(steps)
    ensures Rank(Along(steps), p, block).Some? <==> !EnteredIn(steps, p, block) || GoneSince(steps, p, block)
  {
    hide Pruned, LedgerOk;
    if steps.Then? {
      RankAlong(steps.before, p, block);
      if steps.last.Prunes? {
        var l := Along(steps.before);
        LedgerBoundedAlong(steps.before);
        PrunedIs(l);
        PrunedOk(l);
        OrderIsLists(Pruned(l), block);
      }
    }
  }

  lemma {:induction false} OrderIsLists(l: Ledger, block: Hash)
    requires LedgerOk(l)
    ensures block in l.order <==> block in l.lists
  {
  }
}
