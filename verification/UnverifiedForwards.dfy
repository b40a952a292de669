/** Bodies the bridge forwards without validation, under the emergency bypass.

    A body reserves a place before it is sent, and the guard that owns the place
    either commits it or gives it back. The results here are about whole traces of
    those three operations: what one header can send in a window, and which bodies
    count as already sent. Who owns each place is proved with the forward protocol. */
module UnverifiedForwards {
  import opened Common

  datatype Body = Body(header: Hash, digest: Hash)

  datatype Entry = Entry(body: Body, at: Time, sent: bool)

  datatype Limits = Limits(capacity: nat, window: nat, perHeader: nat)

  datatype Reservation = Reserved | Repeat | HeaderFull

  function Max(a: nat, b: nat): nat {
    if a >= b then a else b
  }

  predicate Keeps(e: Entry, now: Time, window: nat) {
    !e.sent || Elapsed(now, e.at) <= window
  }

  /** Drop what was sent and has expired. A place still owned by a guard never
      expires. */
  function Retain(entries: seq<Entry>, now: Time, window: nat): seq<Entry> {
    if entries == [] then []
    else if Keeps(entries[0], now, window) then [entries[0]] + Retain(entries[1..], now, window)
    else Retain(entries[1..], now, window)
  }

  function Without(entries: seq<Entry>, body: Body): seq<Entry> {
    if entries == [] then []
    else if entries[0].body != body then [entries[0]] + Without(entries[1..], body)
    else Without(entries[1..], body)
  }

  function SameHeader(entries: seq<Entry>, header: Hash): nat {
    if entries == [] then 0
    else (if entries[0].body.header == header then 1 else 0) + SameHeader(entries[1..], header)
  }

  predicate Has(entries: seq<Entry>, body: Body) {
    exists e :: e in entries && e.body == body
  }

  function Reserve(l: Limits, entries: seq<Entry>, body: Body, now: Time): (seq<Entry>, Reservation) {
    var kept := Retain(entries, now, l.window);
    if Has(kept, body) then (kept, Repeat)
    else if SameHeader(kept, body.header) >= l.perHeader then (kept, HeaderFull)
    else if |kept| >= Max(l.capacity, l.perHeader) then (kept, HeaderFull)
    else (kept + [Entry(body, now, false)], Reserved)
  }

  predicate Sent(l: Limits, entries: seq<Entry>, body: Body, now: Time) {
    exists e :: e in entries && e.body == body && e.sent && Elapsed(now, e.at) <= l.window
  }

  /** Mark the first entry for `body` as sent, now. */
  function Commit(entries: seq<Entry>, body: Body, now: Time): seq<Entry> {
    if entries == [] then []
    else if entries[0].body == body then [Entry(body, now, true)] + entries[1..]
    else [entries[0]] + Commit(entries[1..], body, now)
  }

  // ---------------------------------------------------------------------------
  // What every operation keeps

  ghost predicate DistinctBodies(entries: seq<Entry>) {
    forall i, j :: 0 <= i < j < |entries| ==> entries[i].body != entries[j].body
  }

  ghost predicate WellKept(l: Limits, entries: seq<Entry>) {
    && DistinctBodies(entries)
    && |entries| <= Max(l.capacity, l.perHeader)
    && forall h :: SameHeader(entries, h) <= l.perHeader
  }

  lemma {:induction false} RetainKeeps(entries: seq<Entry>, now: Time, window: nat)
    ensures var r := Retain(entries, now, window);
            && |r| <= |entries|
            && (forall e :: e in r <==> e in entries && Keeps(e, now, window))
            && (forall h :: SameHeader(r, h) <= SameHeader(entries, h))
            && (DistinctBodies(entries) ==> DistinctBodies(r))
  {
    if entries != [] {
      var tail := entries[1..];
      RetainKeeps(tail, now, window);
      var r := Retain(tail, now, window);
      assert forall e :: e in entries <==> e == entries[0] || e in tail;
      if Keeps(entries[0], now, window) {
        assert ([entries[0]] + r)[1..] == r;
      }
      if DistinctBodies(entries) {
        assert DistinctBodies(tail);
        HeadStaysDistinct(entries[0], tail, r);
      }
    }
  }

  lemma {:induction false} HeadStaysDistinct(head: Entry, tail: seq<Entry>, r: seq<Entry>)
    requires DistinctBodies([head] + tail) && DistinctBodies(r)
    requires forall e :: e in r ==> e in tail
    ensures DistinctBodies([head] + r)
  {
    forall j | 0 <= j < |r| ensures head.body != r[j].body {
      assert r[j] in tail;
      var k :| 0 <= k < |tail| && tail[k] == r[j];
      assert ([head] + tail)[0] == head && ([head] + tail)[k + 1] == tail[k];
    }
  }

  lemma {:induction false} WithoutKeeps(entries: seq<Entry>, body: Body)
    ensures var r := Without(entries, body);
            && |r| <= |entries|
            && (forall e :: e in r <==> e in entries && e.body != body)
            && (forall h :: SameHeader(r, h) <= SameHeader(entries, h))
            && (DistinctBodies(entries) ==> DistinctBodies(r))
  {
    if entries != [] {
      var tail := entries[1..];
      WithoutKeeps(tail, body);
      var r := Without(tail, body);
      assert forall e :: e in entries <==> e == entries[0] || e in tail;
      if entries[0].body != body {
        assert ([entries[0]] + r)[1..] == r;
      }
      if DistinctBodies(entries) {
        assert DistinctBodies(tail);
        HeadStaysDistinct(entries[0], tail, r);
      }
    }
  }

  lemma {:induction false} CommitKeeps(entries: seq<Entry>, body: Body, now: Time)
    requires DistinctBodies(entries) && Has(entries, body)
    ensures var r := Commit(entries, body, now);
            && |r| == |entries|
            && (forall i :: 0 <= i < |r| ==>
                  r[i] == if entries[i].body == body then Entry(body, now, true) else entries[i])
            && (forall h :: SameHeader(r, h) == SameHeader(entries, h))
            && DistinctBodies(r)
  {
    var tail := entries[1..];
    var r := Commit(entries, body, now);
    if entries[0].body == body {
      assert r[1..] == tail;
    } else {
      assert Has(tail, body);
      assert DistinctBodies(tail);
      CommitKeeps(tail, body, now);
      assert r[1..] == Commit(tail, body, now);
    }
  }

  lemma {:induction false} SameHeaderAppend(entries: seq<Entry>, e: Entry, h: Hash)
    ensures SameHeader(entries + [e], h) == SameHeader(entries, h) + (if e.body.header == h then 1 else 0)
  {
    if entries != [] {
      assert (entries + [e])[1..] == entries[1..] + [e];
      SameHeaderAppend(entries[1..], e, h);
    }
  }

  lemma {:induction false} ReserveKeeps(l: Limits, entries: seq<Entry>, body: Body, now: Time)
    requires WellKept(l, entries)
    ensures var (r, answer) := Reserve(l, entries, body, now);
            && WellKept(l, r)
            && (forall e :: e in r <==>
                  (e in entries && Keeps(e, now, l.window)) || (answer == Reserved && e == Entry(body, now, false)))
            && (answer == Reserved ==> forall e :: e in entries && e.body == body ==> !Keeps(e, now, l.window))
  {
    RetainKeeps(entries, now, l.window);
    var kept := Retain(entries, now, l.window);
    forall h ensures SameHeader(kept + [Entry(body, now, false)], h)
                  == SameHeader(kept, h) + (if body.header == h then 1 else 0) {
      SameHeaderAppend(kept, Entry(body, now, false), h);
    }
  }

  // ---------------------------------------------------------------------------
  // The answer, from the entries as they stand

  /** The positions of the entries that count at `now`: still owned by a guard, or sent no
      more than `window` ago. */
  ghost function Live(entries: seq<Entry>, now: Time, window: nat): set<nat> {
    set i: nat | i < |entries| && (!entries[i].sent || now <= entries[i].at + window)
  }

  ghost function LiveOf(entries: seq<Entry>, header: Hash, now: Time, window: nat): set<nat> {
    set i: nat | i < |entries| && i in Live(entries, now, window) && entries[i].body.header == header
  }

  lemma {:induction false} RetainLast(entries: seq<Entry>, e: Entry, now: Time, window: nat)
    ensures Retain(entries + [e], now, window)
         == Retain(entries, now, window) + if Keeps(e, now, window) then [e] else []
  {
    if entries != [] {
      assert (entries + [e])[1..] == entries[1..] + [e];
      RetainLast(entries[1..], e, now, window);
    }
  }

  lemma {:induction false} LiveLast(entries: seq<Entry>, e: Entry, header: Hash, now: Time, window: nat)
    ensures var added := if Keeps(e, now, window) then {|entries| as nat} else {};
            && Live(entries + [e], now, window) == Live(entries, now, window) + added
            && LiveOf(entries + [e], header, now, window)
               == LiveOf(entries, header, now, window) + if e.body.header == header then added else {}
  {
    var all := entries + [e];
    assert forall i :: 0 <= i < |entries| ==> all[i] == entries[i];
    assert all[|entries|] == e;
  }

  /** What is retained is what counts. */
  lemma {:induction false} RetainCounts(entries: seq<Entry>, header: Hash, now: Time, window: nat)
    ensures |Retain(entries, now, window)| == |Live(entries, now, window)|
    ensures SameHeader(Retain(entries, now, window), header) == |LiveOf(entries, header, now, window)|
    decreases |entries|
  {
    if entries == [] {
      assert Live(entries, now, window) == {} && LiveOf(entries, header, now, window) == {};
    } else {
      var before, e := entries[..|entries| - 1], entries[|entries| - 1];
      assert entries == before + [e];
      RetainCounts(before, header, now, window);
      RetainLast(before, e, now, window);
      LiveLast(before, e, header, now, window);
      if Keeps(e, now, window) {
        SameHeaderAppend(Retain(before, now, window), e, header);
      } else {
        assert Retain(before, now, window) + [] == Retain(before, now, window);
      }
    }
  }

  /** A body is a repeat exactly if an entry that counts has it. It gets a place exactly if
      none has it, fewer than `perHeader` that count have its header, and fewer count in
      all than `capacity`, or `perHeader` if that is more. */
  lemma {:induction false} ReserveIsExact(l: Limits, entries: seq<Entry>, body: Body, now: Time)
    ensures var answer, live := Reserve(l, entries, body, now).1, Live(entries, now, l.window);
            var repeat := exists i :: i in live && entries[i].body == body;
            && (answer == Repeat <==> repeat)
            && (answer == Reserved <==>
                  && !repeat && |LiveOf(entries, body.header, now, l.window)| < l.perHeader
                  && (|live| < l.capacity || |live| < l.perHeader))
  {
    RetainCounts(entries, body.header, now, l.window);
    RetainKeeps(entries, now, l.window);
    var kept, live := Retain(entries, now, l.window), Live(entries, now, l.window);
    if Has(kept, body) {
      var e :| e in kept && e.body == body;
      assert e in entries;
      var i: nat :| i < |entries| && entries[i] == e;
      assert i in live;
    } else {
      forall i | i in live ensures entries[i].body != body {
        assert entries[i] in entries && Keeps(entries[i], now, l.window);
      }
    }
  }

  // ---------------------------------------------------------------------------
  // Traces

  /** One operation, at the time it read the clock under the lock. A body commits
      or gives back a place only through the guard that owns it. */
  datatype Op = Reserving(body: Body, at: Time) | Committing(body: Body, at: Time) | Releasing(body: Body)

  function Apply(l: Limits, entries: seq<Entry>, op: Op): seq<Entry> {
    match op
    case Reserving(body, now) => Reserve(l, entries, body, now).0
    case Committing(body, now) => Commit(entries, body, now)
    case Releasing(body) => Without(entries, body)
  }

  /** A guard exists for a body exactly while its entry is unsent. */
  ghost predicate Owned(entries: seq<Entry>, body: Body) {
    exists e :: e in entries && e.body == body && !e.sent
  }

  function After(l: Limits, ops: Trace<Op>): seq<Entry> {
    match ops
    case Start => []
    case Then(before, op) => Apply(l, After(l, before), op)
  }

  ghost predicate Disciplined(l: Limits, ops: Trace<Op>) {
    ops.Then? ==>
      && Disciplined(l, ops.before)
      && (!ops.last.Reserving? ==> Owned(After(l, ops.before), ops.last.body))
  }

  predicate NondecreasingTo(ops: Trace<Op>, now: Time) {
    ops.Then? ==>
      if ops.last.Releasing? then NondecreasingTo(ops.before, now)
      else ops.last.at <= now && NondecreasingTo(ops.before, ops.last.at)
  }

  /** Every commit of the trace, oldest first. */
  function Commits(ops: Trace<Op>): seq<Entry> {
    match ops
    case Start => []
    case Then(before, Committing(body, now)) => Commits(before) + [Entry(body, now, true)]
    case Then(before, _) => Commits(before)
  }

  lemma {:induction false} AlwaysWellKept(l: Limits, ops: Trace<Op>)
    requires Disciplined(l, ops)
    ensures WellKept(l, After(l, ops))
  {
    match ops
    case Start =>
    case Then(before, op) =>
      AlwaysWellKept(l, before);
      StepKeeps(l, After(l, before), op);
  }

  lemma {:induction false} StepKeeps(l: Limits, entries: seq<Entry>, op: Op)
    requires WellKept(l, entries)
    requires !op.Reserving? ==> Owned(entries, op.body)
    ensures WellKept(l, Apply(l, entries, op))
  {
    match op
    case Reserving(body, now) => ReserveKeeps(l, entries, body, now);
    case Committing(body, now) => CommitKeeps(entries, body, now);
    case Releasing(body) => WithoutKeeps(entries, body);
  }

  ghost predicate FreshDistinct(commits: seq<Entry>, now: Time, window: nat) {
    forall i, j :: 0 <= i < j < |commits| && Elapsed(now, commits[i].at) <= window ==>
      commits[i].body != commits[j].body
  }

  /** The entries marked sent are exactly the commits that have not been cleared,
      and nothing committed within the window has been cleared. */
  ghost predicate Agrees(l: Limits, entries: seq<Entry>, commits: seq<Entry>, now: Time) {
    && (forall e :: e in entries && e.sent ==> e in commits)
    && (forall e :: e in commits ==> e.sent && e.at <= now)
    && (forall e :: e in commits && Elapsed(now, e.at) <= l.window ==> e in entries)
    && FreshDistinct(commits, now, l.window)
  }

  lemma {:induction false} EntriesAgree(l: Limits, ops: Trace<Op>, now: Time)
    requires Disciplined(l, ops) && NondecreasingTo(ops, now)
    ensures Agrees(l, After(l, ops), Commits(ops), now)
  {
    match ops
    case Start =>
    case Then(before, op) =>
      var entries, commits := After(l, before), Commits(before);
      AlwaysWellKept(l, before);
      match op {
        case Reserving(body, t) =>
          EntriesAgree(l, before, t);
          ReserveKeeps(l, entries, body, t);
        case Committing(body, t) =>
          EntriesAgree(l, before, t);
          CommitAgrees(l, entries, commits, body, t, now);
        case Releasing(body) =>
          EntriesAgree(l, before, now);
          WithoutKeeps(entries, body);
          forall e | e in commits && Elapsed(now, e.at) <= l.window ensures e.body != body {
            OneEntryPerBody(entries, e);
          }
      }
  }

  lemma {:induction false} OneEntryPerBody(entries: seq<Entry>, e: Entry)
    requires DistinctBodies(entries) && e in entries
    ensures forall f :: f in entries && f.body == e.body ==> f == e
  {
  }

  lemma {:induction false} CommitAgrees(l: Limits, entries: seq<Entry>, commits: seq<Entry>, body: Body, t: Time,
                                        now: Time)
    requires DistinctBodies(entries) && Owned(entries, body) && t <= now
    requires Agrees(l, entries, commits, t)
    ensures Agrees(l, Commit(entries, body, t), commits + [Entry(body, t, true)], now)
  {
    CommitKeeps(entries, body, t);
    var r, e := Commit(entries, body, t), Entry(body, t, true);
    forall f | f in commits && Elapsed(now, f.at) <= l.window ensures f.body != body && f in r {
      OneEntryPerBody(entries, f);
      var i :| 0 <= i < |entries| && entries[i] == f;
      assert r[i] == f;
    }
    var k :| 0 <= k < |entries| && entries[k].body == body && !entries[k].sent;
    assert r[k] == e;
    forall f | f in r && f.sent ensures f in commits + [e] {
      var i :| 0 <= i < |r| && r[i] == f;
      assert f == e || f == entries[i];
    }
  }

  /** A body counts as already sent exactly when it was committed within the window. */
  lemma SentIsCommittedRecently(l: Limits, ops: Trace<Op>, body: Body, now: Time)
    requires Disciplined(l, ops) && NondecreasingTo(ops, now)
    ensures Sent(l, After(l, ops), body, now)
      <==> exists e :: e in Commits(ops) && e.body == body && Elapsed(now, e.at) <= l.window
  {
    EntriesAgree(l, ops, now);
  }

  // ---------------------------------------------------------------------------
  // The budget of one header

  /** How many bodies of `header` were committed in `[from, from + window]`. */
  function CommittedIn(commits: seq<Entry>, header: Hash, from: Time, window: nat): nat {
    if commits == [] then 0 else
      var e := commits[|commits| - 1];
      CommittedIn(commits[..|commits| - 1], header, from, window)
      + (if e.body.header == header && from <= e.at <= from + window then 1 else 0)
  }

  function BodiesOf(entries: seq<Entry>, header: Hash): set<Body> {
    set e | e in entries && e.body.header == header :: e.body
  }

  lemma {:induction false} BodiesAreCounted(entries: seq<Entry>, header: Hash)
    ensures |BodiesOf(entries, header)| <= SameHeader(entries, header)
  {
    if entries != [] {
      var tail := entries[1..];
      BodiesAreCounted(tail, header);
      var added := if entries[0].body.header == header then {entries[0].body} else {};
      assert BodiesOf(entries, header) == BodiesOf(tail, header) + added;
    }
  }

  lemma {:induction false} SubsetCardinality<T>(a: set<T>, b: set<T>)
    requires a <= b
    ensures |a| <= |b|
  {
    if a != {} {
      var x :| x in a;
      SubsetCardinality(a - {x}, b - {x});
    }
  }

  /** A body of this header was committed at `from` or later. */
  ghost predicate Went(commits: seq<Entry>, header: Hash, from: Time, b: Body) {
    b.header == header && exists i :: 0 <= i < |commits| && commits[i].body == b && from <= commits[i].at
  }

  ghost predicate NoRepeatSince(commits: seq<Entry>, from: Time) {
    forall i, j :: 0 <= i < j < |commits| && from <= commits[i].at ==> commits[i].body != commits[j].body
  }

  lemma {:induction false} WentBefore(commits: seq<Entry>, header: Hash, from: Time, b: Body)
    requires commits != [] && NoRepeatSince(commits, from) && Went(commits[..|commits| - 1], header, from, b)
    ensures Went(commits, header, from, b) && b != commits[|commits| - 1].body
  {
    var n := |commits| - 1;
    var i :| 0 <= i < n && commits[..n][i].body == b && from <= commits[..n][i].at;
    assert commits[i].body == b && from <= commits[i].at;
  }

  /** Distinct bodies, all in the ledger: as many as the interval count says. */
  lemma {:induction false} CountIsBodies(commits: seq<Entry>, header: Hash, from: Time, window: nat)
    returns (bodies: set<Body>)
    requires NoRepeatSince(commits, from)
    ensures |bodies| == CommittedIn(commits, header, from, window)
    ensures forall b :: b in bodies ==> Went(commits, header, from, b)
  {
    if commits == [] {
      bodies := {};
    } else {
      var n := |commits| - 1;
      var e := commits[n];
      var rest := CountIsBodies(commits[..n], header, from, window);
      forall b | b in rest ensures Went(commits, header, from, b) && b != e.body {
        WentBefore(commits, header, from, b);
      }
      bodies := if e.body.header == header && from <= e.at <= from + window then rest + {e.body} else rest;
    }
  }

  /** In any interval as long as the window, at most `perHeader` bodies of one header
      go out unverified, whatever else the trace does. */
  lemma {:induction false} HeaderBudget(l: Limits, ops: Trace<Op>, now: Time, header: Hash, from: Time)
    requires Disciplined(l, ops) && NondecreasingTo(ops, now)
    ensures CommittedIn(Commits(ops), header, from, l.window) <= l.perHeader
  {
    match ops
    case Start =>
    case Then(before, op) =>
      if op.Committing? && from <= op.at <= from + l.window {
        EntriesAgree(l, ops, op.at);
        AlwaysWellKept(l, ops);
        var entries, commits := After(l, ops), Commits(ops);
        var bodies := CountIsBodies(commits, header, from, l.window);
        forall b | b in bodies ensures b in BodiesOf(entries, header) {
          var i :| 0 <= i < |commits| && commits[i].body == b && from <= commits[i].at;
          assert commits[i] in commits;
        }
        SubsetCardinality(bodies, BodiesOf(entries, header));
        BodiesAreCounted(entries, header);
      } else {
        HeaderBudget(l, before, if op.Releasing? then now else op.at, header, from);
        if op.Committing? {
          assert Commits(ops)[..|Commits(ops)| - 1] == Commits(before);
        }
      }
  }

  // ---------------------------------------------------------------------------
  // The answer, from the trace

  /** The bodies whose guard has a place and has neither committed it nor given it back. */
  ghost function Pending(l: Limits, ops: Trace<Op>): set<Body> {
    match ops
    case Start => {}
    case Then(before, Reserving(body, now)) =>
      Pending(l, before) + if Reserve(l, After(l, before), body, now).1.Reserved? then {body} else {}
    case Then(before, op) => Pending(l, before) - {op.body}
  }

  /** The bodies that were committed no more than `window` before `now`. */
  ghost function JustSent(ops: Trace<Op>, now: Time, window: nat): set<Body> {
    set e | e in Commits(ops) && now <= e.at + window :: e.body
  }

  ghost function WithHeader(bodies: set<Body>, header: Hash): set<Body> {
    set b | b in bodies && b.header == header
  }

  ghost function AllBodies(entries: seq<Entry>): set<Body> {
    set e | e in entries :: e.body
  }

  /** A place is owned exactly while it is pending. */
  lemma {:induction false} PendingIsOwned(l: Limits, ops: Trace<Op>, b: Body)
    requires Disciplined(l, ops)
    ensures b in Pending(l, ops) <==> Owned(After(l, ops), b)
  {
    match ops
    case Start =>
    case Then(before, op) =>
      PendingIsOwned(l, before, b);
      AlwaysWellKept(l, before);
      OwnedAfter(l, After(l, before), op, b);
  }

  lemma {:induction false} OwnedAfter(l: Limits, entries: seq<Entry>, op: Op, b: Body)
    requires WellKept(l, entries) && (!op.Reserving? ==> Owned(entries, op.body))
    ensures Owned(Apply(l, entries, op), b) <==>
              if op.Reserving? then
                Owned(entries, b) || (b == op.body && Reserve(l, entries, b, op.at).1.Reserved?)
              else Owned(entries, b) && b != op.body
  {
    hide Reserve, Commit, Without;
    match op
    case Reserving(body, now) =>
      ReserveKeeps(l, entries, body, now);
      var (r, answer) := Reserve(l, entries, body, now);
      assert answer == Reserved ==> Entry(body, now, false) in r;
      assert forall e :: e in entries && !e.sent ==> e in r;
    case Releasing(body) =>
      WithoutKeeps(entries, body);
    case Committing(body, now) =>
      CommitKeeps(entries, body, now);
      var r := Commit(entries, body, now);
      if e :| e in entries && e.body == b && !e.sent && b != body {
        var i :| 0 <= i < |entries| && entries[i] == e;
        assert r[i] == e;
      }
      if f :| f in r && f.body == b && !f.sent {
        var i :| 0 <= i < |r| && r[i] == f;
        assert entries[i] == f;
      }
  }

  lemma {:induction false} BodiesOfCons(e: Entry, tail: seq<Entry>, header: Hash)
    requires DistinctBodies([e] + tail)
    ensures AllBodies([e] + tail) == AllBodies(tail) + {e.body} && e.body !in AllBodies(tail)
    ensures WithHeader(AllBodies([e] + tail), header)
         == WithHeader(AllBodies(tail), header) + if e.body.header == header then {e.body} else {}
    ensures DistinctBodies(tail)
  {
    var all := [e] + tail;
    assert all[0] == e && forall i :: 0 <= i < |tail| ==> all[i + 1] == tail[i];
    assert forall x :: x in all <==> x == e || x in tail;
    assert AllBodies(all) == AllBodies(tail) + {e.body};
  }

  lemma {:induction false} DistinctAreCounted(entries: seq<Entry>, header: Hash)
    requires DistinctBodies(entries)
    ensures |entries| == |AllBodies(entries)|
    ensures SameHeader(entries, header) == |WithHeader(AllBodies(entries), header)|
  {
    if entries == [] {
      assert AllBodies(entries) == {} && WithHeader(AllBodies(entries), header) == {};
    } else {
      hide AllBodies, DistinctBodies;
      var e, tail := entries[0], entries[1..];
      assert entries == [e] + tail;
      BodiesOfCons(e, tail, header);
      DistinctAreCounted(tail, header);
    }
  }

  /** What is retained at `now` is what is pending and what has just been sent. */
  lemma {:induction false} RetainedBodies(l: Limits, ops: Trace<Op>, now: Time)
    requires Disciplined(l, ops) && NondecreasingTo(ops, now)
    ensures AllBodies(Retain(After(l, ops), now, l.window)) == Pending(l, ops) + JustSent(ops, now, l.window)
  {
    hide Retain, After, Commits;
    var entries := After(l, ops);
    RetainKeeps(entries, now, l.window);
    EntriesAgree(l, ops, now);
    var kept, busy := AllBodies(Retain(entries, now, l.window)), Pending(l, ops) + JustSent(ops, now, l.window);
    forall b | b in kept ensures b in busy {
      PendingIsOwned(l, ops, b);
    }
    forall b | b in busy ensures b in kept {
      PendingIsOwned(l, ops, b);
    }
  }

  /** Over a whole trace: a body is a repeat exactly if it is pending or has just been sent.
      It gets a place exactly if it is neither, its header has fewer than `perHeader`
      bodies that are, and there is room among all of them. */
  lemma {:induction false} AnswerIsExact(l: Limits, ops: Trace<Op>, body: Body, now: Time)
    requires Disciplined(l, ops) && NondecreasingTo(ops, now)
    ensures var answer := Reserve(l, After(l, ops), body, now).1;
            var busy := Pending(l, ops) + JustSent(ops, now, l.window);
            && (answer == Repeat <==> body in busy)
            && (answer == Reserved <==>
                  && body !in busy && |WithHeader(busy, body.header)| < l.perHeader
                  && (|busy| < l.capacity || |busy| < l.perHeader))
  {
    hide Retain, After, Pending, JustSent;
    var kept := Retain(After(l, ops), now, l.window);
    AlwaysWellKept(l, ops);
    RetainKeeps(After(l, ops), now, l.window);
    RetainedBodies(l, ops, now);
    DistinctAreCounted(kept, body.header);
    assert Has(kept, body) <==> body in AllBodies(kept);
  }

  // ---------------------------------------------------------------------------
  // The ledger as an object

  /** `i` is where `body` is first found, or the end. */
  lemma {:induction false} CommitAt(entries: seq<Entry>, i: nat, body: Body, now: Time)
    requires i <= |entries| && (forall j :: 0 <= j < i ==> entries[j].body != body)
             && (i < |entries| ==> entries[i].body == body)
    ensures Commit(entries, body, now) == if i < |entries| then entries[i := Entry(body, now, true)] else entries
    decreases |entries|
  {
    if entries != [] && i > 0 {
      CommitAt(entries[1..], i - 1, body, now);
      assert [entries[0]] + entries[1..] == entries;
      assert i < |entries| ==>
          [entries[0]] + entries[1..][i - 1 := Entry(body, now, true)] == entries[i := Entry(body, now, true)];
    }
  }

  class Ledger {
    const limits: Limits
    var entries: seq<Entry>

    constructor (limits: Limits)
      ensures this.limits == limits && entries == []
    {
      this.limits := limits;
      entries := [];
    }

    method TryReserve(body: Body, now: Time) returns (answer: Reservation)
      modifies this
      ensures (entries, answer) == Reserve(limits, old(entries), body, now)
      ensures answer == Repeat <==>
                exists i :: i in Live(old(entries), now, limits.window) && old(entries)[i].body == body
      ensures answer != Repeat ==>
                var live := |Live(old(entries), now, limits.window)|;
                (answer == Reserved <==>
                   && |LiveOf(old(entries), body.header, now, limits.window)| < limits.perHeader
                   && (live < limits.capacity || live < limits.perHeader))
      ensures old(WellKept(limits, entries)) ==> WellKept(limits, entries)
      ensures forall e :: e in old(entries) && !e.sent ==> e in entries
    {
      hide Live, LiveOf;
      RetainKeeps(entries, now, limits.window);
      ReserveIsExact(limits, entries, body, now);
      if WellKept(limits, entries) {
        ReserveKeeps(limits, entries, body, now);
      }
      entries := Retain(entries, now, limits.window);
      if Has(entries, body) {
        return Repeat;
      }
      if SameHeader(entries, body.header) >= limits.perHeader {
        return HeaderFull;
      }
      if |entries| >= Max(limits.capacity, limits.perHeader) {
        return HeaderFull;
      }
      entries := entries + [Entry(body, now, false)];
      return Reserved;
    }

    method MarkSent(body: Body, now: Time)
      modifies this
      ensures entries == Commit(old(entries), body, now)
      ensures old(WellKept(limits, entries) && Has(entries, body)) ==> WellKept(limits, entries)
    {
      hide Commit;
      if WellKept(limits, entries) && Has(entries, body) {
        CommitKeeps(entries, body, now);
      }
      var i := 0;
      while i < |entries| && entries[i].body != body
        invariant 0 <= i <= |entries|
        invariant forall j :: 0 <= j < i ==> entries[j].body != body
      {
        i := i + 1;
      }
      CommitAt(entries, i, body, now);
      if i < |entries| {
        entries := entries[i := Entry(body, now, true)];
      }
    }

    method Release(body: Body)
      modifies this
      ensures entries == Without(old(entries), body) && !Has(entries, body)
      ensures old(WellKept(limits, entries)) ==> WellKept(limits, entries)
    {
      WithoutKeeps(entries, body);
      entries := Without(entries, body);
    }
  }
}
