/** Per-connection requests: a queue of pending keys with deadlines and a bounded cache
    of the keys completed last. The queue is proved to be a map from keys to deadlines,
    whatever order responses come in. */
module RequestWindow {
  import opened Common

  datatype Request = Request(key: Hash, deadline: Time)

  // ---------------------------------------------------------------------------
  // The queue and the cache, as values

  /** `RecentInventory::insert`. A cache with limit 0 keeps nothing. */
  function Inserted(order: seq<Hash>, limit: nat, key: Hash): seq<Hash> {
    if key in order || limit == 0 then order
    else (if |order| == limit then order[1..] else order) + [key]
  }

  predicate Pending(pending: seq<Request>, key: Hash) {
    exists i :: 0 <= i < |pending| && pending[i].key == key
  }

  /** Without the first request for `key`. */
  function Without(pending: seq<Request>, key: Hash): seq<Request> {
    if pending == [] then []
    else if pending[0].key == key then pending[1..]
    else [pending[0]] + Without(pending[1..], key)
  }

  /** Overdue requests dropped from the front, up to the first that is not. */
  function Expired(pending: seq<Request>, now: Time): seq<Request> {
    if pending != [] && pending[0].deadline <= now then Expired(pending[1..], now) else pending
  }

  function SetOf(order: seq<Hash>): set<Hash> {
    set k | k in order
  }

  // ---------------------------------------------------------------------------
  // The objects

  class RecentInventory {
    const limit: nat
    var keys: set<Hash>
    var order: seq<Hash>

    ghost predicate Valid()
      reads this
    {
      keys == SetOf(order) && Distinct(order) && |order| <= limit
    }

    constructor (limit: nat)
      ensures Valid() && this.limit == limit && order == []
    {
      this.limit := limit;
      keys := {};
      order := [];
    }

    method Insert(key: Hash) returns (isNew: bool)
      requires Valid()
      modifies this
      ensures Valid()
      ensures order == Inserted(old(order), limit, key) && isNew == (key !in old(order))
    {
      if key in keys {
        return false;
      }
      if limit > 0 {
        if |order| == limit {
          keys := keys - {order[0]};
          order := order[1..];
        }
        keys := keys + {key};
        order := order + [key];
      }
      return true;
    }
  }

  class Window {
    const limit: nat
    const timeout: nat
    const recent: RecentInventory
    var pending: seq<Request>

    ghost function Bounds(): Limits {
      Limits(limit, recent.limit, timeout)
    }

    ghost function Value(): State
      reads this, recent
    {
      State(pending, recent.order)
    }

    constructor (limit: nat, recentLimit: nat, timeout: nat)
      ensures Bounds() == Limits(limit, recentLimit, timeout) && Value() == State([], [])
      ensures fresh(recent) && recent.Valid()
    {
      this.limit := limit;
      this.timeout := timeout;
      recent := new RecentInventory(recentLimit);
      pending := [];
    }

    method Admit(key: Hash, now: Time) returns (admitted: bool)
      requires recent.Valid()
      modifies this
      ensures Value() == Apply(Bounds(), old(Value()), Op.Admit(key, now))
      ensures admitted <==> !Pending(old(pending), key) && Pending(pending, key)
    {
      if |pending| >= limit || key in recent.keys {
        return false;
      }
      var i := 0;
      while i < |pending|
        invariant 0 <= i <= |pending| && pending == old(pending)
        invariant forall j :: 0 <= j < i ==> pending[j].key != key
      {
        if pending[i].key == key {
          return false;
        }
        i := i + 1;
      }
      pending := pending + [Request(key, now + timeout)];
      assert pending[|pending| - 1].key == key;
      return true;
    }

    method Remove(key: Hash) returns (index: Option<nat>)
      modifies this
      ensures index.Some? <==> Pending(old(pending), key)
      ensures index.Some? ==> index.value < |old(pending)| && old(pending)[index.value].key == key
                              && forall j :: 0 <= j < index.value ==> old(pending)[j].key != key
      ensures Value() == Apply(Bounds(), old(Value()), Op.Remove(key))
    {
      var i := 0;
      while i < |pending|
        invariant 0 <= i <= |pending| && pending == old(pending)
        invariant forall j :: 0 <= j < i ==> pending[j].key != key
        invariant Without(pending, key) == pending[..i] + Without(pending[i..], key)
      {
        assert pending[i..][1..] == pending[i + 1..];
        if pending[i].key == key {
          pending := pending[..i] + pending[i + 1..];
          return Some(i);
        }
        assert pending[..i] + ([pending[i]] + Without(pending[i + 1..], key))
            == pending[..i + 1] + Without(pending[i + 1..], key);
        i := i + 1;
      }
      return None;
    }

    method Complete(key: Hash) returns (index: Option<nat>)
      requires recent.Valid()
      modifies this, recent
      ensures recent.Valid()
      ensures index.Some? <==> Pending(old(pending), key)
      ensures Value() == Apply(Bounds(), old(Value()), Op.Complete(key))
    {
      index := Remove(key);
      if index.Some? {
        var _ := recent.Insert(key);
      } else {
        NothingToRemove(old(pending), key);
      }
    }

    method Deadline() returns (deadline: Option<Time>)
      ensures deadline == if pending == [] then None else Some(pending[0].deadline)
    {
      return if pending == [] then None else Some(pending[0].deadline);
    }

    method Expire(now: Time)
      modifies this
      ensures Value() == Apply(Bounds(), old(Value()), Op.Expire(now))
    {
      var deadline := Deadline();
      while deadline.Some? && deadline.value <= now
        invariant deadline == if pending == [] then None else Some(pending[0].deadline)
        invariant Expired(pending, now) == Expired(old(pending), now)
        decreases |pending|
      {
        pending := pending[1..];
        deadline := Deadline();
      }
    }
  }

  // ---------------------------------------------------------------------------
  // Runs

  datatype Op = Admit(key: Hash, now: Time) | Remove(key: Hash) | Complete(key: Hash) | Expire(now: Time)

  datatype Limits = Limits(pending: nat, recent: nat, timeout: nat)

  datatype State = State(pending: seq<Request>, recent: seq<Hash>)

  function Apply(l: Limits, s: State, op: Op): State {
    match op
    case Admit(key, now) =>
      if |s.pending| < l.pending && key !in s.recent && !Pending(s.pending, key)
      then s.(pending := s.pending + [Request(key, now + l.timeout)]) else s
    case Remove(key) => s.(pending := Without(s.pending, key))
    case Complete(key) =>
      if Pending(s.pending, key) then State(Without(s.pending, key), Inserted(s.recent, l.recent, key)) else s
    case Expire(now) => s.(pending := Expired(s.pending, now))
  }

  function After(l: Limits, run: Trace<Op>): State {
    match run
    case Start => State([], [])
    case Then(before, op) => Apply(l, After(l, before), op)
  }

  /** The reference: deadlines by key, and every completed key in order. */
  datatype Ideal = Ideal(deadlines: map<Hash, Time>, completed: seq<Hash>)

  function IdealApply(l: Limits, s: Ideal, op: Op): Ideal {
    match op
    case Admit(key, now) =>
      if |s.deadlines| < l.pending && key !in Last(s.completed, l.recent) && key !in s.deadlines
      then s.(deadlines := s.deadlines[key := now + l.timeout]) else s
    case Remove(key) => s.(deadlines := s.deadlines - {key})
    case Complete(key) => if key in s.deadlines then Ideal(s.deadlines - {key}, s.completed + [key]) else s
    case Expire(now) => s.(deadlines := map k | k in s.deadlines && s.deadlines[k] > now :: s.deadlines[k])
  }

  function IdealAfter(l: Limits, run: Trace<Op>): Ideal {
    match run
    case Start => Ideal(map[], [])
    case Then(before, op) => IdealApply(l, IdealAfter(l, before), op)
  }

  /** Times never run backwards, and none is later than `now`. */
  predicate Ordered(run: Trace<Op>, now: Time) {
    run.Then? ==> if run.last.Admit? || run.last.Expire? then run.last.now <= now && Ordered(run.before, run.last.now)
                  else Ordered(run.before, now)
  }

  ghost predicate DistinctRequests(pending: seq<Request>) {
    forall i, j :: 0 <= i < j < |pending| ==> pending[i].key != pending[j].key
  }

  ghost predicate SortedDeadlines(pending: seq<Request>) {
    forall i, j :: 0 <= i < j < |pending| ==> pending[i].deadline <= pending[j].deadline
  }

  /** The queue lists exactly the map. */
  ghost predicate Lists(pending: seq<Request>, m: map<Hash, Time>) {
    && (forall i :: 0 <= i < |pending| ==> pending[i].key in m && m[pending[i].key] == pending[i].deadline)
    && (forall k :: k in m ==> Pending(pending, k))
  }

  /** What holds after any run, whatever the times. */
  ghost predicate Inv(l: Limits, s: State) {
    && DistinctRequests(s.pending) && |s.pending| <= l.pending
    && Distinct(s.recent) && |s.recent| <= l.recent
    && forall k :: k in s.recent ==> !Pending(s.pending, k)
  }

  /** In a queue of distinct keys, removing a key leaves exactly the others, in order. */
  lemma {:induction false} WithoutIsFilter(pending: seq<Request>, key: Hash)
    requires DistinctRequests(pending)
    ensures var r := Without(pending, key);
            && |r| <= |pending| && DistinctRequests(r)
            && (SortedDeadlines(pending) ==> SortedDeadlines(r))
            && (forall x :: x in r <==> x in pending && x.key != key)
  {
    if pending != [] {
      var head, tail := pending[0], pending[1..];
      assert forall x :: x in pending <==> x == head || x in tail;
      if head.key == key {
        assert forall x :: x in tail ==> x.key != key;
      } else {
        WithoutIsFilter(tail, key);
        ConsFilter(pending, Without(tail, key));
      }
    }
  }

  /** The head goes back in front of what was kept of the tail. */
  lemma {:induction false} ConsFilter(pending: seq<Request>, rest: seq<Request>)
    requires pending != [] && DistinctRequests(pending) && DistinctRequests(rest)
    requires forall x :: x in rest ==> x in pending[1..]
    ensures DistinctRequests([pending[0]] + rest)
    ensures SortedDeadlines(pending) && SortedDeadlines(rest) ==> SortedDeadlines([pending[0]] + rest)
  {
    forall i | 0 <= i < |rest|
      ensures rest[i].key != pending[0].key && (SortedDeadlines(pending) ==> pending[0].deadline <= rest[i].deadline)
    {
      assert rest[i] in pending[1..];
      var k :| 0 <= k < |pending[1..]| && pending[1..][k] == rest[i];
      assert pending[k + 1] == rest[i];
    }
  }

  /** What is dropped from the front is overdue; a sorted queue keeps exactly the rest. */
  lemma {:induction false} ExpiredIsSuffix(pending: seq<Request>, now: Time)
    ensures var r := Expired(pending, now);
            && |r| <= |pending| && r == pending[|pending| - |r|..]
            && (SortedDeadlines(pending) ==> forall x :: x in r <==> x in pending && x.deadline > now)
  {
    if pending != [] && pending[0].deadline <= now {
      ExpiredIsSuffix(pending[1..], now);
      assert forall x :: x in pending <==> x == pending[0] || x in pending[1..];
    } else if pending != [] && SortedDeadlines(pending) {
      assert forall i :: 0 <= i < |pending| ==> pending[0].deadline <= pending[i].deadline;
    }
  }

  lemma {:induction false} InvKept(l: Limits, s: State, op: Op)
    requires Inv(l, s)
    ensures Inv(l, Apply(l, s, op))
  {
    match op
    case Admit(key, now) =>
    case Remove(key) => FewerPending(s, Without(s.pending, key), key);
    case Complete(key) =>
      FewerPending(s, Without(s.pending, key), key);
    case Expire(now) => ExpiredIsSuffix(s.pending, now);
  }

  lemma {:induction false} FewerPending(s: State, rest: seq<Request>, key: Hash)
    requires DistinctRequests(s.pending) && rest == Without(s.pending, key)
    ensures |rest| <= |s.pending| && DistinctRequests(rest) && !Pending(rest, key)
    ensures forall k :: Pending(rest, k) ==> Pending(s.pending, k)
  {
    WithoutIsFilter(s.pending, key);
    forall k | Pending(rest, k) ensures Pending(s.pending, k) && k != key {
      var i :| 0 <= i < |rest| && rest[i].key == k;
      assert rest[i] in s.pending;
    }
  }

  lemma {:induction false} InvHolds(l: Limits, run: Trace<Op>)
    ensures Inv(l, After(l, run))
  {
    if run.Then? {
      InvHolds(l, run.before);
      InvKept(l, After(l, run.before), run.last);
    }
  }

  // ---------------------------------------------------------------------------
  // The queue is the map

  /** The queue against the reference, at a time no earlier than any admission. */
  ghost predicate Refines(l: Limits, s: State, ideal: Ideal, now: Time) {
    && SortedDeadlines(s.pending)
    && (forall i :: 0 <= i < |s.pending| ==> s.pending[i].deadline <= now + l.timeout)
    && Lists(s.pending, ideal.deadlines)
    && s.recent == Last(ideal.completed, l.recent)
  }

  lemma {:induction false} ListsCounts(pending: seq<Request>, m: map<Hash, Time>)
    requires DistinctRequests(pending) && Lists(pending, m)
    ensures |pending| == |m|
  {
    if pending == [] {
      assert m.Keys == {};
    } else {
      var tail, smaller := pending[1..], m - {pending[0].key};
      forall k | k in smaller ensures Pending(tail, k) {
        var i :| 0 <= i < |pending| && pending[i].key == k;
        assert tail[i - 1] == pending[i];
      }
      ListsCounts(tail, smaller);
      assert m.Keys == smaller.Keys + {pending[0].key};
    }
  }

  /** A queue that keeps exactly the requests passing a test lists the map that does. */
  lemma {:induction false} ListsRest(pending: seq<Request>, m: map<Hash, Time>, rest: seq<Request>, m': map<Hash, Time>)
    requires DistinctRequests(pending) && Lists(pending, m)
    requires forall k :: k in m' ==> k in m && m'[k] == m[k]
    requires forall x :: x in rest <==> x in pending && x.key in m'
    ensures Lists(rest, m')
  {
    forall i | 0 <= i < |rest| ensures rest[i].key in m' && m'[rest[i].key] == rest[i].deadline {
      assert rest[i] in pending;
      var j :| 0 <= j < |pending| && pending[j] == rest[i];
    }
    forall k | k in m' ensures Pending(rest, k) {
      var j :| 0 <= j < |pending| && pending[j].key == k;
      assert pending[j] in rest;
    }
  }

  lemma {:induction false} RemovedRefines(l: Limits, s: State, ideal: Ideal, key: Hash, now: Time)
    requires Inv(l, s) && Refines(l, s, ideal, now)
    ensures Refines(l, s.(pending := Without(s.pending, key)), ideal.(deadlines := ideal.deadlines - {key}), now)
  {
    WithoutIsFilter(s.pending, key);
    var rest := Without(s.pending, key);
    assert forall x :: x in s.pending ==> x.key in ideal.deadlines;
    ListsRest(s.pending, ideal.deadlines, rest, ideal.deadlines - {key});
    forall i | 0 <= i < |rest| ensures rest[i].deadline <= now + l.timeout {
      assert rest[i] in s.pending;
    }
  }

  lemma {:induction false} ExpiredRefines(l: Limits, s: State, ideal: Ideal, now: Time)
    requires Inv(l, s) && Refines(l, s, ideal, now)
    ensures Refines(l, Apply(l, s, Expire(now)), IdealApply(l, ideal, Expire(now)), now)
  {
    ExpiredIsSuffix(s.pending, now);
    assert forall x :: x in s.pending ==> x.key in ideal.deadlines && ideal.deadlines[x.key] == x.deadline;
    ListsRest(s.pending, ideal.deadlines, Expired(s.pending, now), IdealApply(l, ideal, Expire(now)).deadlines);
  }

  lemma {:induction false} AdmittedRefines(l: Limits, s: State, ideal: Ideal, key: Hash, now: Time)
    requires Inv(l, s) && Refines(l, s, ideal, now)
    ensures Refines(l, Apply(l, s, Admit(key, now)), IdealApply(l, ideal, Admit(key, now)), now)
  {
    hide Lists, Pending, DistinctRequests, SortedDeadlines, Last;
    ListsCounts(s.pending, ideal.deadlines);
    ListedIsPending(s.pending, ideal.deadlines, key);
    if !Pending(s.pending, key) {
      ListsOneMore(s.pending, ideal.deadlines, key, now + l.timeout);
      SortedOneMore(s.pending, Request(key, now + l.timeout));
    }
  }

  lemma {:induction false} ListedIsPending(pending: seq<Request>, m: map<Hash, Time>, key: Hash)
    requires Lists(pending, m)
    ensures Pending(pending, key) <==> key in m
  {
  }

  lemma {:induction false} ListsOneMore(pending: seq<Request>, m: map<Hash, Time>, key: Hash, deadline: Time)
    requires Lists(pending, m) && !Pending(pending, key)
    ensures Lists(pending + [Request(key, deadline)], m[key := deadline])
  {
    var pending', n := pending + [Request(key, deadline)], |pending|;
    assert pending'[n].key == key;
    forall k | k in m ensures Pending(pending', k) {
      var i :| 0 <= i < n && pending[i].key == k;
      assert pending'[i] == pending[i];
    }
  }

  lemma {:induction false} SortedOneMore(pending: seq<Request>, r: Request)
    requires SortedDeadlines(pending) && forall i :: 0 <= i < |pending| ==> pending[i].deadline <= r.deadline
    ensures SortedDeadlines(pending + [r])
  {
  }

  lemma {:induction false} CompletedRefines(l: Limits, s: State, ideal: Ideal, key: Hash, now: Time)
    requires Inv(l, s) && Refines(l, s, ideal, now)
    ensures Refines(l, Apply(l, s, Complete(key)), IdealApply(l, ideal, Complete(key)), now)
  {
    ListedIsPending(s.pending, ideal.deadlines, key);
    if Pending(s.pending, key) {
      RemovedRefines(l, s, ideal, key, now);
      assert Inserted(Last(ideal.completed, l.recent), l.recent, key) == Last(ideal.completed + [key], l.recent);
    }
  }

  /** With ordered times, the queue is the map of deadlines and the cache is the last
      completed keys: front-only expiry removes exactly the overdue requests. */
  lemma {:induction false} WindowIsMap(l: Limits, run: Trace<Op>, now: Time)
    requires Ordered(run, now)
    ensures Refines(l, After(l, run), IdealAfter(l, run), now)
    ensures |After(l, run).pending| == |IdealAfter(l, run).deadlines|
  {
    hide Inv, Refines, Apply, IdealApply, Lists;
    if run.Then? {
      var s, ideal, op := After(l, run.before), IdealAfter(l, run.before), run.last;
      var t := if op.Admit? || op.Expire? then op.now else now;
      WindowIsMap(l, run.before, t);
      InvHolds(l, run.before);
      StepRefines(l, s, ideal, op, t);
      LaterRefines(l, After(l, run), IdealAfter(l, run), t, now);
    } else {
      NothingRefines(l, now);
    }
    InvHolds(l, run);
    RefinesCounts(l, After(l, run), IdealAfter(l, run), now);
  }

  lemma {:induction false} StepRefines(l: Limits, s: State, ideal: Ideal, op: Op, t: Time)
    requires Inv(l, s) && Refines(l, s, ideal, t) && (op.Admit? || op.Expire? ==> op.now == t)
    ensures Refines(l, Apply(l, s, op), IdealApply(l, ideal, op), t)
  {
    match op
    case Admit(key, _) => AdmittedRefines(l, s, ideal, key, t);
    case Remove(key) => RemovedRefines(l, s, ideal, key, t);
    case Complete(key) => CompletedRefines(l, s, ideal, key, t);
    case Expire(_) => ExpiredRefines(l, s, ideal, t);
  }

  lemma {:induction false} LaterRefines(l: Limits, s: State, ideal: Ideal, t: Time, now: Time)
    requires Refines(l, s, ideal, t) && t <= now
    ensures Refines(l, s, ideal, now)
  {
    forall i | 0 <= i < |s.pending| ensures s.pending[i].deadline <= now + l.timeout {
    }
  }

  lemma {:induction false} NothingRefines(l: Limits, now: Time)
    ensures Refines(l, State([], []), Ideal(map[], []), now)
  {
  }

  lemma {:induction false} RefinesCounts(l: Limits, s: State, ideal: Ideal, now: Time)
    requires Inv(l, s) && Refines(l, s, ideal, now)
    ensures |s.pending| == |ideal.deadlines|
  {
    ListsCounts(s.pending, ideal.deadlines);
  }

  // ---------------------------------------------------------------------------
  // Responses in any order

  /** The requests whose key is not in `gone`, in order. */
  function Keep(pending: seq<Request>, gone: set<Hash>): seq<Request> {
    if pending == [] then []
    else if pending[0].key in gone then Keep(pending[1..], gone)
    else [pending[0]] + Keep(pending[1..], gone)
  }

  function From(l: Limits, s: State, ops: Trace<Op>): State {
    match ops
    case Start => s
    case Then(before, op) => Apply(l, From(l, s, before), op)
  }

  /** Nothing new is asked for: deliveries, `notfound` and the expiry that precedes every
      message. */
  predicate Responses(ops: Trace<Op>) {
    ops.Then? ==> !ops.last.Admit? && Responses(ops.before)
  }

  function Answered(ops: Trace<Op>): set<Hash>
    requires Responses(ops)
  {
    match ops
    case Start => {}
    case Then(before, op) => if op.Expire? then Answered(before) else Answered(before) + {op.key}
  }

  /** What is left of a queue once everything due by the latest expiry is gone. */
  function Unexpired(pending: seq<Request>, ops: Trace<Op>): seq<Request>
    requires Responses(ops)
  {
    if LatestExpiry(ops).None? then pending else Expired(pending, LatestExpiry(ops).value)
  }

  function LatestExpiry(ops: Trace<Op>): Option<Time>
    requires Responses(ops)
  {
    match ops
    case Start => None
    case Then(before, op) =>
      var latest := LatestExpiry(before);
      if op.Expire? && (latest.None? || latest.value < op.now) then Some(op.now) else latest
  }

  lemma {:induction false} KeepAll(pending: seq<Request>, gone: set<Hash>)
    requires forall i :: 0 <= i < |pending| ==> pending[i].key !in gone
    ensures Keep(pending, gone) == pending
  {
    if pending != [] {
      KeepAll(pending[1..], gone);
    }
  }

  /** Answering one more key. */
  lemma {:induction false} KeepWithout(pending: seq<Request>, gone: set<Hash>, key: Hash)
    requires DistinctRequests(pending)
    ensures Without(Keep(pending, gone), key) == Keep(pending, gone + {key})
  {
    if pending != [] {
      var tail := pending[1..];
      KeepWithout(tail, gone, key);
      if pending[0].key == key && key !in gone {
        assert ([pending[0]] + Keep(tail, gone))[1..] == Keep(tail, gone);
        SameKeep(tail, gone, key);
      } else if pending[0].key !in gone {
        assert ([pending[0]] + Keep(tail, gone))[1..] == Keep(tail, gone);
      }
    }
  }

  lemma {:induction false} SameKeep(pending: seq<Request>, gone: set<Hash>, key: Hash)
    requires forall i :: 0 <= i < |pending| ==> pending[i].key != key
    ensures Keep(pending, gone) == Keep(pending, gone + {key})
  {
    if pending != [] {
      SameKeep(pending[1..], gone, key);
    }
  }

  /** Expiring by one time and then by another. */
  lemma {:induction false} ExpiredTwice(pending: seq<Request>, first: Time, second: Time)
    ensures Expired(Expired(pending, first), second) == Expired(pending, second) || second < first
    ensures second <= first && SortedDeadlines(pending) ==>
            Expired(Expired(pending, first), second) == Expired(pending, first)
  {
    ExpiredIsSuffix(pending, first);
    if pending != [] && pending[0].deadline <= first {
      ExpiredTwice(pending[1..], first, second);
    }
  }

  /** In a sorted queue, expiry and answers can be done in either order. */
  lemma {:induction false} ExpiredKeep(pending: seq<Request>, gone: set<Hash>, now: Time)
    requires SortedDeadlines(pending)
    ensures Expired(Keep(pending, gone), now) == Keep(Expired(pending, now), gone)
  {
    if pending != [] {
      var tail := pending[1..];
      if pending[0].deadline <= now {
        ExpiredKeep(tail, gone, now);
        assert pending[0].key !in gone ==> ([pending[0]] + Keep(tail, gone))[1..] == Keep(tail, gone);
      } else {
        NothingDue(pending, gone, now);
      }
    }
  }

  lemma {:induction false} NothingDue(pending: seq<Request>, gone: set<Hash>, now: Time)
    requires forall i :: 0 <= i < |pending| ==> pending[i].deadline > now
    ensures Expired(Keep(pending, gone), now) == Keep(pending, gone)
  {
    if pending != [] {
      NothingDue(pending[1..], gone, now);
    }
  }

  lemma {:induction false} SortedSuffix(pending: seq<Request>, ops: Trace<Op>)
    requires Responses(ops) && DistinctRequests(pending) && SortedDeadlines(pending)
    ensures DistinctRequests(Unexpired(pending, ops)) && SortedDeadlines(Unexpired(pending, ops))
  {
    if LatestExpiry(ops).Some? {
      ExpiredIsSuffix(pending, LatestExpiry(ops).value);
    }
  }

  /** Reordered, repeated, unsolicited or missing, with the clock running between them:
      after any answers and expiries, what is left pending is exactly what was neither
      answered nor due by the latest expiry, in the order it was asked for. */
  lemma {:induction false} AnswersInAnyOrder(l: Limits, s: State, ops: Trace<Op>)
    requires DistinctRequests(s.pending) && SortedDeadlines(s.pending) && Responses(ops)
    ensures From(l, s, ops).pending == Keep(Unexpired(s.pending, ops), Answered(ops))
  {
    if ops.Start? {
      KeepAll(s.pending, {});
    } else {
      AnswersInAnyOrder(l, s, ops.before);
      SortedSuffix(s.pending, ops.before);
      var left, gone, op := Unexpired(s.pending, ops.before), Answered(ops.before), ops.last;
      if op.Expire? {
        ExpiredKeep(left, gone, op.now);
        if LatestExpiry(ops.before).Some? {
          ExpiredTwice(s.pending, LatestExpiry(ops.before).value, op.now);
        }
      } else {
        KeepWithout(left, gone, op.key);
        var now := From(l, s, ops.before).pending;
        if op.Complete? && !Pending(now, op.key) {
          NothingToRemove(now, op.key);
        }
      }
    }
  }

  /** So it is on every connection: after a run at ordered times, and then any messages
      that ask for nothing new. */
  lemma {:induction false} UnansweredStayPending(l: Limits, run: Trace<Op>, now: Time, ops: Trace<Op>)
    requires Ordered(run, now) && Responses(ops)
    ensures From(l, After(l, run), ops).pending == Keep(Unexpired(After(l, run).pending, ops), Answered(ops))
    ensures forall x :: x in From(l, After(l, run), ops).pending <==>
              && x in After(l, run).pending && x.key !in Answered(ops)
              && (LatestExpiry(ops).Some? ==> x.deadline > LatestExpiry(ops).value)
  {
    WindowIsMap(l, run, now);
    InvHolds(l, run);
    AnswersInAnyOrder(l, After(l, run), ops);
    if LatestExpiry(ops).Some? {
      ExpiredIsSuffix(After(l, run).pending, LatestExpiry(ops).value);
    }
    KeepIs(Unexpired(After(l, run).pending, ops), Answered(ops));
  }

  lemma {:induction false} KeepIs(pending: seq<Request>, gone: set<Hash>)
    ensures forall x :: x in Keep(pending, gone) <==> x in pending && x.key !in gone
  {
    if pending != [] {
      assert forall x :: x in pending <==> x == pending[0] || x in pending[1..];
      KeepIs(pending[1..], gone);
    }
  }

  lemma {:induction false} NothingToRemove(pending: seq<Request>, key: Hash)
    requires !Pending(pending, key)
    ensures Without(pending, key) == pending
  {
    if pending != [] {
      assert pending[0].key != key;
      var tail := pending[1..];
      forall i | 0 <= i < |tail| ensures tail[i].key != key {
        assert tail[i] == pending[i + 1];
      }
      NothingToRemove(tail, key);
    }
  }
}
