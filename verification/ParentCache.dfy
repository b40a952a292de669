/** The cache of parents known to the local node: a deque with the least recently
    confirmed hash in front. */
module ParentCache {
  import opened Common

  /** Without the first occurrence of `h`. */
  function Drop(s: seq<Hash>, h: Hash): seq<Hash> {
    if s == [] then [] else if s[0] == h then s[1..] else [s[0]] + Drop(s[1..], h)
  }

  /** `admit_parent`. */
  function Admitted(parents: seq<Hash>, capacity: nat, h: Hash): seq<Hash> {
    if h in parents then Drop(parents, h) + [h]
    else if parents != [] && |parents| == capacity then parents[1..] + [h]
    else parents + [h]
  }

  class CachedChainState {
    const capacity: nat
    var knownParents: seq<Hash>

    constructor (capacity: nat)
      ensures this.capacity == capacity && knownParents == []
    {
      this.capacity := capacity;
      knownParents := [];
    }

    method AdmitParent(h: Hash)
      modifies this
      ensures knownParents == Admitted(old(knownParents), capacity, h)
    {
      var i := 0;
      while i < |knownParents| && knownParents[i] != h
        invariant 0 <= i <= |knownParents| && knownParents == old(knownParents)
        invariant h !in knownParents[..i]
        invariant Drop(knownParents, h) == knownParents[..i] + Drop(knownParents[i..], h)
      {
        assert knownParents[i..][1..] == knownParents[i + 1..];
        assert knownParents[..i] + ([knownParents[i]] + Drop(knownParents[i + 1..], h))
            == knownParents[..i + 1] + Drop(knownParents[i + 1..], h);
        i := i + 1;
      }
      if i < |knownParents| {
        assert knownParents[i..][1..] == knownParents[i + 1..];
        knownParents := knownParents[..i] + knownParents[i + 1..];
      } else {
        assert knownParents[..i] == knownParents;
        if |knownParents| == capacity && knownParents != [] {
          knownParents := knownParents[1..];
        }
      }
      knownParents := knownParents + [h];
    }
  }

  // ---------------------------------------------------------------------------
  // The cache against its history

  function After(history: Trace<Hash>, capacity: nat): seq<Hash> {
    match history
    case Start => []
    case Then(before, h) => Admitted(After(before, capacity), capacity, h)
  }

  /** Every hash ever admitted, once, in the order of its latest admission. */
  function Recency(history: Trace<Hash>): seq<Hash> {
    match history
    case Start => []
    case Then(before, h) => Drop(Recency(before), h) + [h]
  }

  function Length(history: Trace<Hash>): nat {
    if history.Start? then 0 else Length(history.before) + 1
  }

  /** When `h` was last admitted, counting from 1; 0 if never. */
  function Latest(history: Trace<Hash>, h: Hash): nat {
    if history.Start? then 0
    else if history.last == h then Length(history)
    else Latest(history.before, h)
  }

  lemma {:induction false} DropIs(s: seq<Hash>, h: Hash)
    requires Distinct(s)
    ensures var r := Drop(s, h);
            && Distinct(r) && (forall x :: x in r <==> x in s && x != h)
            && |r| == if h in s then |s| - 1 else |s|
  {
    if s != [] {
      var tail := s[1..];
      assert forall x :: x in s <==> x == s[0] || x in tail;
      DropIs(tail, h);
      var rest := Drop(tail, h);
      assert s[0] !in tail;
      assert forall i :: 0 <= i < |rest| ==> rest[i] in rest;
    }
  }

  lemma {:induction false} DropJoin(a: seq<Hash>, b: seq<Hash>, h: Hash)
    ensures Drop(a + b, h) == if h in a then Drop(a, h) + b else a + Drop(b, h)
  {
    if a == [] {
      assert a + b == b && a + Drop(b, h) == Drop(b, h);
    } else {
      var tail := a[1..];
      assert (a + b)[1..] == tail + b && (a + b)[0] == a[0];
      if a[0] != h {
        assert h in a <==> h in tail;
        DropJoin(tail, b, h);
        assert [a[0]] + (Drop(tail, h) + b) == ([a[0]] + Drop(tail, h)) + b;
        assert [a[0]] + (tail + Drop(b, h)) == a + Drop(b, h);
      }
    }
  }

  /** The latest admissions rise strictly along `s`. */
  ghost predicate InOrder(history: Trace<Hash>, s: seq<Hash>) {
    forall i, j :: 0 <= i < j < |s| ==> Latest(history, s[i]) < Latest(history, s[j])
  }

  lemma {:induction false} LatestBounded(history: Trace<Hash>, h: Hash)
    ensures Latest(history, h) <= Length(history)
  {
    if history.Then? {
      LatestBounded(history.before, h);
    }
  }

  lemma {:induction false} DropInOrder(history: Trace<Hash>, s: seq<Hash>, h: Hash)
    requires InOrder(history, s)
    ensures InOrder(history, Drop(s, h)) && forall x :: x in Drop(s, h) ==> x in s
  {
    hide Latest;
    if s != [] {
      var tail := s[1..];
      assert forall i :: 0 <= i < |tail| ==> tail[i] == s[i + 1];
      DropInOrder(history, tail, h);
      if s[0] != h {
        ConsInOrder(history, s, Drop(tail, h));
      }
    }
  }

  lemma {:induction false} ConsInOrder(history: Trace<Hash>, s: seq<Hash>, rest: seq<Hash>)
    requires s != [] && InOrder(history, s) && InOrder(history, rest) && forall x :: x in rest ==> x in s[1..]
    ensures InOrder(history, [s[0]] + rest) && forall x :: x in [s[0]] + rest ==> x in s
  {
    hide Latest;
    forall i | 0 <= i < |rest| ensures Latest(history, s[0]) < Latest(history, rest[i]) {
      assert rest[i] in s[1..];
      var k :| 0 <= k < |s[1..]| && s[1..][k] == rest[i];
      assert s[k + 1] == rest[i];
    }
  }

  /** The hash just admitted goes last. */
  lemma {:induction false} SnocInOrder(history: Trace<Hash>, rest: seq<Hash>)
    requires history.Then? && InOrder(history.before, rest) && history.last !in rest
    requires forall x :: Latest(history.before, x) < Length(history)
    ensures InOrder(history, rest + [history.last])
  {
    var r := rest + [history.last];
    forall i, j | 0 <= i < j < |r| ensures Latest(history, r[i]) < Latest(history, r[j]) {
      assert r[i] == rest[i] && rest[i] in rest;
      if j < |rest| {
        assert r[j] == rest[j] && rest[j] in rest;
      }
    }
  }

  /** `Recency` means what it says: it has each admitted hash once, by latest
      admission. */
  lemma {:induction false} RecencyMeans(history: Trace<Hash>)
    ensures var r := Recency(history);
            Distinct(r) && InOrder(history, r) && forall h :: h in r <==> Latest(history, h) >= 1
  {
    if history.Then? {
      RecencyMeans(history.before);
      var r, h := Recency(history.before), history.last;
      DropIs(r, h);
      DropInOrder(history.before, r, h);
      forall x ensures Latest(history.before, x) < Length(history) {
        LatestBounded(history.before, x);
      }
      SnocInOrder(history, Drop(r, h));
    }
  }

  /** `recent` is the end of `r`, and there is more only if it is full. */
  ghost predicate Splits(r: seq<Hash>, older: seq<Hash>, recent: seq<Hash>, capacity: nat) {
    r == older + recent && |recent| <= capacity && (older != [] ==> |recent| == capacity)
  }

  lemma {:induction false} LastSplits(r: seq<Hash>, capacity: nat)
    ensures Splits(r, r[..|r| - |Last(r, capacity)|], Last(r, capacity), capacity)
  {
  }

  lemma {:induction false} SplitsLast(r: seq<Hash>, older: seq<Hash>, recent: seq<Hash>, capacity: nat)
    requires Splits(r, older, recent, capacity)
    ensures Last(r, capacity) == recent
  {
  }

  lemma {:induction false} OnlyThere(r: seq<Hash>, older: seq<Hash>, recent: seq<Hash>, h: Hash)
    requires Distinct(r) && r == older + recent && h in recent
    ensures h !in older && Distinct(recent)
  {
    var k :| 0 <= k < |recent| && recent[k] == h;
    assert forall i :: 0 <= i < |older| ==> older[i] == r[i] && r[i] != r[|older| + k];
    forall i, j | 0 <= i < j < |recent| ensures recent[i] != recent[j] {
      assert recent[i] == r[|older| + i] && recent[j] == r[|older| + j];
    }
  }

  /** One admission on the most recent hashes. */
  lemma {:induction false} AdmitRecent(r: seq<Hash>, capacity: nat, h: Hash)
    requires Distinct(r) && capacity >= 1
    ensures Admitted(Last(r, capacity), capacity, h) == Last(Drop(r, h) + [h], capacity)
  {
    hide Last, Drop, Distinct;
    var recent := Last(r, capacity);
    LastSplits(r, capacity);
    var older := r[..|r| - |recent|];
    DropJoin(older, recent, h);
    if h in recent {
      OnlyThere(r, older, recent, h);
      DropIs(recent, h);
      assert older + Drop(recent, h) + [h] == older + (Drop(recent, h) + [h]);
      SplitsLast(Drop(r, h) + [h], older, Drop(recent, h) + [h], capacity);
    } else {
      var kept := if h in older then Drop(older, h) else older;
      NotThere(recent, h);
      AppendRecent(kept, recent, h, capacity, older);
    }
  }

  lemma {:induction false} AppendRecent(kept: seq<Hash>, recent: seq<Hash>, h: Hash, capacity: nat, older: seq<Hash>)
    requires capacity >= 1 && |recent| <= capacity && (older != [] ==> |recent| == capacity)
             && (older == [] ==> kept == [])
    requires h !in recent
    ensures Admitted(recent, capacity, h) == Last(kept + recent + [h], capacity)
  {
    if |recent| == capacity {
      assert kept + recent + [h] == (kept + [recent[0]]) + (recent[1..] + [h]);
      SplitsLast(kept + recent + [h], kept + [recent[0]], recent[1..] + [h], capacity);
    } else {
      assert kept + recent + [h] == [] + (recent + [h]);
      SplitsLast(kept + recent + [h], [], recent + [h], capacity);
    }
  }

  lemma {:induction false} NotThere(s: seq<Hash>, h: Hash)
    requires h !in s
    ensures Drop(s, h) == s
  {
    if s != [] {
      NotThere(s[1..], h);
    }
  }

  /** With capacity 1 or more, the cache is exactly the `capacity` hashes admitted most
      recently, least recent first. */
  lemma {:induction false} CacheIsRecency(history: Trace<Hash>, capacity: nat)
    requires capacity >= 1
    ensures After(history, capacity) == Last(Recency(history), capacity)
  {
    if history.Then? {
      CacheIsRecency(history.before, capacity);
      RecencyMeans(history.before);
      AdmitRecent(Recency(history.before), capacity, history.last);
    }
  }

  /** Capacity 0 never counts as full: nothing is ever forgotten. */
  lemma {:induction false} CapacityZeroForgetsNothing(history: Trace<Hash>)
    ensures After(history, 0) == Recency(history)
  {
    if history.Then? {
      CapacityZeroForgetsNothing(history.before);
      if history.last !in Recency(history.before) {
        NotThere(Recency(history.before), history.last);
      }
    }
  }
}
