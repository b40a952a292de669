/** The check of a block body against its header: the Merkle tree over transaction ids,
    which pairs an odd last node with itself, and the refusal of repeated ids that makes
    the root a commitment. The hash of a pair of nodes is a parameter. */
module Merkle {
  import opened Common
  import opened Wire

  const MAX_BLOCK_BYTES := 2_000_000

  type PairHash = (Hash, Hash) -> Hash

  /** The shape of what was hashed. */
  datatype Tree = Leaf(id: Hash) | Node(left: Tree, right: Tree)

  function Eval(pair: PairHash, t: Tree): Hash {
    match t
    case Leaf(id) => id
    case Node(left, right) => pair(Eval(pair, left), Eval(pair, right))
  }

  function Leaves(ids: seq<Hash>): seq<Tree> {
    seq(|ids|, i requires 0 <= i < |ids| => Leaf(ids[i]))
  }

  /** The next level: adjacent nodes paired, an odd last one with itself. */
  function Up(level: seq<Tree>): seq<Tree> {
    seq((|level| + 1) / 2, i requires 0 <= i < (|level| + 1) / 2 =>
      Node(level[2 * i], if 2 * i + 1 < |level| then level[2 * i + 1] else level[2 * i]))
  }

  function Top(level: seq<Tree>): Tree
    requires level != []
    decreases |level|
  {
    if |level| == 1 then level[0] else Top(Up(level))
  }

  function Evals(pair: PairHash, level: seq<Tree>): seq<Hash> {
    seq(|level|, i requires 0 <= i < |level| => Eval(pair, level[i]))
  }

  /** `merkle_root`. */
  method MerkleRoot(pair: PairHash, ids: seq<Hash>) returns (root: Option<Hash>)
    ensures root == if ids == [] then None else Some(Eval(pair, Top(Leaves(ids))))
  {
    if ids == [] {
      return None;
    }
    var level := ids;
    ghost var trees := Leaves(ids);
    assert Evals(pair, trees) == level;
    while |level| > 1
      invariant |level| >= 1 && Evals(pair, trees) == level && Top(trees) == Top(Leaves(ids))
      decreases |level|
    {
      assert |trees| == |level|;
      if |level| % 2 == 1 {
        level := level + [level[|level| - 1]];
      }
      var next: seq<Hash>, i := [], 0;
      while i < |level| / 2
        invariant 0 <= i <= |level| / 2 && |next| == i
        invariant forall k :: 0 <= k < i ==> next[k] == pair(level[2 * k], level[2 * k + 1])
      {
        next := next + [pair(level[2 * i], level[2 * i + 1])];
        i := i + 1;
      }
      assert Evals(pair, Up(trees)) == next;
      trees := Up(trees);
      level := next;
    }
    return Some(level[0]);
  }

  // ---------------------------------------------------------------------------
  // The root as a commitment

  /** The length of the left edge. */
  function Height(t: Tree): nat {
    match t
    case Leaf(_) => 0
    case Node(left, _) => Height(left) + 1
  }

  ghost predicate Level(level: seq<Tree>, h: nat) {
    forall i :: 0 <= i < |level| ==> Height(level[i]) == h
  }

  lemma {:induction false} TopIsHigher(level: seq<Tree>, h: nat)
    requires level != [] && Level(level, h)
    ensures if |level| == 1 then Height(Top(level)) == h else Height(Top(level)) > h
    decreases |level|
  {
    if |level| > 1 {
      assert Level(Up(level), h + 1);
      TopIsHigher(Up(level), h + 1);
    }
  }

  lemma {:induction false} UpKeepsDistinct(level: seq<Tree>)
    requires Distinct(level)
    ensures Distinct(Up(level))
  {
    forall i, j | 0 <= i < j < |Up(level)| ensures Up(level)[i] != Up(level)[j] {
      assert level[2 * i] != level[2 * j];
    }
  }

  lemma {:induction false} UpIsInjective(a: seq<Tree>, b: seq<Tree>)
    requires Distinct(a) && Distinct(b) && Up(a) == Up(b)
    ensures a == b
  {
    var n := |Up(a)|;
    assert n == |Up(b)|;
    forall i | 0 <= i < n ensures 2 * i + 1 < |a| <==> 2 * i + 1 < |b| {
      assert Up(a)[i] == Up(b)[i];
      assert 2 * i + 1 < |a| <==> Up(a)[i].left != Up(a)[i].right;
      assert 2 * i + 1 < |b| <==> Up(b)[i].left != Up(b)[i].right;
    }
    if n > 0 {
      assert 2 * (n - 1) + 1 < |a| <==> 2 * (n - 1) + 1 < |b|;
    }
    forall i | 0 <= i < n ensures a[2 * i] == b[2 * i] && (2 * i + 1 < |a| ==> a[2 * i + 1] == b[2 * i + 1]) {
      assert Up(a)[i] == Up(b)[i];
    }
    forall k | 0 <= k < |a| ensures a[k] == b[k] {
      assert k == 2 * (k / 2) || k == 2 * (k / 2) + 1;
    }
  }

  /** Levels without repeats that lead to one tree are the same. */
  lemma {:induction false} TopBinds(a: seq<Tree>, b: seq<Tree>, h: nat)
    requires a != [] && b != [] && Distinct(a) && Distinct(b) && Level(a, h) && Level(b, h) && Top(a) == Top(b)
    ensures a == b
    decreases |a| + |b|
  {
    TopIsHigher(a, h);
    TopIsHigher(b, h);
    if |a| > 1 {
      UpKeepsDistinct(a);
      UpKeepsDistinct(b);
      TopBinds(Up(a), Up(b), h + 1);
      UpIsInjective(a, b);
    }
  }

  /** Two inputs of the pair hash with one output, or an id that is also the hash of a
      pair. */
  datatype Collision = Pairs(a: Hash, b: Hash, c: Hash, d: Hash) | IdIsNode(id: Hash, a: Hash, b: Hash)

  predicate IsCollision(pair: PairHash, ids: set<Hash>, w: Collision) {
    match w
    case Pairs(a, b, c, d) => (a != c || b != d) && pair(a, b) == pair(c, d)
    case IdIsNode(id, a, b) => id in ids && pair(a, b) == id
  }

  function Ids(t: Tree): set<Hash> {
    match t
    case Leaf(id) => {id}
    case Node(left, right) => Ids(left) + Ids(right)
  }

  /** Different trees with one hash give a collision away. */
  lemma {:induction false} EvalBinds(pair: PairHash, s: Tree, t: Tree) returns (w: Collision)
    requires s != t && Eval(pair, s) == Eval(pair, t)
    ensures IsCollision(pair, Ids(s) + Ids(t), w)
  {
    match (s, t) {
      case (Node(a, b), Node(c, d)) =>
        if Eval(pair, a) == Eval(pair, c) && Eval(pair, b) == Eval(pair, d) {
          if a != c {
            w := EvalBinds(pair, a, c);
          } else {
            w := EvalBinds(pair, b, d);
          }
        } else {
          w := Pairs(Eval(pair, a), Eval(pair, b), Eval(pair, c), Eval(pair, d));
        }
      case (Leaf(id), Node(c, d)) => w := IdIsNode(id, Eval(pair, c), Eval(pair, d));
      case (Node(a, b), Leaf(id)) => w := IdIsNode(id, Eval(pair, a), Eval(pair, b));
      case (Leaf(_), Leaf(_)) =>
        assert false;
    }
  }

  lemma {:induction false} TopIds(level: seq<Tree>, ids: set<Hash>)
    requires level != [] && forall i :: 0 <= i < |level| ==> Ids(level[i]) <= ids
    ensures Ids(Top(level)) <= ids
    decreases |level|
  {
    if |level| > 1 {
      TopIds(Up(level), ids);
    }
  }

  /** Without repeated ids, the root commits to the list: two different lists with one
      root contain a collision of the pair hash, or an id that is the hash of a pair. */
  lemma {:induction false} RootCommits(pair: PairHash, xs: seq<Hash>, ys: seq<Hash>) returns (w: Collision)
    requires xs != [] && ys != [] && Distinct(xs) && Distinct(ys) && xs != ys
    requires Eval(pair, Top(Leaves(xs))) == Eval(pair, Top(Leaves(ys)))
    ensures IsCollision(pair, (set x | x in xs) + (set y | y in ys), w)
  {
    var a, b := Leaves(xs), Leaves(ys);
    if Top(a) == Top(b) {
      TopBinds(a, b, 0);
      LeavesDetermine(xs, ys);
    }
    w := EvalBinds(pair, Top(a), Top(b));
    TopIds(a, set x | x in xs);
    TopIds(b, set y | y in ys);
  }

  lemma {:induction false} LeavesDetermine(xs: seq<Hash>, ys: seq<Hash>)
    requires Leaves(xs) == Leaves(ys)
    ensures xs == ys
  {
    assert |xs| == |Leaves(xs)| && |ys| == |Leaves(ys)|;
    forall i | 0 <= i < |xs| ensures xs[i] == ys[i] {
      assert Leaves(xs)[i] == Leaves(ys)[i];
    }
  }

  /** The ids at the leaves, from left to right. */
  function Frontier(t: Tree): seq<Hash> {
    match t
    case Leaf(id) => [id]
    case Node(left, right) => Frontier(left) + Frontier(right)
  }

  function Flat(level: seq<Tree>): seq<Hash> {
    if level == [] then [] else Frontier(level[0]) + Flat(level[1..])
  }

  lemma {:induction false} UpReadsTheSame(level: seq<Tree>)
    ensures Flat(level) <= Flat(Up(level))
    decreases |level|
  {
    if |level| >= 2 {
      var rest := level[2..];
      UpReadsTheSame(rest);
      assert Up(level)[0] == Node(level[0], level[1]) && Up(level)[1..] == Up(rest);
      assert level[1..][1..] == rest;
      assert Flat(level) == Frontier(Up(level)[0]) + Flat(rest);
    } else if |level| == 1 {
      assert Up(level) == [Node(level[0], level[0])];
      assert level[1..] == [] && Up(level)[1..] == [];
    }
  }

  lemma {:induction false} TopReadsTheSame(level: seq<Tree>)
    requires level != []
    ensures Flat(level) <= Frontier(Top(level))
    decreases |level|
  {
    if |level| == 1 {
      assert level[1..] == [];
    } else {
      UpReadsTheSame(level);
      TopReadsTheSame(Up(level));
    }
  }

  lemma {:induction false} LeavesRead(ids: seq<Hash>)
    ensures Flat(Leaves(ids)) == ids
  {
    if ids != [] {
      assert Leaves(ids)[1..] == Leaves(ids[1..]);
      LeavesRead(ids[1..]);
    }
  }

  /** Read from left to right, the tree under the root begins with the ids in block order,
      and whatever follows repeats some of them. */
  lemma {:induction false} RootReadsInOrder(ids: seq<Hash>)
    requires ids != []
    ensures var t := Top(Leaves(ids)); ids <= Frontier(t) && Ids(t) == set x | x in ids
  {
    var t := Top(Leaves(ids));
    LeavesRead(ids);
    TopReadsTheSame(Leaves(ids));
    TopIds(Leaves(ids), set x | x in ids);
    FrontierIds(t);
    assert forall x :: x in ids ==> x in Frontier(t);
  }

  lemma {:induction false} FrontierIds(t: Tree)
    ensures forall x :: x in Frontier(t) <==> x in Ids(t)
  {
    if t.Node? {
      FrontierIds(t.left);
      FrontierIds(t.right);
    }
  }

  /** With repeats it does not, whatever the hash: repeating the last id of an odd list of
      three or more keeps the root. */
  lemma {:induction false} RepeatedTailKeepsRoot(pair: PairHash, ids: seq<Hash>)
    requires |ids| >= 3 && |ids| % 2 == 1
    ensures Eval(pair, Top(Leaves(ids + [ids[|ids| - 1]]))) == Eval(pair, Top(Leaves(ids)))
  {
    assert Up(Leaves(ids + [ids[|ids| - 1]])) == Up(Leaves(ids));
  }

  // ---------------------------------------------------------------------------
  // The body check

  /** Position `i` repeats an id, and no earlier position does. */
  ghost predicate FirstRepeat(ids: seq<Hash>, i: nat) {
    i < |ids| && ids[i] in ids[..i] && Distinct(ids[..i])
  }

  method FirstRepeatedTxid(ids: seq<Hash>) returns (r: Option<nat>)
    ensures r.None? ==> Distinct(ids)
    ensures r.Some? ==> FirstRepeat(ids, r.value)
  {
    var seen: set<Hash>, i := {}, 0;
    while i < |ids|
      invariant 0 <= i <= |ids| && seen == (set x | x in ids[..i]) && Distinct(ids[..i])
    {
      if ids[i] in seen {
        return Some(i);
      }
      seen := seen + {ids[i]};
      assert ids[..i + 1] == ids[..i] + [ids[i]];
      i := i + 1;
    }
    assert ids[..i] == ids;
    return None;
  }

  datatype BodyError =
    | TooLarge(bytes: nat)
    | InvalidHeaderLength
    | InvalidCount
    | EmptyTransactions
    | Transaction(index: nat)
    | TransactionBoundary(index: nat)
    | TrailingBytes(bytes: nat)
    | DuplicateTxid(index: nat)
    | MerkleMismatch

  datatype Checked = Valid(count: nat) | Bad(error: BodyError)

  /** What the transaction reader makes of some bytes: an id and how many it consumed. */
  datatype Parsed = Parsed(id: Hash, consumed: nat)

  type Reader = Bytes -> Option<Parsed>

  /** A slice is exactly one transaction. */
  predicate Exact(read: Reader, slice: Bytes) {
    read(slice).Some? && read(slice).value.consumed == |slice|
  }

  function Txids(read: Reader, slices: seq<Bytes>): seq<Hash>
    requires forall i :: 0 <= i < |slices| ==> Exact(read, slices[i])
  {
    seq(|slices|, i requires 0 <= i < |slices| && Exact(read, slices[i]) => read(slices[i]).value.id)
  }

  function Total(slices: seq<Bytes>): nat {
    if slices == [] then 0 else Total(slices[..|slices| - 1]) + |slices[|slices| - 1]|
  }

  /** The size of the serialized block after these slices, out of `count`. */
  function SizeOf(header: Bytes, count: nat, slices: seq<Bytes>): nat {
    |header| + |EncodeCompact(Minimal(count))| + Total(slices)
  }

  ghost predicate AllExact(read: Reader, slices: seq<Bytes>) {
    forall i :: 0 <= i < |slices| ==> Exact(read, slices[i])
  }

  /** The body matches the header. */
  ghost predicate Matches(header: Bytes, slices: seq<Bytes>, read: Reader, pair: PairHash, digest: Bytes -> Hash) {
    && |header| == ZCASH_FULL_HEADER_SIZE && slices != [] && AllExact(read, slices)
    && SizeOf(header, |slices|, slices) <= MAX_BLOCK_BYTES
    && Distinct(Txids(read, slices))
    && Eval(pair, Top(Leaves(Txids(read, slices)))) == digest(header[36..68])
  }

  lemma {:induction false} TotalGrows(slices: seq<Bytes>, i: nat)
    requires i <= |slices|
    ensures Total(slices[..i]) <= Total(slices)
    decreases |slices|
  {
    if i == |slices| {
      assert slices[..i] == slices;
    } else {
      var n := |slices| - 1;
      assert slices[..n][..i] == slices[..i];
      TotalGrows(slices[..n], i);
    }
  }

  /** `validate_block_transactions`: valid exactly when the body matches, and every error
      names something that is wrong with it. */
  method ValidateBlockTransactions(header: Bytes, slices: seq<Bytes>, read: Reader, pair: PairHash,
                                   digest: Bytes -> Hash)
    returns (r: Checked)
    ensures r.Valid? <==> Matches(header, slices, read, pair, digest)
    ensures r.Valid? ==> r.count == |slices|
    ensures r == Bad(InvalidHeaderLength) <==> |header| != ZCASH_FULL_HEADER_SIZE
    ensures r == Bad(EmptyTransactions) <==> |header| == ZCASH_FULL_HEADER_SIZE && slices == []
    ensures r.Bad? && r.error.TooLarge? ==> MAX_BLOCK_BYTES < r.error.bytes <= SizeOf(header, |slices|, slices)
    ensures r.Bad? && r.error.Transaction? ==> r.error.index < |slices| && read(slices[r.error.index]).None?
                                               && AllExact(read, slices[..r.error.index])
    ensures r.Bad? && r.error.TransactionBoundary? ==> r.error.index < |slices| && read(slices[r.error.index]).Some?
                                                       && !Exact(read, slices[r.error.index])
                                                         && AllExact(read, slices[..r.error.index])
    ensures r.Bad? && r.error.DuplicateTxid? ==>
            AllExact(read, slices) && FirstRepeat(Txids(read, slices), r.error.index)
    ensures r.Bad? && r.error.MerkleMismatch? ==> AllExact(read, slices) && Distinct(Txids(read, slices))
  {
    hide Eval, Top, Leaves, EncodeCompact, Total;
    if |header| != ZCASH_FULL_HEADER_SIZE {
      return Bad(InvalidHeaderLength);
    }
    if slices == [] {
      return Bad(EmptyTransactions);
    }
    var bytes := |header| + |EncodeCompact(Minimal(|slices|))|;
    var ids: seq<Hash>, i := [], 0;
    TotalOfNone(slices);
    while i < |slices|
      invariant 0 <= i <= |slices| && bytes == SizeOf(header, |slices|, slices[..i])
      invariant i > 0 ==> bytes <= MAX_BLOCK_BYTES
      invariant AllExact(read, slices[..i]) && ids == Txids(read, slices[..i])
    {
      TotalSnoc(slices, i);
      bytes := bytes + |slices[i]|;
      TotalGrows(slices, i + 1);
      if bytes > MAX_BLOCK_BYTES {
        return Bad(TooLarge(bytes));
      }
      var tx := read(slices[i]);
      if tx.None? {
        return Bad(Transaction(i));
      }
      if tx.value.consumed != |slices[i]| {
        return Bad(TransactionBoundary(i));
      }
      assert slices[..i + 1] == slices[..i] + [slices[i]];
      ids := ids + [tx.value.id];
      i := i + 1;
    }
    assert slices[..i] == slices;
    r := CheckTxids(header, ids, pair, digest);
  }

  lemma {:induction false} TotalOfNone(slices: seq<Bytes>)
    ensures Total(slices[..0]) == 0
  {
  }

  lemma {:induction false} TotalSnoc(slices: seq<Bytes>, i: nat)
    requires i < |slices|
    ensures Total(slices[..i + 1]) == Total(slices[..i]) + |slices[i]|
  {
    assert slices[..i + 1][..i] == slices[..i];
  }

  /** `check_txids`. */
  method CheckTxids(header: Bytes, ids: seq<Hash>, pair: PairHash, digest: Bytes -> Hash) returns (r: Checked)
    requires |header| == ZCASH_FULL_HEADER_SIZE && ids != []
    ensures r.Valid? <==> Distinct(ids) && Eval(pair, Top(Leaves(ids))) == digest(header[36..68])
    ensures r.Valid? ==> r.count == |ids|
    ensures r.Bad? ==> (r.error.DuplicateTxid? && FirstRepeat(ids, r.error.index))
                       || (r.error.MerkleMismatch? && Distinct(ids))
  {
    var repeated := FirstRepeatedTxid(ids);
    if repeated.Some? {
      var i := repeated.value;
      assert !Distinct(ids) by {
        var k :| 0 <= k < i && ids[..i][k] == ids[i];
        assert ids[k] == ids[i];
      }
      return Bad(DuplicateTxid(i));
    }
    var root := MerkleRoot(pair, ids);
    if root.value != digest(header[36..68]) {
      return Bad(MerkleMismatch);
    }
    return Valid(|ids|);
  }

  /** Two bodies that pass for one header have the same transaction ids in the same
      order, or give a collision away. */
  lemma {:induction false} HeaderCommitsToBody(header: Bytes, a: seq<Bytes>, b: seq<Bytes>, read: Reader,
                                               pair: PairHash, digest: Bytes -> Hash)
    returns (w: Option<Collision>)
    requires Matches(header, a, read, pair, digest) && Matches(header, b, read, pair, digest)
    ensures if w.None? then Txids(read, a) == Txids(read, b)
            else IsCollision(pair, (set x | x in Txids(read, a)) + (set y | y in Txids(read, b)), w.value)
  {
    if Txids(read, a) == Txids(read, b) {
      w := None;
    } else {
      var c := RootCommits(pair, Txids(read, a), Txids(read, b));
      w := Some(c);
    }
  }
}
