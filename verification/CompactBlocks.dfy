/** Compact blocks: the ingress builder, which replaces transactions by short ids
    where it can, and the receiver, which puts them back. Prefilled positions are
    differential, as in the PrefilledTransaction section of BIP 152. */
module CompactBlocks {
  import opened Common
  import opened Wire

  type WtxId = nat
  type ShortId = nat

  const U16_MAX := 0xffff

  datatype Prefilled = Prefilled(index: nat, tx: Bytes)

  datatype CompactBlock = CompactBlock(header: Bytes, nonce: nat, shortIds: seq<ShortId>, prefilled: seq<Prefilled>)

  /** What a resolver answers for the transaction at a position. The position makes
      room for resolvers that change as they are called. */
  type Resolver = (nat, Bytes) -> Option<WtxId>

  // ---------------------------------------------------------------------------
  // What a compact block stands for

  function Blank(n: nat): seq<Option<Bytes>> {
    seq(n, i => None)
  }

  /** The slots that a run of prefilled transactions describes: each one skips as many
      slots as its index says. */
  function Expand(prefilled: seq<Prefilled>): seq<Option<Bytes>> {
    if prefilled == [] then [] else
      var last := prefilled[|prefilled| - 1];
      Expand(prefilled[..|prefilled| - 1]) + Blank(last.index) + [Some(last.tx)]
  }

  /** Absolute positions, decoded one after the other. */
  function Positions(prefilled: seq<Prefilled>): seq<nat> {
    if prefilled == [] then [] else
      var earlier := prefilled[..|prefilled| - 1];
      Positions(earlier) + [|Expand(earlier)| + prefilled[|prefilled| - 1].index]
  }

  /** A transaction goes in whole if it is the coinbase or cannot be resolved. */
  predicate GoesInWhole(txs: seq<Bytes>, resolve: Resolver, i: nat)
    requires i < |txs|
  {
    i == 0 || resolve(i, txs[i]).None?
  }

  /** The slots a block should have, up to `n`. */
  function Layout(txs: seq<Bytes>, resolve: Resolver, n: nat): seq<Option<Bytes>>
    requires n <= |txs|
  {
    seq(n, i requires 0 <= i < n => if GoesInWhole(txs, resolve, i) then Some(txs[i]) else None)
  }

  /** The short ids of the other slots, in block order. */
  function ShortIds(txs: seq<Bytes>, resolve: Resolver, shortId: WtxId -> ShortId, n: nat): seq<ShortId>
    requires n <= |txs|
  {
    if n == 0 then []
    else if GoesInWhole(txs, resolve, n - 1) then ShortIds(txs, resolve, shortId, n - 1)
    else ShortIds(txs, resolve, shortId, n - 1) + [shortId(resolve(n - 1, txs[n - 1]).value)]
  }

  /** `compact` is the compact form of these transactions under this resolver. */
  ghost predicate IsCompactOf(compact: CompactBlock, header: Bytes, txs: seq<Bytes>, resolve: Resolver,
                              shortId: WtxId -> ShortId) {
    && compact.header == header && compact.nonce == 0
    && compact.shortIds == ShortIds(txs, resolve, shortId, |txs|)
    && |Expand(compact.prefilled)| <= |txs|
    && Expand(compact.prefilled) + Blank(|txs| - |Expand(compact.prefilled)|) == Layout(txs, resolve, |txs|)
    && forall k :: 0 <= k < |compact.prefilled| ==> compact.prefilled[k].index <= U16_MAX
  }

  // ---------------------------------------------------------------------------
  // The builder

  lemma {:induction false} ExpandSnoc(prefilled: seq<Prefilled>, p: Prefilled)
    ensures Expand(prefilled + [p]) == Expand(prefilled) + Blank(p.index) + [Some(p.tx)]
  {
    assert (prefilled + [p])[..|prefilled|] == prefilled;
  }

  /** One more slot left blank. */
  lemma {:induction false} LayoutBlank(txs: seq<Bytes>, resolve: Resolver, n: nat, prefilled: seq<Prefilled>, gap: nat)
    requires n < |txs| && !GoesInWhole(txs, resolve, n)
    requires Expand(prefilled) + Blank(gap) == Layout(txs, resolve, n)
    ensures Expand(prefilled) + Blank(gap + 1) == Layout(txs, resolve, n + 1)
  {
    assert Layout(txs, resolve, n + 1) == Layout(txs, resolve, n) + [None];
    assert Blank(gap + 1) == Blank(gap) + [None];
    assert Expand(prefilled) + (Blank(gap) + [None]) == (Expand(prefilled) + Blank(gap)) + [None];
  }

  /** One more slot filled, after `p.index` blank ones. */
  lemma {:induction false} LayoutWhole(txs: seq<Bytes>, resolve: Resolver, n: nat, prefilled: seq<Prefilled>,
                                       p: Prefilled)
    requires n < |txs| && GoesInWhole(txs, resolve, n) && p.tx == txs[n]
    requires Expand(prefilled) + Blank(p.index) == Layout(txs, resolve, n)
    ensures |Expand(prefilled + [p])| == n + 1 && Expand(prefilled + [p]) + Blank(0) == Layout(txs, resolve, n + 1)
  {
    ExpandSnoc(prefilled, p);
    assert Layout(txs, resolve, n + 1) == Layout(txs, resolve, n) + [Some(txs[n])];
  }

  /** `compact_block_from_transactions`. It refuses exactly the lists whose positions
      would not fit the 16-bit index, and then no index is truncated. */
  method Build(header: Bytes, txs: seq<Bytes>, resolve: Resolver, shortId: WtxId -> ShortId)
    returns (r: Option<CompactBlock>)
    ensures r.Some? <==> |txs| <= U16_MAX + 1
    ensures r.Some? ==> IsCompactOf(r.value, header, txs, resolve, shortId)
  {
    hide Expand, Layout, Blank;
    if |txs| > U16_MAX + 1 {
      return None;
    }
    var shortIds: seq<ShortId>, prefilled: seq<Prefilled> := [], [];
    var lastPrefilled := -1;
    var index := 0;
    EmptyLayout(txs, resolve);
    while index < |txs|
      invariant 0 <= index <= |txs| && -1 <= lastPrefilled < index
      invariant |Expand(prefilled)| == lastPrefilled + 1
      invariant Expand(prefilled) + Blank(index - lastPrefilled - 1) == Layout(txs, resolve, index)
      invariant shortIds == ShortIds(txs, resolve, shortId, index)
      invariant forall k :: 0 <= k < |prefilled| ==> prefilled[k].index <= U16_MAX
    {
      var resolved := if index > 0 then resolve(index, txs[index]) else None;
      if resolved.Some? {
        shortIds := shortIds + [shortId(resolved.value)];
        LayoutBlank(txs, resolve, index, prefilled, index - lastPrefilled - 1);
      } else {
        var diff := index - lastPrefilled - 1;
        var p := Prefilled(diff % (U16_MAX + 1), txs[index]);
        LayoutWhole(txs, resolve, index, prefilled, p);
        prefilled := prefilled + [p];
        lastPrefilled := index;
      }
      index := index + 1;
    }
    return Some(CompactBlock(header, 0, shortIds, prefilled));
  }

  lemma {:induction false} EmptyLayout(txs: seq<Bytes>, resolve: Resolver)
    ensures Expand([]) == [] && Expand([]) + Blank(0) == Layout(txs, resolve, 0)
  {
  }

  // ---------------------------------------------------------------------------
  // Differential indices

  ghost predicate Increasing(ps: seq<nat>) {
    forall i, j :: 0 <= i < j < |ps| ==> ps[i] < ps[j]
  }

  /** Decoding finds, in increasing order, exactly the slots that `Expand` fills, each
      with its transaction. */
  lemma {:induction false} PositionsAreFilledSlots(prefilled: seq<Prefilled>)
    ensures FilledAt(prefilled, Positions(prefilled), Expand(prefilled))
  {
    hide FilledAt;
    if prefilled == [] {
      NoneFilled();
    }
    if prefilled != [] {
      var n := |prefilled| - 1;
      var earlier := prefilled[..n];
      PositionsAreFilledSlots(earlier);
      var ps, slots := Positions(earlier), Expand(earlier);
      OneMoreFilled(earlier, ps, slots, prefilled[n]);
      assert prefilled == earlier + [prefilled[n]];
    }
  }

  lemma {:induction false} NoneFilled()
    ensures FilledAt([], [], [])
  {
  }

  ghost predicate FilledAt(prefilled: seq<Prefilled>, ps: seq<nat>, slots: seq<Option<Bytes>>) {
    && |ps| == |prefilled| && Increasing(ps)
    && (forall k :: 0 <= k < |ps| ==> ps[k] < |slots| && slots[ps[k]] == Some(prefilled[k].tx))
    && (forall i :: 0 <= i < |slots| && slots[i].Some? ==> i in ps)
  }

  lemma {:induction false} OneMoreFilled(prefilled: seq<Prefilled>, ps: seq<nat>, slots: seq<Option<Bytes>>,
                                         p: Prefilled)
    requires FilledAt(prefilled, ps, slots)
    ensures FilledAt(prefilled + [p], ps + [|slots| + p.index], slots + Blank(p.index) + [Some(p.tx)])
  {
    var at, slots' := |slots| + p.index, slots + Blank(p.index) + [Some(p.tx)];
    assert slots'[at] == Some(p.tx);
    assert forall i :: 0 <= i < |slots| ==> slots'[i] == slots[i];
    assert forall i :: |slots| <= i < at ==> slots'[i] == None;
    var ps' := ps + [at];
    forall i | 0 <= i < |slots'| && slots'[i].Some? ensures i in ps' {
      if i < |slots| {
        assert i in ps;
      } else {
        assert ps'[|ps|] == i;
      }
    }
  }

  /** The positions a built block decodes to are the coinbase and the transactions
      that did not resolve, and no others. */
  lemma {:induction false} DecodesToUnresolved(compact: CompactBlock, header: Bytes, txs: seq<Bytes>,
                                               resolve: Resolver, shortId: WtxId -> ShortId)
    requires IsCompactOf(compact, header, txs, resolve, shortId)
    ensures Increasing(Positions(compact.prefilled)) && |Positions(compact.prefilled)| == |compact.prefilled|
    ensures forall k :: 0 <= k < |compact.prefilled| ==>
              var at := Positions(compact.prefilled)[k];
              at < |txs| && (at == 0 || resolve(at, txs[at]).None?) && compact.prefilled[k].tx == txs[at]
    ensures forall i :: 0 <= i < |txs| && (i == 0 || resolve(i, txs[i]).None?) ==> i in Positions(compact.prefilled)
  {
    PositionsAreFilledSlots(compact.prefilled);
    var slots, layout := Expand(compact.prefilled), Layout(txs, resolve, |txs|);
    var padded := slots + Blank(|txs| - |slots|);
    assert padded == layout;
    forall i | 0 <= i < |txs| ensures layout[i] == if i < |slots| then slots[i] else None {
      assert layout[i] == padded[i];
    }
    forall i | 0 <= i < |txs| && GoesInWhole(txs, resolve, i) ensures i in Positions(compact.prefilled) {
      assert layout[i] == Some(txs[i]);
    }
  }

  /** `cached_wtxid`: the cache, or nothing. */
  function Cached(cache: Bytes -> Option<WtxId>): Resolver {
    (i, tx) => cache(tx)
  }

  /** `skeleton_wtxid`: the cache, or else the transaction hashed directly. */
  function Skeleton(cache: Bytes -> Option<WtxId>, hash: Bytes -> Option<WtxId>): Resolver {
    (i, tx) => if cache(tx).Some? then cache(tx) else hash(tx)
  }

  /** The short id of slot `i` stands after those of the slots before it. */
  lemma {:induction false} ShortIdAt(txs: seq<Bytes>, resolve: Resolver, shortId: WtxId -> ShortId, n: nat, i: nat)
    requires i < n <= |txs| && !GoesInWhole(txs, resolve, i)
    ensures |ShortIds(txs, resolve, shortId, i)| < |ShortIds(txs, resolve, shortId, n)|
    ensures ShortIds(txs, resolve, shortId, n)[|ShortIds(txs, resolve, shortId, i)|]
            == shortId(resolve(i, txs[i]).value)
  {
    hide GoesInWhole;
    if i < n - 1 {
      ShortIdAt(txs, resolve, shortId, n - 1, i);
    }
  }

  /** The slot a built block gives to transaction `i`. */
  function SlotAt(compact: CompactBlock, i: nat): Option<Bytes> {
    var slots := Expand(compact.prefilled);
    if i < |slots| then slots[i] else None
  }

  lemma {:induction false} SlotIsLayout(compact: CompactBlock, header: Bytes, txs: seq<Bytes>, resolve: Resolver,
                                        shortId: WtxId -> ShortId, i: nat)
    requires IsCompactOf(compact, header, txs, resolve, shortId) && i < |txs|
    ensures SlotAt(compact, i) == if GoesInWhole(txs, resolve, i) then Some(txs[i]) else None
  {
    var slots, layout := Expand(compact.prefilled), Layout(txs, resolve, |txs|);
    assert layout[i] == (slots + Blank(|txs| - |slots|))[i];
  }

  /** On one cache, slot by slot: what the skeleton of a block prefills, its compact block
      prefills with the same bytes; and where the compact block has a short id, so has the
      skeleton, and it is the same one. */
  lemma {:induction false} SkeletonPrefillsLess(full: CompactBlock, skeleton: CompactBlock, header: Bytes,
                                                txs: seq<Bytes>,
                                                cache: Bytes -> Option<WtxId>, hash: Bytes -> Option<WtxId>,
                                                shortId: WtxId -> ShortId)
    requires IsCompactOf(full, header, txs, Cached(cache), shortId)
    requires IsCompactOf(skeleton, header, txs, Skeleton(cache, hash), shortId)
    ensures forall i :: 0 <= i < |txs| && SlotAt(skeleton, i).Some? ==> SlotAt(full, i) == SlotAt(skeleton, i)
    ensures forall i :: 0 <= i < |txs| && SlotAt(full, i).None? ==>
              var k, m := |ShortIds(txs, Skeleton(cache, hash), shortId, i)|,
                |ShortIds(txs, Cached(cache), shortId, i)|;
              SlotAt(skeleton, i).None? && k < |skeleton.shortIds| && m < |full.shortIds|
                && skeleton.shortIds[k] == full.shortIds[m]
    ensures forall at :: at in Positions(skeleton.prefilled) ==> at in Positions(full.prefilled)
    ensures |skeleton.prefilled| <= |full.prefilled|
  {
    hide SlotAt, IsCompactOf;
    forall i | 0 <= i < |txs|
      ensures SlotAt(skeleton, i).Some? ==> SlotAt(full, i) == SlotAt(skeleton, i)
      ensures SlotAt(full, i).None? ==>
                var k, m := |ShortIds(txs, Skeleton(cache, hash), shortId, i)|,
                  |ShortIds(txs, Cached(cache), shortId, i)|;
                SlotAt(skeleton, i).None? && k < |skeleton.shortIds| && m < |full.shortIds|
                  && skeleton.shortIds[k] == full.shortIds[m]
    {
      SlotIsLayout(full, header, txs, Cached(cache), shortId, i);
      SlotIsLayout(skeleton, header, txs, Skeleton(cache, hash), shortId, i);
      if !GoesInWhole(txs, Cached(cache), i) {
        SameShortId(full, skeleton, header, txs, cache, hash, shortId, i);
      }
    }
    FewerPositions(full, skeleton, header, txs, cache, hash, shortId);
  }

  lemma {:induction false} SameShortId(full: CompactBlock, skeleton: CompactBlock, header: Bytes, txs: seq<Bytes>,
                                       cache: Bytes -> Option<WtxId>, hash: Bytes -> Option<WtxId>,
                                       shortId: WtxId -> ShortId, i: nat)
    requires IsCompactOf(full, header, txs, Cached(cache), shortId)
    requires IsCompactOf(skeleton, header, txs, Skeleton(cache, hash), shortId)
    requires i < |txs| && !GoesInWhole(txs, Cached(cache), i)
    ensures var k, m := |ShortIds(txs, Skeleton(cache, hash), shortId, i)|, |ShortIds(txs, Cached(cache), shortId, i)|;
            k < |skeleton.shortIds| && m < |full.shortIds| && skeleton.shortIds[k] == full.shortIds[m]
  {
    hide Expand, Layout, Blank;
    ShortIdAt(txs, Cached(cache), shortId, |txs|, i);
    ShortIdAt(txs, Skeleton(cache, hash), shortId, |txs|, i);
  }

  lemma {:induction false} FewerPositions(full: CompactBlock, skeleton: CompactBlock, header: Bytes, txs: seq<Bytes>,
                                          cache: Bytes -> Option<WtxId>, hash: Bytes -> Option<WtxId>,
                                          shortId: WtxId -> ShortId)
    requires IsCompactOf(full, header, txs, Cached(cache), shortId)
    requires IsCompactOf(skeleton, header, txs, Skeleton(cache, hash), shortId)
    ensures forall at :: at in Positions(skeleton.prefilled) ==> at in Positions(full.prefilled)
    ensures |skeleton.prefilled| <= |full.prefilled|
  {
    DecodesToUnresolved(full, header, txs, Cached(cache), shortId);
    DecodesToUnresolved(skeleton, header, txs, Skeleton(cache, hash), shortId);
    var ps, qs := Positions(skeleton.prefilled), Positions(full.prefilled);
    forall at | at in ps ensures at in qs {
      assert at < |txs| && GoesInWhole(txs, Skeleton(cache, hash), at);
      assert GoesInWhole(txs, Cached(cache), at);
    }
    SubsequenceIsShorter(ps, qs);
  }

  lemma {:induction false} SubsequenceIsShorter(ps: seq<nat>, qs: seq<nat>)
    requires Increasing(ps) && Increasing(qs) && forall x :: x in ps ==> x in qs
    ensures |ps| <= |qs|
  {
    if ps != [] {
      var n := |ps| - 1;
      assert ps[n] in qs;
      var m :| 0 <= m < |qs| && qs[m] == ps[n];
      forall x | x in ps[..n] ensures x in qs[..m] {
        var i :| 0 <= i < n && ps[i] == x;
        assert x in qs;
        var j :| 0 <= j < |qs| && qs[j] == x;
        assert j < m;
        assert qs[..m][j] == x;
      }
      SubsequenceIsShorter(ps[..n], qs[..m]);
    }
  }
}
