/** The receiver of a compact block: it looks the short ids up among the transactions
    it knows and fills the slots that were not prefilled. */
module Reconstructor {
  import opened Common
  import opened Wire
  import opened CompactBlocks
  import Merkle

  /** The transactions a receiver holds, in the order its mempool lists them. */
  datatype Mempool = Mempool(wtxids: seq<WtxId>, data: WtxId -> Option<Bytes>)

  datatype Outcome =
    | Complete(txs: seq<Bytes>)
    | Invalid
    | InvalidBody
    | Incomplete(partial: seq<Option<Bytes>>, missing: seq<WtxId>, unresolved: seq<ShortId>)

  // ---------------------------------------------------------------------------
  // Looking short ids up

  function Count(wtxids: seq<WtxId>, shortId: WtxId -> ShortId, s: ShortId): nat {
    if wtxids == [] then 0
    else Count(wtxids[..|wtxids| - 1], shortId, s) + (if shortId(wtxids[|wtxids| - 1]) == s then 1 else 0)
  }

  /** A short id leads to a transaction exactly when one known transaction has it; two
      that collide block each other. */
  ghost predicate IsIndex(index: map<ShortId, Option<WtxId>>, wtxids: seq<WtxId>, shortId: WtxId -> ShortId) {
    forall s ::
      && (s in index <==> Count(wtxids, shortId, s) >= 1)
      && (s in index ==> (index[s].Some? <==> Count(wtxids, shortId, s) == 1))
      && (s in index && index[s].Some? ==> index[s].value in wtxids && shortId(index[s].value) == s)
  }

  method Prepare(wtxids: seq<WtxId>, shortId: WtxId -> ShortId) returns (index: map<ShortId, Option<WtxId>>)
    ensures IsIndex(index, wtxids, shortId)
  {
    index := map[];
    var i := 0;
    while i < |wtxids|
      invariant 0 <= i <= |wtxids|
      invariant IsIndex(index, wtxids[..i], shortId)
    {
      var s := shortId(wtxids[i]);
      assert wtxids[..i + 1][..i] == wtxids[..i];
      index := if s in index then index[s := None] else index[s := Some(wtxids[i])];
      i := i + 1;
    }
    assert wtxids[..|wtxids|] == wtxids;
  }

  /** The bytes a receiver finds for a short id. */
  function Answer(index: map<ShortId, Option<WtxId>>, data: WtxId -> Option<Bytes>): ShortId -> Option<Bytes> {
    s => if s in index && index[s].Some? then data(index[s].value) else None
  }

  /** A receiver that knows a transaction, with no other of the same short id, finds
      it. */
  lemma {:induction false} KnownIsFound(index: map<ShortId, Option<WtxId>>, pool: Mempool, shortId: WtxId -> ShortId,
                                        w: WtxId)
    requires IsIndex(index, pool.wtxids, shortId) && w in pool.wtxids && Count(pool.wtxids, shortId, shortId(w)) == 1
    ensures Answer(index, pool.data)(shortId(w)) == pool.data(w)
  {
    var s := shortId(w);
    OnlyOne(pool.wtxids, shortId, s, w, index[s].value);
  }

  lemma {:induction false} OnlyOne(wtxids: seq<WtxId>, shortId: WtxId -> ShortId, s: ShortId, w: WtxId, v: WtxId)
    requires w in wtxids && v in wtxids && shortId(w) == s && shortId(v) == s && Count(wtxids, shortId, s) <= 1
    ensures w == v
  {
    var n := |wtxids| - 1;
    var rest := wtxids[..n];
    assert forall x :: x in wtxids ==> x in rest || x == wtxids[n];
    if shortId(wtxids[n]) == s {
      if w in rest {
        CountSees(rest, shortId, w);
      }
      if v in rest {
        CountSees(rest, shortId, v);
      }
    } else {
      OnlyOne(rest, shortId, s, w, v);
    }
  }

  lemma {:induction false} CountSees(wtxids: seq<WtxId>, shortId: WtxId -> ShortId, w: WtxId)
    requires w in wtxids
    ensures Count(wtxids, shortId, shortId(w)) >= 1
  {
    var n := |wtxids| - 1;
    if wtxids[n] != w {
      assert w in wtxids[..n];
      CountSees(wtxids[..n], shortId, w);
    }
  }

  // ---------------------------------------------------------------------------
  // Filling the slots

  function Total(compact: CompactBlock): nat {
    |compact.shortIds| + |compact.prefilled|
  }

  /** The prefilled positions stay inside the block. */
  predicate Fits(compact: CompactBlock) {
    |Expand(compact.prefilled)| <= Total(compact)
  }

  function Slots(prefilled: seq<Prefilled>, total: nat): seq<Option<Bytes>> {
    var filled := Expand(prefilled);
    filled + Blank(if |filled| <= total then total - |filled| else 0)
  }

  function Blanks(slots: seq<Option<Bytes>>): nat {
    if slots == [] then 0
    else Blanks(slots[..|slots| - 1]) + (if slots[|slots| - 1].None? then 1 else 0)
  }

  /** Give the blank slots the answers for the short ids, in order. */
  function Fill(slots: seq<Option<Bytes>>, shortIds: seq<ShortId>,
                answer: ShortId -> Option<Bytes>): seq<Option<Bytes>> {
    if slots == [] then [] else
      var n, m := |slots| - 1, |shortIds| - 1;
      if slots[n].Some? || shortIds == [] then Fill(slots[..n], shortIds, answer) + [slots[n]]
      else Fill(slots[..n], shortIds[..m], answer) + [answer(shortIds[m])]
  }

  lemma {:induction false} BlanksJoin(a: seq<Option<Bytes>>, b: seq<Option<Bytes>>)
    ensures Blanks(a + b) == Blanks(a) + Blanks(b)
  {
    if b == [] {
      assert a + b == a;
    } else {
      var n := |b| - 1;
      assert (a + b)[..|a + b| - 1] == a + b[..n];
      BlanksJoin(a, b[..n]);
    }
  }

  lemma {:induction false} BlanksOfBlank(n: nat)
    ensures Blanks(Blank(n)) == n
  {
    if n > 0 {
      assert Blank(n)[..n - 1] == Blank(n - 1);
      BlanksOfBlank(n - 1);
    }
  }

  lemma {:induction false} BlanksOfExpand(prefilled: seq<Prefilled>)
    ensures Blanks(Expand(prefilled)) + |prefilled| == |Expand(prefilled)|
  {
    if prefilled != [] {
      var n := |prefilled| - 1;
      var earlier, last := prefilled[..n], prefilled[n];
      BlanksOfExpand(earlier);
      BlanksJoin(Expand(earlier), Blank(last.index));
      BlanksOfBlank(last.index);
      var all := Expand(earlier) + Blank(last.index);
      assert Blanks(all + [Some(last.tx)]) == Blanks(all) by {
        assert (all + [Some(last.tx)])[..|all|] == all;
      }
    }
  }

  /** In a block whose positions fit, there is one short id for every blank slot: the
      source's two checks for too few and too many short ids never fire. */
  lemma {:induction false} OneShortIdPerBlank(compact: CompactBlock)
    requires Fits(compact)
    ensures |Slots(compact.prefilled, Total(compact))| == Total(compact)
    ensures Blanks(Slots(compact.prefilled, Total(compact))) == |compact.shortIds|
  {
    var filled := Expand(compact.prefilled);
    BlanksOfExpand(compact.prefilled);
    BlanksOfBlank(Total(compact) - |filled|);
    BlanksJoin(filled, Blank(Total(compact) - |filled|));
  }

  predicate AllFilled(slots: seq<Option<Bytes>>) {
    forall i :: 0 <= i < |slots| ==> slots[i].Some?
  }

  function Values(slots: seq<Option<Bytes>>): seq<Bytes>
    requires AllFilled(slots)
  {
    seq(|slots|, i requires 0 <= i < |slots| => slots[i].value)
  }

  /** Short ids that lead nowhere, in order. */
  function Unresolved(ids: seq<ShortId>, index: map<ShortId, Option<WtxId>>): seq<ShortId> {
    if ids == [] then [] else
      var n := |ids| - 1;
      Unresolved(ids[..n], index) + (if ids[n] in index && index[ids[n]].Some? then [] else [ids[n]])
  }

  /** Transactions that were listed but whose bytes are gone, in order. */
  function Missing(ids: seq<ShortId>, index: map<ShortId, Option<WtxId>>, data: WtxId -> Option<Bytes>): seq<WtxId> {
    if ids == [] then [] else
      var n := |ids| - 1;
      Missing(ids[..n], index, data)
      + (if ids[n] in index && index[ids[n]].Some? && data(index[ids[n]].value).None?
         then [index[ids[n]].value] else [])
  }

  lemma {:induction false} ExpandGrows(prefilled: seq<Prefilled>, k: nat)
    requires k <= |prefilled|
    ensures |Expand(prefilled[..k])| <= |Expand(prefilled)|
    decreases |prefilled|
  {
    if k < |prefilled| {
      var n := |prefilled| - 1;
      ExpandGrows(prefilled[..n], k);
      assert prefilled[..n][..k] == prefilled[..k];
    } else {
      assert prefilled[..k] == prefilled;
    }
  }

  lemma {:induction false} SlotsStep(prefilled: seq<Prefilled>, k: nat, total: nat)
    requires k < |prefilled| && |Expand(prefilled[..k])| + prefilled[k].index < total
    ensures var at := |Expand(prefilled[..k])| + prefilled[k].index;
            var before := Slots(prefilled[..k], total);
            && at < |before| && before[at] == None
            && Slots(prefilled[..k + 1], total) == before[at := Some(prefilled[k].tx)]
            && |Expand(prefilled[..k + 1])| == at + 1
  {
    assert prefilled[..k + 1] == prefilled[..k] + [prefilled[k]];
    ExpandSnoc(prefilled[..k], prefilled[k]);
  }

  /** What `reconstruct` answers: refusal exactly when a position falls outside the
      block; otherwise the slots filled in order, complete if none stays blank. */
  ghost predicate IsOutcome(r: Outcome, compact: CompactBlock, index: map<ShortId, Option<WtxId>>,
                            data: WtxId -> Option<Bytes>,
                            valid: (Bytes, seq<Bytes>) -> bool) {
    if !Fits(compact) then r == Invalid else
      var filled := Fill(Slots(compact.prefilled, Total(compact)), compact.shortIds, Answer(index, data));
      if !AllFilled(filled)
      then r == Incomplete(filled, Missing(compact.shortIds, index, data), Unresolved(compact.shortIds, index))
      else if valid(compact.header, Values(filled)) then r == Complete(Values(filled))
      else r == InvalidBody
  }

  /** One slot of the second pass. */
  lemma {:induction false} FillStep(slots: seq<Option<Bytes>>, i: nat, shortIds: seq<ShortId>, j: nat,
                                    answer: ShortId -> Option<Bytes>)
    requires i < |slots| && j <= |shortIds| && Blanks(slots[..i]) == j
    ensures slots[i].Some? ==>
              Fill(slots[..i + 1], shortIds[..j], answer) == Fill(slots[..i], shortIds[..j], answer) + [slots[i]]
              && Blanks(slots[..i + 1]) == j
    ensures slots[i].None? && j < |shortIds| ==>
              Fill(slots[..i + 1], shortIds[..j + 1], answer)
              == Fill(slots[..i], shortIds[..j], answer) + [answer(shortIds[j])]
    ensures slots[i].None? ==> Blanks(slots[..i + 1]) == j + 1
  {
    assert slots[..i + 1][..i] == slots[..i];
    if j < |shortIds| {
      assert shortIds[..j + 1][..j] == shortIds[..j];
    }
  }

  lemma {:induction false} BlanksGrow(slots: seq<Option<Bytes>>, i: nat)
    requires i <= |slots|
    ensures Blanks(slots[..i]) <= Blanks(slots)
  {
    BlanksJoin(slots[..i], slots[i..]);
    assert slots[..i] + slots[i..] == slots;
  }

  method Reconstruct(compact: CompactBlock, index: map<ShortId, Option<WtxId>>, data: WtxId -> Option<Bytes>,
                     valid: (Bytes, seq<Bytes>) -> bool) returns (r: Outcome)
    ensures IsOutcome(r, compact, index, data, valid)
  {
    hide Blanks, Fill, Expand, Slots;
    var prefilled, shortIds := compact.prefilled, compact.shortIds;
    var total := Total(compact);
    var slots: seq<Option<Bytes>> := Blank(total);
    var offset, k := 0, 0;
    NothingPlaced(total);
    while k < |prefilled|
      invariant 0 <= k <= |prefilled|
      invariant offset == |Expand(prefilled[..k])| <= total
      invariant slots == Slots(prefilled[..k], total)
    {
      var position := offset + prefilled[k].index;
      if position < total {
        SlotsStep(prefilled, k, total);
        if slots[position].Some? {
          assert false;
        }
        slots := slots[position := Some(prefilled[k].tx)];
        offset := position + 1;
      } else {
        TooFar(prefilled, k, total);
        return Invalid;
      }
      k := k + 1;
    }
    assert prefilled[..k] == prefilled;
    OneShortIdPerBlank(compact);
    r := FillSlots(compact, slots, index, data, valid);
  }

  lemma {:induction false} NothingPlaced(total: nat)
    ensures Expand([]) == [] && Slots([], total) == Blank(total)
  {
  }

  lemma {:induction false} TooFar(prefilled: seq<Prefilled>, k: nat, total: nat)
    requires k < |prefilled| && |Expand(prefilled[..k])| + prefilled[k].index >= total
    ensures |Expand(prefilled)| > total
  {
    assert prefilled[..k + 1] == prefilled[..k] + [prefilled[k]];
    ExpandSnoc(prefilled[..k], prefilled[k]);
    ExpandGrows(prefilled, k + 1);
  }

  /** The second pass and the verdict. */
  method FillSlots(compact: CompactBlock, placed: seq<Option<Bytes>>, index: map<ShortId, Option<WtxId>>,
                   data: WtxId -> Option<Bytes>,
                   valid: (Bytes, seq<Bytes>) -> bool) returns (r: Outcome)
    requires Fits(compact) && placed == Slots(compact.prefilled, Total(compact)) && Blanks(placed) == |compact.shortIds|
    ensures IsOutcome(r, compact, index, data, valid)
  {
    hide Blanks, Fill, Expand, Slots;
    var shortIds := compact.shortIds;
    var answer := Answer(index, data);
    var done: seq<Option<Bytes>>, missing: seq<WtxId>, unresolved: seq<ShortId> := [], [], [];
    var i, j := 0, 0;
    NothingFilled(answer);
    while i < |placed|
      invariant 0 <= i <= |placed| && 0 <= j <= |shortIds| && Blanks(placed[..i]) == j
      invariant |done| == i && done == Fill(placed[..i], shortIds[..j], answer)
      invariant missing == Missing(shortIds[..j], index, data) && unresolved == Unresolved(shortIds[..j], index)
    {
      FillStep(placed, i, shortIds, j, answer);
      if placed[i].Some? {
        done := done + [placed[i]];
      } else {
        BlanksGrow(placed, i + 1);
        var s := shortIds[j];
        assert shortIds[..j + 1][..j] == shortIds[..j];
        if s in index && index[s].Some? {
          if data(index[s].value).None? {
            missing := missing + [index[s].value];
          }
        } else {
          unresolved := unresolved + [s];
        }
        done := done + [answer(s)];
        j := j + 1;
      }
      i := i + 1;
    }
    assert placed[..i] == placed && shortIds[..j] == shortIds;
    if AllFilled(done) {
      if valid(compact.header, Values(done)) {
        return Complete(Values(done));
      }
      return InvalidBody;
    }
    return Incomplete(done, missing, unresolved);
  }

  lemma {:induction false} NothingFilled(answer: ShortId -> Option<Bytes>)
    ensures Blanks([]) == 0 && Fill([], [], answer) == []
  {
  }

  // ---------------------------------------------------------------------------
  // What an answer names

  /** A block is refused exactly if some prefilled transaction decodes to a position past
      its end. */
  lemma {:induction false} FitsExactly(compact: CompactBlock)
    ensures Fits(compact)
            <==> forall at :: at in Positions(compact.prefilled) ==> at < Total(compact)
  {
    var prefilled := compact.prefilled;
    PositionsAreFilledSlots(prefilled);
    var ps := Positions(prefilled);
    if prefilled != [] {
      var n := |prefilled| - 1;
      assert |Expand(prefilled)| == ps[n] + 1;
      assert ps[n] in ps && forall k :: 0 <= k < n ==> ps[k] < ps[n];
    }
  }

  /** The unresolved short ids are those that no transaction, or more than one, has. */
  lemma {:induction false} UnresolvedAre(ids: seq<ShortId>, index: map<ShortId, Option<WtxId>>, s: ShortId)
    ensures s in Unresolved(ids, index) <==> s in ids && (s !in index || index[s] == None)
  {
    if ids != [] {
      var n := |ids| - 1;
      UnresolvedAre(ids[..n], index, s);
      assert s in ids <==> s in ids[..n] || s == ids[n];
    }
  }

  /** The missing transactions are those that were found, and have no bytes. */
  lemma {:induction false} MissingAre(ids: seq<ShortId>, index: map<ShortId, Option<WtxId>>,
                                      data: WtxId -> Option<Bytes>, w: WtxId)
    ensures w in Missing(ids, index, data)
            <==> data(w) == None && exists k :: 0 <= k < |ids| && ids[k] in index && index[ids[k]] == Some(w)
  {
    if ids != [] {
      var n := |ids| - 1;
      MissingAre(ids[..n], index, data, w);
      if k :| 0 <= k < |ids| && ids[k] in index && index[ids[k]] == Some(w) && k < n {
        assert ids[..n][k] == ids[k];
      }
    }
  }

  /** Every slot that stays blank is named once, as missing or as unresolved. */
  lemma {:induction false} EveryBlankIsNamed(slots: seq<Option<Bytes>>, ids: seq<ShortId>,
                                             index: map<ShortId, Option<WtxId>>, data: WtxId -> Option<Bytes>)
    requires Blanks(slots) == |ids|
    ensures Blanks(Fill(slots, ids, Answer(index, data))) == |Missing(ids, index, data)| + |Unresolved(ids, index)|
    decreases |slots|
  {
    if slots != [] {
      var n, m := |slots| - 1, |ids| - 1;
      var filled := Fill(slots, ids, Answer(index, data));
      if slots[n].Some? {
        EveryBlankIsNamed(slots[..n], ids, index, data);
        assert filled[..|filled| - 1] == Fill(slots[..n], ids, Answer(index, data));
      } else {
        EveryBlankIsNamed(slots[..n], ids[..m], index, data);
        assert filled[..|filled| - 1] == Fill(slots[..n], ids[..m], Answer(index, data));
      }
    }
  }

  // ---------------------------------------------------------------------------
  // Round trip

  function AllSlots(txs: seq<Bytes>, n: nat): seq<Option<Bytes>>
    requires n <= |txs|
  {
    if n == 0 then [] else AllSlots(txs, n - 1) + [Some(txs[n - 1])]
  }

  lemma {:induction false} AllSlotsAreFilled(txs: seq<Bytes>, n: nat)
    requires n <= |txs|
    ensures var slots := AllSlots(txs, n); |slots| == n && forall i :: 0 <= i < n ==> slots[i] == Some(txs[i])
  {
    if n > 0 {
      AllSlotsAreFilled(txs, n - 1);
    }
  }

  /** Filling the layout of a block from its own short ids restores the block, slot by
      slot, if every short id leads back to the transaction it was made from. */
  lemma {:induction false} FillRestores(txs: seq<Bytes>, resolve: Resolver, shortId: WtxId -> ShortId,
                                        answer: ShortId -> Option<Bytes>, n: nat)
    requires n <= |txs|
    requires forall i :: 0 <= i < n && !GoesInWhole(txs, resolve, i) ==>
             answer(shortId(resolve(i, txs[i]).value)) == Some(txs[i])
    ensures Fill(Layout(txs, resolve, n), ShortIds(txs, resolve, shortId, n), answer) == AllSlots(txs, n)
  {
    hide Fill, Layout;
    if n == 0 {
      NothingFilled(answer);
      LayoutSnoc(txs, resolve, 0);
    } else {
      FillRestores(txs, resolve, shortId, answer, n - 1);
      LayoutSnoc(txs, resolve, n);
      var layout, ids := Layout(txs, resolve, n - 1), ShortIds(txs, resolve, shortId, n - 1);
      FillSnoc(layout, ids, Some(txs[n - 1]), 0, answer);
      if !GoesInWhole(txs, resolve, n - 1) {
        FillSnoc(layout, ids, None, shortId(resolve(n - 1, txs[n - 1]).value), answer);
      }
    }
  }

  lemma {:induction false} LayoutSnoc(txs: seq<Bytes>, resolve: Resolver, n: nat)
    requires n <= |txs|
    ensures Layout(txs, resolve, n) ==
            if n == 0 then []
            else Layout(txs, resolve, n - 1)
                 + [if GoesInWhole(txs, resolve, n - 1) then Some(txs[n - 1]) else None]
  {
  }

  lemma {:induction false} FillSnoc(slots: seq<Option<Bytes>>, ids: seq<ShortId>, slot: Option<Bytes>, s: ShortId,
                                    answer: ShortId -> Option<Bytes>)
    ensures slot.Some? ==> Fill(slots + [slot], ids, answer) == Fill(slots, ids, answer) + [slot]
    ensures slot.None? ==> Fill(slots + [slot], ids + [s], answer) == Fill(slots, ids, answer) + [answer(s)]
  {
    assert (slots + [slot])[..|slots|] == slots;
    assert (ids + [s])[..|ids|] == ids;
  }

  /** A built block has as many slots as the block had transactions. */
  lemma {:induction false} BuiltBlockFits(compact: CompactBlock, header: Bytes, txs: seq<Bytes>, resolve: Resolver,
                                          shortId: WtxId -> ShortId)
    requires IsCompactOf(compact, header, txs, resolve, shortId)
    ensures Total(compact) == |txs| && Fits(compact)
    ensures Slots(compact.prefilled, Total(compact)) == Layout(txs, resolve, |txs|)
  {
    var filled := Expand(compact.prefilled);
    LayoutBlanks(txs, resolve, shortId, |txs|);
    BlanksOfExpand(compact.prefilled);
    BlanksOfBlank(|txs| - |filled|);
    BlanksJoin(filled, Blank(|txs| - |filled|));
  }

  lemma {:induction false} LayoutBlanks(txs: seq<Bytes>, resolve: Resolver, shortId: WtxId -> ShortId, n: nat)
    requires n <= |txs|
    ensures Blanks(Layout(txs, resolve, n)) == |ShortIds(txs, resolve, shortId, n)|
  {
    if n > 0 {
      LayoutBlanks(txs, resolve, shortId, n - 1);
      assert Layout(txs, resolve, n)[..n - 1] == Layout(txs, resolve, n - 1);
    }
  }

  /** Whatever was resolved, a receiver that knows every transaction behind a short id,
      with the same bytes and no collision, gets back exactly the block. */
  lemma {:induction false} RoundTrip(compact: CompactBlock, header: Bytes, txs: seq<Bytes>, resolve: Resolver,
                                     shortId: WtxId -> ShortId,
                                     pool: Mempool, index: map<ShortId, Option<WtxId>>,
                                     valid: (Bytes, seq<Bytes>) -> bool, r: Outcome)
    requires IsCompactOf(compact, header, txs, resolve, shortId) && IsIndex(index, pool.wtxids, shortId)
    requires forall i :: 0 <= i < |txs| && !GoesInWhole(txs, resolve, i) ==>
               var w := resolve(i, txs[i]).value;
               w in pool.wtxids && pool.data(w) == Some(txs[i]) && Count(pool.wtxids, shortId, shortId(w)) == 1
    requires IsOutcome(r, compact, index, pool.data, valid)
    ensures r == if valid(header, txs) then Complete(txs) else InvalidBody
  {
    var answer := Answer(index, pool.data);
    forall i | 0 <= i < |txs| && !GoesInWhole(txs, resolve, i)
      ensures answer(shortId(resolve(i, txs[i]).value)) == Some(txs[i])
    {
      KnownIsFound(index, pool, shortId, resolve(i, txs[i]).value);
    }
    BuiltBlockFits(compact, header, txs, resolve, shortId);
    FillRestores(txs, resolve, shortId, answer, |txs|);
    AllSlotsAreFilled(txs, |txs|);
    var filled := Fill(Slots(compact.prefilled, Total(compact)), compact.shortIds, answer);
    assert AllFilled(filled) && Values(filled) == txs;
  }

  /** For any receiver, short ids that collide and stale transactions included: if the
      body check is part of `valid`, a block it completes has the sender's transaction ids
      in the sender's order, or the two bodies give a collision of the pair hash away. */
  lemma {:induction false} CompleteIsCommitted(r: Outcome, compact: CompactBlock, index: map<ShortId, Option<WtxId>>,
                                               data: WtxId -> Option<Bytes>, valid: (Bytes, seq<Bytes>) -> bool,
                                               sent: seq<Bytes>, read: Merkle.Reader, pair: Merkle.PairHash,
                                               digest: Bytes -> Hash)
    returns (w: Option<Merkle.Collision>)
    requires forall header, txs :: valid(header, txs) ==> Merkle.Matches(header, txs, read, pair, digest)
    requires Merkle.Matches(compact.header, sent, read, pair, digest)
    requires IsOutcome(r, compact, index, data, valid) && r.Complete?
    ensures Merkle.AllExact(read, r.txs)
    ensures var ids, sentIds := Merkle.Txids(read, r.txs), Merkle.Txids(read, sent);
            if w.None? then ids == sentIds
            else Merkle.IsCollision(pair, (set x | x in ids) + (set y | y in sentIds), w.value)
  {
    hide Fill, Slots, Expand, Merkle.Eval, Merkle.Top;
    assert valid(compact.header, r.txs);
    w := Merkle.HeaderCommitsToBody(compact.header, r.txs, sent, read, pair, digest);
  }
}
