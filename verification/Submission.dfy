/** The way out: the ingress turns a raw block into a compact one, and the sidecar turns
    a compact block whose transactions are all prefilled into the bytes it submits. */
module Submission {
  import opened Common
  import opened Wire
  import opened TxLayout
  import opened BlockParser
  import opened CompactBlocks
  import Reconstructor
  import Merkle
  import BlockBody

  datatype Refusal =
    | MissingTransactions(shortIds: nat)
    | EmptyTransactions
    | TooManyTransactions(count: nat)
    | NonContiguous(expected: nat, actual: nat)
    | InvalidBlockBody(error: Merkle.BodyError)

  datatype Built = Candidate(block: Bytes, txCount: nat) | Refused(why: Refusal)

  /** The readers and the hashes that the body checks use. */
  type Checks = BlockBody.Checks

  ghost predicate Matches(checks: Checks, header: Bytes, txs: seq<Bytes>) {
    Merkle.Matches(header, txs, checks.read, checks.pair, checks.digest)
  }

  function Concat(txs: seq<Bytes>): Bytes {
    if txs == [] then [] else Concat(txs[..|txs| - 1]) + txs[|txs| - 1]
  }

  function TxsOf(prefilled: seq<Prefilled>): seq<Bytes> {
    seq(|prefilled|, i requires 0 <= i < |prefilled| => prefilled[i].tx)
  }

  /** A serialized block: header, minimal count, transactions. */
  function Serialized(header: Bytes, txs: seq<Bytes>): Bytes {
    header + EncodeCompact(Minimal(|txs|)) + Concat(txs)
  }

  method Serialize(header: Bytes, txs: seq<Bytes>) returns (block: Bytes)
    ensures block == Serialized(header, txs)
  {
    block := header + EncodeCompact(Minimal(|txs|));
    var i := 0;
    while i < |txs|
      invariant 0 <= i <= |txs|
      invariant block == header + EncodeCompact(Minimal(|txs|)) + Concat(txs[..i])
    {
      assert txs[..i + 1][..i] == txs[..i];
      block := block + txs[i];
      i := i + 1;
    }
    assert txs[..i] == txs;
  }

  ghost predicate Contiguous(prefilled: seq<Prefilled>) {
    forall k :: 0 <= k < |prefilled| ==> prefilled[k].index == 0
  }

  /** The first transaction whose index is not zero is number `k`. */
  ghost predicate FirstGap(prefilled: seq<Prefilled>, k: nat) {
    k < |prefilled| && prefilled[k].index != 0 && Contiguous(prefilled[..k])
  }

  /** `build_submission_candidate`. It accepts exactly the all-prefilled blocks of 1 to
      65,536 transactions whose differential indices are all zero and whose body
      validates, and each refusal names its cause. */
  method BuildSubmissionCandidate(compact: CompactBlock, checks: Checks) returns (r: Built)
    ensures r.Candidate?
            <==> && compact.shortIds == [] && 1 <= |compact.prefilled| <= U16_MAX + 1 && Contiguous(compact.prefilled)
                 && Matches(checks, compact.header, TxsOf(compact.prefilled))
    ensures r.Candidate? ==> r == Candidate(Serialized(compact.header, TxsOf(compact.prefilled)), |compact.prefilled|)
    ensures compact.shortIds != [] ==> r == Refused(MissingTransactions(|compact.shortIds|))
    ensures compact.shortIds == [] && compact.prefilled == [] ==> r == Refused(EmptyTransactions)
    ensures compact.shortIds == [] ==> forall k: nat :: FirstGap(compact.prefilled, k) ==>
              var position := k + compact.prefilled[k].index;
              r == Refused(if position <= U16_MAX then NonContiguous(k, position)
                           else TooManyTransactions(|compact.prefilled|))
    ensures compact.shortIds == [] && Contiguous(compact.prefilled) && |compact.prefilled| > U16_MAX + 1 ==>
              r == Refused(TooManyTransactions(|compact.prefilled|))
    ensures compact.shortIds == [] && 1 <= |compact.prefilled| <= U16_MAX + 1 && Contiguous(compact.prefilled) ==>
              r.Candidate? || r.why.InvalidBlockBody?
  {
    hide Serialized, Merkle.Matches;
    if compact.shortIds != [] {
      return Refused(MissingTransactions(|compact.shortIds|));
    }
    var txs := compact.prefilled;
    if txs == [] {
      return Refused(EmptyTransactions);
    }
    var nextPosition, expected := 0, 0;
    while expected < |txs|
      invariant 0 <= expected == nextPosition <= |txs| && expected <= U16_MAX + 1
      invariant Contiguous(txs[..expected])
    {
      assert forall k :: 0 <= k < expected ==> txs[k] == txs[..expected][k];
      if expected > U16_MAX {
        return Refused(TooManyTransactions(|txs|));
      }
      var position := nextPosition + txs[expected].index;
      assert txs[expected].index != 0 ==> FirstGap(txs, expected);
      assert forall k: nat :: FirstGap(txs, k) && k > expected ==> txs[expected] == txs[..k][expected];
      if position > U16_MAX {
        return Refused(TooManyTransactions(|txs|));
      }
      if position != expected {
        return Refused(NonContiguous(expected, position));
      }
      nextPosition, expected := position + 1, expected + 1;
    }
    assert txs[..expected] == txs;
    var body := Merkle.ValidateBlockTransactions(compact.header, TxsOf(txs), checks.read, checks.pair, checks.digest);
    if body.Bad? {
      return Refused(InvalidBlockBody(body.error));
    }
    var block := Serialize(compact.header, TxsOf(txs));
    return Candidate(block, body.count);
  }

  // ---------------------------------------------------------------------------
  // From the builder to the candidate

  /** The ingress resolver of a block that is sent whole: it resolves nothing. */
  function Nothing(): Resolver {
    (i, tx) => None
  }

  lemma {:induction false} NoBlankInside(slots: seq<Option<Bytes>>, n: nat, last: Option<Bytes>)
    requires Reconstructor.AllFilled(slots + Blank(n) + [last])
    ensures n == 0
  {
    assert (slots + Blank(n) + [last])[|slots|] == if n > 0 then None else last;
  }

  /** Slots without a blank are prefilled with zero indices only. */
  lemma {:induction false} NoBlankIsContiguous(prefilled: seq<Prefilled>)
    requires Reconstructor.AllFilled(Expand(prefilled))
    ensures Contiguous(prefilled) && Expand(prefilled) == Reconstructor.AllSlots(TxsOf(prefilled), |prefilled|)
  {
    if prefilled != [] {
      var n := |prefilled| - 1;
      var earlier, last := prefilled[..n], prefilled[n];
      var slots := Expand(prefilled);
      assert forall i :: 0 <= i < |Expand(earlier)| ==> slots[i] == Expand(earlier)[i];
      NoBlankInside(Expand(earlier), last.index, Some(last.tx));
      NoBlankIsContiguous(earlier);
      SameSlots(TxsOf(earlier), TxsOf(prefilled), n);
      forall k | 0 <= k < |prefilled| ensures prefilled[k].index == 0 {
        assert k < n ==> earlier[k] == prefilled[k];
      }
    }
  }

  lemma {:induction false} SameSlots(a: seq<Bytes>, b: seq<Bytes>, n: nat)
    requires n <= |a| && n <= |b| && a[..n] == b[..n]
    ensures Reconstructor.AllSlots(a, n) == Reconstructor.AllSlots(b, n)
  {
    if n > 0 {
      assert a[n - 1] == a[..n][n - 1] == b[n - 1] && a[..n - 1] == a[..n][..n - 1] == b[..n - 1];
      SameSlots(a, b, n - 1);
    }
  }

  /** A block built with nothing resolved carries no short ids, only zero indices, and
      its transactions in order. */
  lemma {:induction false} WholeBlockIsContiguous(compact: CompactBlock, header: Bytes, txs: seq<Bytes>,
                                                  shortId: WtxId -> ShortId)
    requires IsCompactOf(compact, header, txs, Nothing(), shortId)
    ensures compact.shortIds == [] && Contiguous(compact.prefilled) && TxsOf(compact.prefilled) == txs
  {
    var slots, layout := Expand(compact.prefilled), Layout(txs, Nothing(), |txs|);
    var padded := slots + Blank(|txs| - |slots|);
    assert padded == layout;
    assert Reconstructor.AllFilled(padded + [Some([])]);
    NoBlankInside(slots, |txs| - |slots|, Some([]));
    assert slots == layout;
    NoShortIds(txs, shortId, |txs|);
    NoBlankIsContiguous(compact.prefilled);
    Reconstructor.AllSlotsAreFilled(TxsOf(compact.prefilled), |compact.prefilled|);
    forall i | 0 <= i < |txs| ensures TxsOf(compact.prefilled)[i] == txs[i] {
      assert layout[i] == Some(txs[i]) && slots[i] == Some(compact.prefilled[i].tx);
    }
  }

  lemma {:induction false} NoShortIds(txs: seq<Bytes>, shortId: WtxId -> ShortId, n: nat)
    requires n <= |txs|
    ensures ShortIds(txs, Nothing(), shortId, n) == []
  {
    if n > 0 {
      NoShortIds(txs, shortId, n - 1);
    }
  }

  /** End to end: builder, then candidate, yields the serialized block, for every
      validated list of 1 to 65,536 transactions. */
  method SubmitWhole(header: Bytes, txs: seq<Bytes>, shortId: WtxId -> ShortId, checks: Checks) returns (r: Built)
    requires 1 <= |txs| <= U16_MAX + 1 && Matches(checks, header, txs)
    ensures r == Candidate(Serialized(header, txs), |txs|)
  {
    var compact := Build(header, txs, Nothing(), shortId);
    WholeBlockIsContiguous(compact.value, header, txs, shortId);
    r := BuildSubmissionCandidate(compact.value, checks);
  }

  // ---------------------------------------------------------------------------
  // Raw blocks

  function EncodeEach(txs: seq<Tx>): seq<Bytes> {
    if txs == [] then [] else [EncodeTx(txs[0])] + EncodeEach(txs[1..])
  }

  function Slices(payload: Bytes, ranges: seq<Range>): seq<Bytes>
    requires forall i :: 0 <= i < |ranges| ==> ranges[i].start <= ranges[i].end <= |payload|
  {
    seq(|ranges|, i requires 0 <= i < |ranges| => payload[ranges[i].start..ranges[i].end])
  }

  lemma {:induction false} RangesSlice(payload: Bytes, c: nat, txs: seq<Tx>)
    requires At(payload, c, EncodeTxs(txs))
    ensures var ranges := Ranges(c, txs);
            && (forall i :: 0 <= i < |ranges| ==> ranges[i].start <= ranges[i].end <= |payload|)
            && Slices(payload, ranges) == EncodeEach(txs)
            && |EncodeEach(txs)| == |txs|
    decreases |txs|
  {
    hide EncodeTx;
    if txs != [] {
      var c1 := c + |EncodeTx(txs[0])|;
      AtJoin(payload, c, EncodeTx(txs[0]), EncodeTxs(txs[1..]));
      RangesSlice(payload, c1, txs[1..]);
      var ranges, rest := Ranges(c, txs), Ranges(c1, txs[1..]);
      assert forall i :: 0 < i < |ranges| ==> ranges[i] == rest[i - 1];
      assert Slices(payload, ranges) == [EncodeTx(txs[0])] + Slices(payload, rest);
    }
  }

  lemma {:induction false} ConcatCons(x: Bytes, xs: seq<Bytes>)
    ensures Concat([x] + xs) == x + Concat(xs)
  {
    if xs == [] {
      assert [x] + xs == [x];
      assert Concat([x]) == Concat([]) + x;
    } else {
      var n := |xs| - 1;
      assert ([x] + xs)[..n + 1] == [x] + xs[..n];
      ConcatCons(x, xs[..n]);
      assert x + Concat(xs[..n]) + xs[n] == x + (Concat(xs[..n]) + xs[n]);
    }
  }

  lemma {:induction false} ConcatEncoded(txs: seq<Tx>)
    ensures Concat(EncodeEach(txs)) == EncodeTxs(txs)
  {
    hide EncodeTx;
    if txs != [] {
      ConcatEncoded(txs[1..]);
      ConcatCons(EncodeTx(txs[0]), EncodeEach(txs[1..]));
    }
  }

  /** `compact_block_from_block_parser`: it succeeds on exactly the blocks, and then it
      is the compact form of the block's transactions. */
  method CompactFromRawBlock(payload: Bytes, resolve: Resolver, shortId: WtxId -> ShortId)
    returns (r: Option<CompactBlock>)
    requires |payload| <= USIZE_MAX
    ensures r.Some? <==> exists count, txs :: IsBlock(payload, count, txs)
    ensures forall count, txs :: IsBlock(payload, count, txs) ==>
              r.Some? && IsCompactOf(r.value, payload[..ZCASH_FULL_HEADER_SIZE], EncodeEach(txs), resolve, shortId)
  {
    hide IsBlock, IsCompactOf, EncodeCompact, Ranges, EncodeEach;
    var boundaries, passed, slots := TransactionBoundaries(payload);
    if boundaries.None? {
      return None;
    }
    forall count, txs | IsBlock(payload, count, txs)
      ensures |payload| >= ZCASH_FULL_HEADER_SIZE
      ensures forall i :: 0 <= i < |boundaries.value| ==>
              boundaries.value[i].start <= boundaries.value[i].end <= |payload|
      ensures Slices(payload, boundaries.value) == EncodeEach(txs) && |EncodeEach(txs)| <= MAX_TRANSACTIONS
    {
      BlockSlices(payload, count, txs);
    }
    r := Build(payload[..ZCASH_FULL_HEADER_SIZE], Slices(payload, boundaries.value), resolve, shortId);
  }

  lemma {:induction false} BlockSlices(payload: Bytes, count: Compact, txs: seq<Tx>)
    requires IsBlock(payload, count, txs)
    ensures |payload| >= ZCASH_FULL_HEADER_SIZE && 1 <= |EncodeEach(txs)| == |txs| <= MAX_TRANSACTIONS
    ensures var ranges := Ranges(ZCASH_FULL_HEADER_SIZE + |EncodeCompact(count)|, txs);
            && (forall i :: 0 <= i < |ranges| ==> ranges[i].start <= ranges[i].end <= |payload|)
            && Slices(payload, ranges) == EncodeEach(txs)
  {
    hide EncodeCompact, EncodeTxs, Ranges, EncodeEach;
    BlockParts(payload, count, txs);
    RangesSlice(payload, ZCASH_FULL_HEADER_SIZE + |EncodeCompact(count)|, txs);
  }

  lemma {:induction false} SameRest(payload: Bytes, c: nat, rest: Bytes)
    requires c <= |payload|
    ensures payload[..c] + rest == payload <==> rest == payload[c..]
  {
    assert payload == payload[..c] + payload[c..];
    assert (payload[..c] + rest)[c..] == rest;
  }

  /** Taken apart and serialized again, a raw block comes back byte for byte exactly
      when its transaction count was written in the shortest CompactSize. The parser
      accepts longer ones, and those come back changed. */
  lemma {:induction false} SerializedIsPayload(payload: Bytes, count: Compact, txs: seq<Tx>)
    requires IsBlock(payload, count, txs)
    ensures Serialized(payload[..ZCASH_FULL_HEADER_SIZE], EncodeEach(txs)) == payload <==> count == Minimal(count.value)
  {
    hide EncodeCompact, EncodeTxs, EncodeEach, ReadCompact, ReadTxs, Concat, Ranges, AreTxs;
    BlockSlices(payload, count, txs);
    ConcatEncoded(txs);
    var c := ZCASH_FULL_HEADER_SIZE;
    var minimal := Minimal(count.value);
    var again := Serialized(payload[..c], EncodeEach(txs));
    assert again == payload[..c] + (EncodeCompact(minimal) + EncodeTxs(txs));
    SameRest(payload, c, EncodeCompact(minimal) + EncodeTxs(txs));
    if again == payload {
      Widths();
      MinimalIsCompact(count.value);
      BlockIsUnique(payload, count, txs);
      BlockIsUnique(payload, minimal, txs);
    }
  }

  /** The structural parser is no check of canonical form: for every block it accepts and
      every other width that can hold its count, it also accepts another payload of the same
      header and transactions. The strict reader below refuses those. */
  lemma {:induction false} WiderCountIsAccepted(payload: Bytes, count: Compact, txs: seq<Tx>, wider: Compact)
    requires IsBlock(payload, count, txs) && IsCompact(wider) && wider.value == count.value && wider != count
    ensures var other := payload[..ZCASH_FULL_HEADER_SIZE] + (EncodeCompact(wider) + EncodeTxs(txs));
            IsBlock(other, wider, txs) && other != payload
              && other[..ZCASH_FULL_HEADER_SIZE] == payload[..ZCASH_FULL_HEADER_SIZE]
  {
    hide EncodeCompact, EncodeTxs, ReadCompact, ReadTxs, AreTxs;
    var c := ZCASH_FULL_HEADER_SIZE;
    var other := payload[..c] + (EncodeCompact(wider) + EncodeTxs(txs));
    assert other[c..] == EncodeCompact(wider) + EncodeTxs(txs) && other[..c] == payload[..c];
    BlockIsUnique(payload, count, txs);
    BlockIsUnique(other, wider, txs);
  }

  // ---------------------------------------------------------------------------
  // What the strict reader accepts is what is submitted

  lemma {:induction false} ConcatSnoc(xs: seq<Bytes>, x: Bytes)
    ensures Concat(xs + [x]) == Concat(xs) + x && Merkle.Total(xs + [x]) == Merkle.Total(xs) + |x|
  {
    assert (xs + [x])[..|xs|] == xs;
  }

  /** What the strict reader cuts out of `body` from `c` on. */
  function CutOut(body: Bytes, c: nat, txs: seq<Merkle.Parsed>): seq<Bytes>
    requires c + BlockBody.Sum(txs) <= |body|
  {
    if txs == [] then [] else
      var n := |txs| - 1;
      CutOut(body, c, txs[..n]) + [body[c + BlockBody.Sum(txs[..n])..c + BlockBody.Sum(txs)]]
  }

  lemma {:induction false} CutsAreCutOut(raw: Bytes, c: nat, txs: seq<Merkle.Parsed>)
    requires ZCASH_FULL_HEADER_SIZE + c + BlockBody.Sum(txs) <= |raw|
    ensures var ranges := BlockBody.Cuts(ZCASH_FULL_HEADER_SIZE + c, txs);
            && (forall i :: 0 <= i < |ranges| ==> ranges[i].start <= ranges[i].end <= |raw|)
            && Slices(raw, ranges) == CutOut(raw[ZCASH_FULL_HEADER_SIZE..], c, txs)
            && |ranges| == |txs|
    decreases |txs|
  {
    if txs != [] {
      var n := |txs| - 1;
      CutsAreCutOut(raw, c, txs[..n]);
      var ranges := BlockBody.Cuts(ZCASH_FULL_HEADER_SIZE + c, txs[..n]);
      var from, to := c + BlockBody.Sum(txs[..n]), c + BlockBody.Sum(txs);
      var last := Range(ZCASH_FULL_HEADER_SIZE + from, ZCASH_FULL_HEADER_SIZE + to);
      assert raw[last.start..last.end] == raw[ZCASH_FULL_HEADER_SIZE..][from..to];
      SlicesSnoc(raw, ranges, last);
    }
  }

  lemma {:induction false} SlicesSnoc(raw: Bytes, ranges: seq<Range>, last: Range)
    requires forall i :: 0 <= i < |ranges| ==> ranges[i].start <= ranges[i].end <= |raw|
    requires last.start <= last.end <= |raw|
    ensures Slices(raw, ranges + [last]) == Slices(raw, ranges) + [raw[last.start..last.end]]
  {
  }

  /** They are exactly one transaction each, with the ids that were read, and together
      they are the bytes that were read. */
  lemma {:induction false} CutOutIsExact(body: Bytes, read: Merkle.Reader, c: nat, n: nat)
    requires BlockBody.Sequential(read) && c <= |body| && BlockBody.ReadMany(read, body, c, n).Ok?
    ensures var all := BlockBody.ReadMany(read, body, c, n);
            && |all.value| == n && all.next == c + BlockBody.Sum(all.value) <= |body|
            && var slices := CutOut(body, c, all.value);
            && |slices| == n && Merkle.AllExact(read, slices)
              && Merkle.Txids(read, slices) == BlockBody.IdsOf(all.value)
            && Concat(slices) == body[c..all.next] && Merkle.Total(slices) == all.next - c
    decreases n
  {
    hide Concat, Merkle.Total;
    BlockBody.ManyAdvances(read, body, c, n);
    if n == 0 {
      NothingCut();
    } else {
      CutOutIsExact(body, read, c, n - 1);
      var before, all := BlockBody.ReadMany(read, body, c, n - 1), BlockBody.ReadMany(read, body, c, n);
      var tx := all.value[n - 1];
      assert all.value[..n - 1] == before.value;
      assert BlockBody.ReadsFront(read, body[before.next..]);
      var slice := body[before.next..all.next];
      assert slice == body[before.next..][..tx.consumed];
      ConcatSnoc(CutOut(body, c, before.value), slice);
      TxidsSnoc(read, CutOut(body, c, before.value), slice, before.value, tx);
      assert all.value == before.value + [tx];
      assert body[c..all.next] == body[c..before.next] + slice;
    }
  }

  lemma {:induction false} TxidsSnoc(read: Merkle.Reader, slices: seq<Bytes>, slice: Bytes, txs: seq<Merkle.Parsed>,
                                     tx: Merkle.Parsed)
    requires Merkle.AllExact(read, slices) && Merkle.Exact(read, slice) && read(slice) == Some(tx)
    requires Merkle.Txids(read, slices) == BlockBody.IdsOf(txs)
    ensures Merkle.AllExact(read, slices + [slice])
    ensures Merkle.Txids(read, slices + [slice]) == BlockBody.IdsOf(txs + [tx])
  {
    assert Merkle.Txids(read, slices + [slice]) == Merkle.Txids(read, slices) + [tx.id];
    assert BlockBody.IdsOf(txs + [tx]) == BlockBody.IdsOf(txs) + [tx.id];
  }

  lemma {:induction false} NothingCut()
    ensures Concat([]) == [] && Merkle.Total([]) == 0
  {
  }

  /** A body the strict reader accepted passes the sidecar's check of its slices, and
      serializing them gives the received bytes. */
  lemma {:induction false} AcceptedComesBack(raw: Bytes, checks: Checks)
    requires BlockBody.Canonical(checks.readCount) && BlockBody.Sequential(checks.read)
             && BlockBody.Accepted(raw, checks)
    ensures var body := raw[ZCASH_FULL_HEADER_SIZE..];
            var count := checks.readCount(body).value;
            var all := BlockBody.ReadMany(checks.read, body, count.consumed, count.value);
            && all.Ok? && count.consumed + BlockBody.Sum(all.value) <= |body|
            && var slices := CutOut(body, count.consumed, all.value);
            && |slices| == count.value && Matches(checks, raw[..ZCASH_FULL_HEADER_SIZE], slices)
            && Serialized(raw[..ZCASH_FULL_HEADER_SIZE], slices) == raw
  {
    hide Concat, Merkle.Total, EncodeCompact, Merkle.Eval, Merkle.Top, Merkle.Leaves, Distinct, BlockBody.ReadMany,
         CutOut, BlockBody.Sequential, Merkle.AllExact;
    var h := ZCASH_FULL_HEADER_SIZE;
    var body := raw[h..];
    var count := checks.readCount(body).value;
    assert BlockBody.TakesShortest(checks.readCount, body);
    var all := BlockBody.ReadMany(checks.read, body, count.consumed, count.value);
    CutOutIsExact(body, checks.read, count.consumed, count.value);
    var slices := CutOut(body, count.consumed, all.value);
    assert body == body[..count.consumed] + body[count.consumed..all.next];
    SameRest(raw, h, EncodeCompact(Minimal(|slices|)) + Concat(slices));
    assert Serialized(raw[..h], slices) == raw[..h] + (EncodeCompact(Minimal(|slices|)) + Concat(slices));
  }

  /** `parse_block_body`, `compact_block_from_parsed` and `build_submission_candidate`, one
      after the other: every body the strict reader accepts, of up to 65,536 transactions,
      is submitted byte for byte as it was received, and nothing else is. */
  method RelayParsed(raw: Bytes, shortId: WtxId -> ShortId, checks: Checks) returns (r: Option<Built>)
    requires BlockBody.Canonical(checks.readCount) && BlockBody.Sequential(checks.read)
    ensures BlockBody.Accepted(raw, checks)
            && checks.readCount(raw[ZCASH_FULL_HEADER_SIZE..]).value.value <= U16_MAX + 1 ==>
              r == Some(Candidate(raw, checks.readCount(raw[ZCASH_FULL_HEADER_SIZE..]).value.value))
    ensures r.Some? ==> BlockBody.Accepted(raw, checks)
    ensures BlockBody.Accepted(raw, checks) && r.None? ==>
            checks.readCount(raw[ZCASH_FULL_HEADER_SIZE..]).value.value > U16_MAX + 1
  {
    hide Serialized, Matches, BlockBody.Cuts, IsCompactOf, Contiguous, CutOut, BlockBody.Accepted, BlockBody.ReadMany;
    var parsed := BlockBody.ReadChecked(raw, checks);
    if parsed.Refused? {
      return None;
    }
    AcceptedComesBack(raw, checks);
    BlockBody.AcceptedSize(raw, checks);
    CutsOfAccepted(raw, checks);
    var slices := Slices(raw, parsed.boundaries);
    var compact := Build(raw[..ZCASH_FULL_HEADER_SIZE], slices, Nothing(), shortId);
    if compact.None? {
      return None;
    }
    WholeBlockIsContiguous(compact.value, raw[..ZCASH_FULL_HEADER_SIZE], slices, shortId);
    SameHeader(compact.value, raw[..ZCASH_FULL_HEADER_SIZE], slices, shortId);
    var built := BuildSubmissionCandidate(compact.value, checks);
    return Some(built);
  }

  lemma {:induction false} CutsOfAccepted(raw: Bytes, checks: Checks)
    requires BlockBody.Canonical(checks.readCount) && BlockBody.Sequential(checks.read)
             && BlockBody.Accepted(raw, checks)
    ensures var body := raw[ZCASH_FULL_HEADER_SIZE..];
            var count := checks.readCount(body).value;
            var all := BlockBody.ReadMany(checks.read, body, count.consumed, count.value);
            var ranges := BlockBody.Cuts(ZCASH_FULL_HEADER_SIZE + count.consumed, all.value);
            && count.consumed + BlockBody.Sum(all.value) <= |body|
            && (forall i :: 0 <= i < |ranges| ==> ranges[i].start <= ranges[i].end <= |raw|)
            && Slices(raw, ranges) == CutOut(body, count.consumed, all.value)
  {
    hide CutOut, BlockBody.ReadMany, Merkle.Eval, Merkle.Top, Merkle.Leaves, EncodeCompact, BlockBody.Cuts;
    var body := raw[ZCASH_FULL_HEADER_SIZE..];
    var count := checks.readCount(body).value;
    assert BlockBody.TakesShortest(checks.readCount, body);
    BlockBody.ManyAdvances(checks.read, body, count.consumed, count.value);
    CutsAreCutOut(raw, count.consumed, BlockBody.ReadMany(checks.read, body, count.consumed, count.value).value);
  }

  lemma {:induction false} SameHeader(compact: CompactBlock, header: Bytes, txs: seq<Bytes>, shortId: WtxId -> ShortId)
    requires IsCompactOf(compact, header, txs, Nothing(), shortId) && TxsOf(compact.prefilled) == txs
    ensures compact.header == header && |compact.prefilled| == |txs|
  {
  }
}
