/** The block parser: a cursor that walks over a payload, skipping one field after
    another. Each method is proved to stop exactly where the layout says. */
module BlockParser {
  import opened Common
  import opened Wire
  import opened TxLayout

  const USIZE_MAX := 0xffff_ffff_ffff_ffff
  const MAX_TRANSACTIONS := 0xffff + 1

  // ---------------------------------------------------------------------------
  // Fields

  method SkipBytes(payload: Bytes, cursor: nat, len: nat) returns (r: Option<nat>)
    requires cursor <= |payload| <= USIZE_MAX
    ensures r == Take(payload, cursor, len).Next()
    ensures r.Some? ==> r.value == cursor + len <= |payload|
  {
    if cursor + len > USIZE_MAX {
      return None;
    }
    var end := cursor + len;
    if end > |payload| {
      return None;
    }
    return Some(end);
  }

  method SkipFixedItems(payload: Bytes, cursor: nat, count: nat, size: nat) returns (r: Option<nat>)
    requires cursor <= |payload| <= USIZE_MAX
    ensures r == Take(payload, cursor, count * size).Next()
    ensures r.Some? ==> cursor <= r.value <= |payload|
  {
    var bytes := count * size;
    if bytes > USIZE_MAX {
      return None;
    }
    r := SkipBytes(payload, cursor, bytes);
  }

  method ReadWord(payload: Bytes, cursor: nat, n: nat) returns (r: Read<nat>)
    requires cursor <= |payload| <= USIZE_MAX
    ensures r == ReadLE(payload, cursor, n)
    ensures r.Ok? ==> r.next == cursor + n <= |payload|
  {
    var end := SkipBytes(payload, cursor, n);
    if end.None? {
      return Fail;
    }
    return Ok(FromLE(payload[cursor..end.value]), end.value);
  }

  /** `decode_compact_size`: accepts a value in any width that can hold it. */
  method DecodeCompactSize(payload: Bytes, cursor: nat) returns (r: Read<nat>)
    requires cursor <= |payload| <= USIZE_MAX
    ensures r.Fail? <==> ReadCompact(payload, cursor).Fail?
    ensures r.Ok? ==> r.value == ReadCompact(payload, cursor).value.value && r.next == ReadCompact(payload, cursor).next
    ensures r.Ok? ==> cursor < r.next <= |payload|
  {
    if cursor >= |payload| {
      return Fail;
    }
    var first := payload[cursor];
    if first <= 252 {
      return Ok(first, cursor + 1);
    } else if first == 0xfd {
      r := ReadWord(payload, cursor + 1, 2);
    } else if first == 0xfe {
      r := ReadWord(payload, cursor + 1, 4);
    } else {
      r := ReadWord(payload, cursor + 1, 8);
    }
  }

  /** A count and that many items of a fixed size; the count is kept. */
  method SkipCounted(payload: Bytes, cursor: nat, size: nat) returns (r: Read<nat>)
    requires cursor <= |payload| <= USIZE_MAX
    ensures r.Next() == ReadItems(payload, cursor, size).Next()
    ensures r.Ok? ==> r.value == ReadItems(payload, cursor, size).value.count.value && cursor < r.next <= |payload|
  {
    var count := DecodeCompactSize(payload, cursor);
    if count.Fail? {
      return Fail;
    }
    var end := SkipFixedItems(payload, count.next, count.value, size);
    if end.None? {
      return Fail;
    }
    return Ok(count.value, end.value);
  }

  /** `skip_transparent_inputs` and `skip_transparent_outputs`, which differ only in
      the bytes around each script. `done` counts completed iterations: whatever count is
      declared, and whether or not the list is accepted, each has consumed its bytes. */
  method SkipSlots(payload: Bytes, cursor: nat, shape: Shape) returns (r: Option<nat>, ghost done: nat)
    requires cursor <= |payload| <= USIZE_MAX
    ensures r == ReadSlotList(payload, cursor, shape).Next()
    ensures cursor + done * Smallest(shape) <= |payload|
    ensures r.Some? ==> cursor + 1 + done * Smallest(shape) <= r.value <= |payload|
  {
    hide ReadItems, ReadCompact;
    done := 0;
    var count := DecodeCompactSize(payload, cursor);
    if count.Fail? {
      return None, done;
    }
    var at: nat, i := count.next, 0;
    while i < count.value
      invariant 0 <= i == done <= count.value && at <= |payload|
      invariant count.next + done * Smallest(shape) <= at
      invariant ReadSlots(payload, count.next, shape, count.value).Next()
                == ReadSlots(payload, at, shape, count.value - i).Next()
      decreases count.value - i
    {
      var head := SkipBytes(payload, at, shape.head);
      if head.None? {
        return None, done;
      }
      var script := SkipCounted(payload, head.value, 1);
      if script.Fail? {
        return None, done;
      }
      var tail := SkipBytes(payload, script.next, shape.tail);
      if tail.None? {
        return None, done;
      }
      OneMore(done, Smallest(shape));
      at := tail.value;
      i := i + 1;
      done := done + 1;
    }
    return Some(at), done;
  }

  /** The fewest bytes an item of this shape takes: an empty script has a one-byte length. */
  function Smallest(shape: Shape): nat {
    shape.head + 1 + shape.tail
  }

  lemma {:induction false} OneMore(n: nat, size: nat)
    ensures (n + 1) * size == n * size + size
  {
  }

  method SkipTransparent(payload: Bytes, cursor: nat) returns (r: Option<nat>, ghost done: nat)
    requires cursor <= |payload| <= USIZE_MAX
    ensures r == ReadTransparent(payload, cursor).Next()
    ensures cursor + 9 * done <= |payload|
    ensures r.Some? ==> cursor + 9 * done <= r.value <= |payload|
  {
    hide ReadSlotList;
    var inputs, read := SkipSlots(payload, cursor, INPUT);
    if inputs.None? {
      return None, read;
    }
    var outputs, written := SkipSlots(payload, inputs.value, OUTPUT);
    return outputs, read + written;
  }

  method SkipJoinSplits(payload: Bytes, cursor: nat, size: nat) returns (r: Option<nat>)
    requires cursor <= |payload| <= USIZE_MAX
    ensures r == ReadJoinSplits(payload, cursor, size).Next()
    ensures r.Some? ==> cursor <= r.value <= |payload|
  {
    hide ReadItems;
    var splits := SkipCounted(payload, cursor, size);
    if splits.Fail? {
      return None;
    }
    r := Some(splits.next);
    if splits.value > 0 {
      r := SkipBytes(payload, splits.next, 32);
      if r.Some? {
        r := SkipBytes(payload, r.value, 64);
      }
    }
  }

  method SkipV4Shielded(payload: Bytes, cursor: nat) returns (r: Option<nat>)
    requires cursor <= |payload| <= USIZE_MAX
    ensures r == ReadShieldedV4(payload, cursor).Next()
    ensures r.Some? ==> cursor <= r.value <= |payload|
  {
    hide ReadItems, ReadJoinSplits;
    r := SkipBytes(payload, cursor, 8);
    if r.None? {
      return;
    }
    var spends := SkipCounted(payload, r.value, SAPLING_V4_SPEND_SIZE);
    if spends.Fail? {
      return None;
    }
    var outputs := SkipCounted(payload, spends.next, SAPLING_OUTPUT_SIZE);
    if outputs.Fail? {
      return None;
    }
    r := SkipJoinSplits(payload, outputs.next, GROTH16_JOINSPLIT_SIZE);
    if r.Some? && (spends.value > 0 || outputs.value > 0) {
      r := SkipBytes(payload, r.value, REDDSA_SIGNATURE_SIZE);
    }
  }

  method SkipV5Sapling(payload: Bytes, cursor: nat) returns (r: Option<nat>)
    requires cursor <= |payload| <= USIZE_MAX
    ensures r == ReadSaplingV5(payload, cursor).Next()
    ensures r.Some? ==> cursor <= r.value <= |payload|
  {
    hide ReadItems, ReadSaplingTail;
    var spends := SkipCounted(payload, cursor, SAPLING_V5_SPEND_PREFIX_SIZE);
    if spends.Fail? {
      return None;
    }
    var outputs := SkipCounted(payload, spends.next, SAPLING_OUTPUT_PREFIX_SIZE);
    if outputs.Fail? {
      return None;
    }
    if spends.value == 0 && outputs.value == 0 {
      return Some(outputs.next);
    }
    r := SkipSaplingTail(payload, outputs.next, spends.value, outputs.value);
  }

  method SkipSaplingTail(payload: Bytes, cursor: nat, spends: nat, outputs: nat) returns (r: Option<nat>)
    requires cursor <= |payload| <= USIZE_MAX
    ensures r == ReadSaplingTail(payload, cursor, spends, outputs).Next()
    ensures r.Some? ==> cursor <= r.value <= |payload|
  {
    r := SkipBytes(payload, cursor, 8);
    if r.Some? && spends > 0 {
      r := SkipBytes(payload, r.value, 32);
    }
    if r.Some? {
      r := SkipFixedItems(payload, r.value, spends, 192);
    }
    if r.Some? {
      r := SkipFixedItems(payload, r.value, spends, REDDSA_SIGNATURE_SIZE);
    }
    if r.Some? {
      r := SkipFixedItems(payload, r.value, outputs, 192);
    }
    if r.Some? {
      r := SkipBytes(payload, r.value, REDDSA_SIGNATURE_SIZE);
    }
  }

  method SkipOrchard(payload: Bytes, cursor: nat) returns (r: Option<nat>)
    requires cursor <= |payload| <= USIZE_MAX
    ensures r == ReadOrchard(payload, cursor).Next()
    ensures r.Some? ==> cursor <= r.value <= |payload|
  {
    hide ReadItems;
    var actions := SkipCounted(payload, cursor, ORCHARD_ACTION_SIZE);
    if actions.Fail? {
      return None;
    }
    if actions.value == 0 {
      return Some(actions.next);
    }
    r := SkipBytes(payload, actions.next, 1);
    if r.Some? {
      r := SkipBytes(payload, r.value, 8);
    }
    if r.Some? {
      r := SkipBytes(payload, r.value, 32);
    }
    if r.None? {
      return;
    }
    var proof := SkipCounted(payload, r.value, 1);
    if proof.Fail? {
      return None;
    }
    r := SkipFixedItems(payload, proof.next, actions.value, REDDSA_SIGNATURE_SIZE);
    if r.Some? {
      r := SkipBytes(payload, r.value, REDDSA_SIGNATURE_SIZE);
    }
  }

  // ---------------------------------------------------------------------------
  // Transactions

  method ExpectWord(payload: Bytes, cursor: nat, expected: nat) returns (r: Option<nat>)
    requires cursor <= |payload| <= USIZE_MAX
    ensures var word := ReadLE(payload, cursor, 4);
            r == if word.Ok? && word.value == expected then Some(word.next) else None
    ensures r.Some? ==> r.value == cursor + 4 <= |payload|
  {
    var actual := ReadWord(payload, cursor, 4);
    if actual.Fail? || actual.value != expected {
      return None;
    }
    return Some(actual.next);
  }

  /** Everything after the version word and group, for one version. */
  method SkipBody(payload: Bytes, cursor: nat, version: nat) returns (r: Option<nat>, ghost done: nat)
    requires cursor <= |payload| <= USIZE_MAX && 1 <= version <= 6
    ensures r == ReadBody(payload, cursor, version).Next()
    ensures cursor + 9 * done <= |payload|
    ensures r.Some? ==> cursor + 9 * done <= r.value <= |payload|
  {
    hide ReadTransparent, ReadJoinSplits, ReadShieldedV4, ReadSaplingV5, ReadOrchard;
    r, done := Some(cursor), 0;
    if version >= 5 {
      r := SkipBytes(payload, cursor, 4);
      if r.Some? {
        r := SkipBytes(payload, r.value, 4);
      }
      if r.Some? {
        r := SkipBytes(payload, r.value, 4);
      }
    }
    if r.Some? {
      r, done := SkipTransparent(payload, r.value);
    }
    if r.Some? && version <= 4 {
      r := SkipBytes(payload, r.value, 4);
    }
    if r.Some? && 3 <= version <= 4 {
      r := SkipBytes(payload, r.value, 4);
    }
    if r.Some? && 2 <= version <= 3 {
      r := SkipJoinSplits(payload, r.value, BCTV14_JOINSPLIT_SIZE);
    }
    if r.Some? && version == 4 {
      r := SkipV4Shielded(payload, r.value);
    }
    if r.Some? && version >= 5 {
      r := SkipV5Sapling(payload, r.value);
      if r.Some? {
        r := SkipOrchard(payload, r.value);
      }
      if r.Some? && version == 6 {
        r := SkipOrchard(payload, r.value);
      }
    }
  }

  /** `done` counts the completed iterations over inputs and outputs. */
  method SkipTransaction(payload: Bytes, cursor: nat) returns (r: Option<nat>, ghost done: nat)
    requires cursor <= |payload| <= USIZE_MAX
    ensures r == ReadTx(payload, cursor).Next()
    ensures cursor + 9 * done <= |payload|
    ensures r.Some? ==> cursor + 4 + 9 * done <= r.value <= |payload|
  {
    done := 0;
    hide ReadBody, ReadLE;
    TxSound(payload, cursor);
    var header := ReadWord(payload, cursor, 4);
    if header.Fail? {
      return None, done;
    }
    var version, overwintered := header.value % OVERWINTERED_FLAG, header.value >= OVERWINTERED_FLAG;
    if !overwintered && (version == 1 || version == 2) {
      r, done := SkipBody(payload, header.next, version);
    } else if overwintered && 3 <= version <= 6 {
      r := ExpectWord(payload, header.next, GroupId(version));
      if r.Some? {
        r, done := SkipBody(payload, r.value, version);
      }
    } else {
      return None, done;
    }
  }

  // ---------------------------------------------------------------------------
  // Blocks

  function EncodeTxs(txs: seq<Tx>): Bytes {
    if txs == [] then [] else EncodeTx(txs[0]) + EncodeTxs(txs[1..])
  }

  function ReadTxs(p: Bytes, c: nat, n: nat): Read<seq<Tx>>
    decreases n
  {
    if n == 0 then Ok([], c) else
      var (x, c) :- ReadTx(p, c);
      var (xs, c) :- ReadTxs(p, c, n - 1);
      Ok([x] + xs, c)
  }

  ghost predicate AreTxs(txs: seq<Tx>) {
    forall i :: 0 <= i < |txs| ==> IsTx(txs[i])
  }

  lemma {:induction false} TxsSound(p: Bytes, c: nat, n: nat)
    requires c <= |p|
    ensures var r := ReadTxs(p, c, n);
            r.Ok? ==> |r.value| == n && AreTxs(r.value) && At(p, c, EncodeTxs(r.value))
                      && r.next == c + |EncodeTxs(r.value)|
                              && c + n <= r.next <= |p|
    decreases n
  {
    hide ReadTx, EncodeTx, IsTx;
    var r := ReadTxs(p, c, n);
    if n > 0 && r.Ok? {
      TxSound(p, c);
      var one := ReadTx(p, c);
      TxsSound(p, one.next, n - 1);
      var rest := ReadTxs(p, one.next, n - 1);
      assert r.value[1..] == rest.value;
      AtJoin(p, c, EncodeTx(one.value), EncodeTxs(rest.value));
    }
  }

  lemma {:induction false} TxsComplete(p: Bytes, c: nat, txs: seq<Tx>)
    requires AreTxs(txs) && At(p, c, EncodeTxs(txs))
    ensures ReadTxs(p, c, |txs|) == Ok(txs, c + |EncodeTxs(txs)|)
    decreases |txs|
  {
    hide ReadTx, EncodeTx, IsTx;
    if txs != [] {
      AtJoin(p, c, EncodeTx(txs[0]), EncodeTxs(txs[1..]));
      TxComplete(p, c, txs[0]);
      TxsComplete(p, c + |EncodeTx(txs[0])|, txs[1..]);
      assert [txs[0]] + txs[1..] == txs;
    }
  }

  /** A half-open range of payload positions. */
  datatype Range = Range(start: nat, end: nat)

  /** Where consecutive transactions starting at `c` lie. */
  function Ranges(c: nat, txs: seq<Tx>): seq<Range>
    decreases |txs|
  {
    if txs == [] then []
    else [Range(c, c + |EncodeTx(txs[0])|)] + Ranges(c + |EncodeTx(txs[0])|, txs[1..])
  }

  /** The ranges are nonempty, touch one another and cover `[from, to)`. */
  ghost predicate Tiles(ranges: seq<Range>, from: nat, to: nat)
    decreases |ranges|
  {
    if ranges == [] then from == to
    else ranges[0].start == from < ranges[0].end && Tiles(ranges[1..], ranges[0].end, to)
  }

  lemma {:induction false} RangesTile(c: nat, txs: seq<Tx>)
    requires AreTxs(txs)
    ensures |Ranges(c, txs)| == |txs| && Tiles(Ranges(c, txs), c, c + |EncodeTxs(txs)|)
    decreases |txs|
  {
    hide EncodeTx, IsTx, ReadTx;
    if txs != [] {
      TxNonempty(txs[0]);
      RangesTile(c + |EncodeTx(txs[0])|, txs[1..]);
      assert Ranges(c, txs)[1..] == Ranges(c + |EncodeTx(txs[0])|, txs[1..]);
    }
  }

  lemma {:induction false} TxNonempty(x: Tx)
    requires IsTx(x)
    ensures EncodeTx(x) != []
  {
    hide EncodeTx, IsTx, ReadTx;
    TxComplete(EncodeTx(x), 0, x);
    TxSound(EncodeTx(x), 0);
  }

  lemma {:induction false} EncodeTxsSnoc(txs: seq<Tx>, x: Tx)
    ensures EncodeTxs(txs + [x]) == EncodeTxs(txs) + EncodeTx(x)
  {
    hide EncodeTx;
    if txs == [] {
      assert txs + [x] == [x] && EncodeTxs([x][1..]) == [];
    } else {
      var tail := txs[1..];
      assert (txs + [x])[1..] == tail + [x] && (txs + [x])[0] == txs[0];
      EncodeTxsSnoc(tail, x);
      assert EncodeTx(txs[0]) + (EncodeTxs(tail) + EncodeTx(x)) == (EncodeTx(txs[0]) + EncodeTxs(tail)) + EncodeTx(x);
    }
  }

  lemma {:induction false} RangesCons(c: nat, x: Tx, xs: seq<Tx>)
    ensures Ranges(c, [x] + xs) == [Range(c, c + |EncodeTx(x)|)] + Ranges(c + |EncodeTx(x)|, xs)
    ensures EncodeTxs([x] + xs) == EncodeTx(x) + EncodeTxs(xs)
  {
    hide EncodeTx;
    assert ([x] + xs)[1..] == xs;
  }

  lemma {:induction false} NoRanges(c: nat)
    ensures Ranges(c, []) == [] && EncodeTxs([]) == []
  {
  }

  lemma {:induction false} RangesSnoc(c: nat, txs: seq<Tx>, x: Tx)
    ensures Ranges(c, txs + [x]) == Ranges(c, txs) + [Range(c + |EncodeTxs(txs)|, c + |EncodeTxs(txs)| + |EncodeTx(x)|)]
    decreases |txs|
  {
    hide EncodeTx, EncodeTxs, Ranges;
    if txs == [] {
      NoRanges(c);
      NoRanges(c + |EncodeTx(x)|);
      assert txs + [x] == [x] + [];
      RangesCons(c, x, []);
    } else {
      var first, tail := txs[0], txs[1..];
      var c1 := c + |EncodeTx(first)|;
      assert txs == [first] + tail && txs + [x] == [first] + (tail + [x]);
      RangesSnoc(c1, tail, x);
      RangesCons(c, first, tail);
      RangesCons(c, first, tail + [x]);
    }
  }

  /** `payload` is a header, a count in any CompactSize width, and exactly that many
      transactions: at least one, and no more than a prefilled index can number. */
  ghost predicate IsBlock(payload: Bytes, count: Compact, txs: seq<Tx>) {
    && |payload| >= ZCASH_FULL_HEADER_SIZE
    && IsCompact(count) && count.value == |txs| && 1 <= |txs| <= MAX_TRANSACTIONS && AreTxs(txs)
    && payload[ZCASH_FULL_HEADER_SIZE..] == EncodeCompact(count) + EncodeTxs(txs)
  }

  lemma {:induction false} BlockParts(payload: Bytes, count: Compact, txs: seq<Tx>)
    requires |payload| >= ZCASH_FULL_HEADER_SIZE
    ensures var c := ZCASH_FULL_HEADER_SIZE;
            payload[c..] == EncodeCompact(count) + EncodeTxs(txs)
            <==> At(payload, c, EncodeCompact(count)) && At(payload, c + |EncodeCompact(count)|, EncodeTxs(txs))
                 && c + |EncodeCompact(count)| + |EncodeTxs(txs)| == |payload|
  {
    hide EncodeCompact, EncodeTxs;
    var c, all := ZCASH_FULL_HEADER_SIZE, EncodeCompact(count) + EncodeTxs(txs);
    AtJoin(payload, c, EncodeCompact(count), EncodeTxs(txs));
    if c + |all| == |payload| {
      assert payload[c..] == payload[c..c + |all|];
    }
  }

  /** The parser accepts a payload exactly when it is a block of some transactions,
      and then there is one way to read it. */
  lemma {:induction false} BlockIsUnique(payload: Bytes, count: Compact, txs: seq<Tx>)
    requires IsBlock(payload, count, txs)
    ensures ReadCompact(payload, ZCASH_FULL_HEADER_SIZE) == Ok(count, ZCASH_FULL_HEADER_SIZE + |EncodeCompact(count)|)
    ensures ReadTxs(payload, ZCASH_FULL_HEADER_SIZE + |EncodeCompact(count)|, |txs|) == Ok(txs, |payload|)
  {
    hide EncodeCompact, EncodeTxs, ReadCompact, ReadTxs, At;
    BlockParts(payload, count, txs);
    CompactComplete(payload, ZCASH_FULL_HEADER_SIZE, count);
    TxsComplete(payload, ZCASH_FULL_HEADER_SIZE + |EncodeCompact(count)|, txs);
  }

  lemma {:induction false} AcceptedIsBlock(payload: Bytes, count: Compact, start: nat, txs: seq<Tx>)
    requires |payload| >= ZCASH_FULL_HEADER_SIZE && 1 <= count.value <= MAX_TRANSACTIONS
    requires ReadCompact(payload, ZCASH_FULL_HEADER_SIZE) == Ok(count, start)
    requires ReadTxs(payload, start, count.value) == Ok(txs, |payload|)
    ensures IsBlock(payload, count, txs) && start == ZCASH_FULL_HEADER_SIZE + |EncodeCompact(count)| <= |payload|
  {
    hide EncodeCompact, EncodeTxs, ReadCompact, ReadTxs;
    CompactSound(payload, ZCASH_FULL_HEADER_SIZE);
    TxsSound(payload, start, count.value);
    BlockParts(payload, count, txs);
  }

  /** What the loop over the transactions has found so far. */
  ghost predicate Progress(p: Bytes, start: nat, n: nat, seen: seq<Tx>, cursor: nat) {
    && |seen| <= n
    && cursor == start + |EncodeTxs(seen)|
    && var rest := ReadTxs(p, cursor, n - |seen|);
    if rest.Ok? then ReadTxs(p, start, n) == Ok(seen + rest.value, rest.next) else ReadTxs(p, start, n).Fail?
  }

  lemma {:induction false} ProgressStart(p: Bytes, start: nat, n: nat)
    ensures Progress(p, start, n, [], start)
  {
    hide ReadTxs, ReadTx, EncodeTx;
    NoRanges(start);
    var all := ReadTxs(p, start, n);
    assert all.Ok? ==> [] + all.value == all.value;
  }

  lemma {:induction false} ProgressEnd(p: Bytes, start: nat, n: nat, seen: seq<Tx>, cursor: nat)
    requires Progress(p, start, n, seen, cursor) && |seen| == n
    ensures ReadTxs(p, start, n) == Ok(seen, cursor)
  {
    assert seen + [] == seen;
  }

  lemma {:induction false} ProgressStep(p: Bytes, start: nat, n: nat, seen: seq<Tx>, cursor: nat)
    requires Progress(p, start, n, seen, cursor) && |seen| < n
    ensures var r := ReadTx(p, cursor);
            if r.Ok? then Progress(p, start, n, seen + [r.value], r.next) else ReadTxs(p, start, n).Fail?
    ensures cursor == start + |EncodeTxs(seen)|
  {
    hide ReadTx, EncodeTx;
    var r := ReadTx(p, cursor);
    if r.Ok? {
      TxSound(p, cursor);
      EncodeTxsSnoc(seen, r.value);
      var rest := ReadTxs(p, r.next, n - |seen| - 1);
      if rest.Ok? {
        assert seen + ([r.value] + rest.value) == (seen + [r.value]) + rest.value;
      }
    }
  }

  /** `passed` and `slots` count the completed iterations of the loop over transactions and,
      over all of them, of the loops over inputs and outputs. On every payload, accepted or
      not, they are bounded by its length together, whatever counts it declares. */
  method TransactionBoundaries(payload: Bytes) returns (r: Option<seq<Range>>, ghost passed: nat, ghost slots: nat)
    requires |payload| <= USIZE_MAX
    ensures r.Some? <==> exists count, txs :: IsBlock(payload, count, txs)
    ensures forall count, txs :: IsBlock(payload, count, txs) ==>
              r == Some(Ranges(ZCASH_FULL_HEADER_SIZE + |EncodeCompact(count)|, txs))
    ensures 4 * passed + 9 * slots <= |payload|
  {
    hide ReadTx, EncodeTx, IsTx, ReadCompact, EncodeCompact, IsBlock, Progress, Ranges, EncodeTxs, ReadTxs;
    forall count, txs | IsBlock(payload, count, txs)
      ensures |payload| >= ZCASH_FULL_HEADER_SIZE && 1 <= count.value == |txs| <= MAX_TRANSACTIONS
      ensures ReadCompact(payload, ZCASH_FULL_HEADER_SIZE) == Ok(count, ZCASH_FULL_HEADER_SIZE + |EncodeCompact(count)|)
      ensures ReadTxs(payload, ZCASH_FULL_HEADER_SIZE + |EncodeCompact(count)|, |txs|) == Ok(txs, |payload|)
    {
      BlockSize(payload, count, txs);
      BlockIsUnique(payload, count, txs);
    }
    passed, slots := 0, 0;
    if |payload| < ZCASH_FULL_HEADER_SIZE {
      return None, passed, slots;
    }
    var count := DecodeCompactSize(payload, ZCASH_FULL_HEADER_SIZE);
    if count.Fail? || count.value == 0 || count.value > MAX_TRANSACTIONS {
      return None, passed, slots;
    }
    var cursor: nat, i, boundaries := count.next, 0, [];
    ghost var seen: seq<Tx> := [];
    ProgressStart(payload, count.next, count.value);
    NoRanges(count.next);
    while i < count.value
      invariant 0 <= i == |seen| <= count.value && cursor <= |payload|
      invariant Progress(payload, count.next, count.value, seen, cursor)
      invariant boundaries == Ranges(count.next, seen)
      invariant passed == i && count.next + 4 * passed + 9 * slots <= cursor
      decreases count.value - i
    {
      ProgressStep(payload, count.next, count.value, seen, cursor);
      var next, done := SkipTransaction(payload, cursor);
      slots := slots + done;
      if next.None? {
        return None, passed, slots;
      }
      passed := passed + 1;
      TxSound(payload, cursor);
      RangesSnoc(count.next, seen, ReadTx(payload, cursor).value);
      boundaries := boundaries + [Range(cursor, next.value)];
      seen := seen + [ReadTx(payload, cursor).value];
      cursor, i := next.value, i + 1;
    }
    ProgressEnd(payload, count.next, count.value, seen, cursor);
    if cursor != |payload| {
      return None, passed, slots;
    }
    AcceptedIsBlock(payload, ReadCompact(payload, ZCASH_FULL_HEADER_SIZE).value, count.next, seen);
    return Some(boundaries), passed, slots;
  }

  lemma {:induction false} BlockSize(payload: Bytes, count: Compact, txs: seq<Tx>)
    requires IsBlock(payload, count, txs)
    ensures |payload| >= ZCASH_FULL_HEADER_SIZE && 1 <= count.value == |txs| <= MAX_TRANSACTIONS
  {
  }

  /** On success there are exactly as many boundaries as the block declares, and they
      tile the payload from the end of the count to its last byte. */
  lemma BoundariesTile(payload: Bytes, count: Compact, txs: seq<Tx>)
    requires IsBlock(payload, count, txs)
    ensures var start := ZCASH_FULL_HEADER_SIZE + |EncodeCompact(count)|;
            |Ranges(start, txs)| == count.value && Tiles(Ranges(start, txs), start, |payload|)
  {
    hide EncodeCompact, EncodeTxs;
    BlockParts(payload, count, txs);
    RangesTile(ZCASH_FULL_HEADER_SIZE + |EncodeCompact(count)|, txs);
  }
}
