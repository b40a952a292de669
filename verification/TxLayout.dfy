/** The transaction layouts the block parser knows, versions 1 to 6, as abstract
    transactions with an encoding (section 7.1 of the Zcash Protocol Specification;
    ZIP 225 for version 5; ZIP 229 for version 6).

    For each part there is an encoder and a reader that follows the parser's steps.
    The reader is sound (what it accepts is an encoding, ending where it stops) and
    complete (it accepts every encoding, whatever bytes follow). */
module TxLayout {
  import opened Common
  import opened Wire

  const OVERWINTERED_FLAG := 0x8000_0000
  const OVERWINTER_VERSION_GROUP_ID := 0x03C4_8270
  const SAPLING_VERSION_GROUP_ID := 0x892F_2085
  const TX_V5_VERSION_GROUP_ID := 0x26A7_270A
  const TX_V6_VERSION_GROUP_ID := 0xD884_B698
  const BCTV14_JOINSPLIT_SIZE := 8 + 8 + 32 + (32 * 2) + (32 * 2) + 32 + 32 + (32 * 2) + (601 * 2) + 296
  const GROTH16_JOINSPLIT_SIZE := 8 + 8 + 32 + (32 * 2) + (32 * 2) + 32 + 32 + (32 * 2) + (601 * 2) + 192
  const SAPLING_V4_SPEND_SIZE := 32 + 32 + 32 + 32 + 192 + 64
  const SAPLING_V5_SPEND_PREFIX_SIZE := 32 + 32 + 32
  const SAPLING_OUTPUT_PREFIX_SIZE := 32 + 32 + 32 + 580 + 80
  const SAPLING_OUTPUT_SIZE := SAPLING_OUTPUT_PREFIX_SIZE + 192
  const ORCHARD_ACTION_SIZE := 5 * 32 + 580 + 80
  const REDDSA_SIGNATURE_SIZE := 64

  // ---------------------------------------------------------------------------
  // A run of bytes under a CompactSize count of fixed-size items

  /** `count` items of a fixed size; a script or a proof is one of 1-byte items. */
  datatype Items = Items(count: Compact, bytes: Bytes)

  predicate IsItems(x: Items, size: nat) {
    IsCompact(x.count) && |x.bytes| == x.count.value * size
  }

  function EncodeItems(x: Items): Bytes {
    EncodeCompact(x.count) + x.bytes
  }

  function ReadItems(p: Bytes, c: nat, size: nat): Read<Items> {
    var (count, c) :- ReadCompact(p, c);
    var (bytes, c) :- Take(p, c, count.value * size);
    Ok(Items(count, bytes), c)
  }

  lemma {:induction false} ItemsSound(p: Bytes, c: nat, size: nat)
    ensures var r := ReadItems(p, c, size);
            r.Ok? ==> IsItems(r.value, size) && At(p, c, EncodeItems(r.value)) && r.next == c + |EncodeItems(r.value)|
                      && c < r.next <= |p|
  {
    hide ReadCompact, EncodeCompact, IsCompact;
    var r := ReadItems(p, c, size);
    if r.Ok? {
      CompactSound(p, c);
      var count := ReadCompact(p, c);
      var total := count.value.value * size;
      assert r == Ok(Items(count.value, p[count.next..count.next + total]), count.next + total);
      AtJoin(p, c, EncodeCompact(r.value.count), r.value.bytes);
    }
  }

  lemma {:induction false} ItemsComplete(p: Bytes, c: nat, size: nat, x: Items)
    requires IsItems(x, size) && At(p, c, EncodeItems(x))
    ensures ReadItems(p, c, size) == Ok(x, c + |EncodeItems(x)|)
  {
    hide ReadCompact, EncodeCompact, IsCompact;
    AtJoin(p, c, EncodeCompact(x.count), x.bytes);
    CompactComplete(p, c, x.count);
  }

  // ---------------------------------------------------------------------------
  // Transparent inputs and outputs

  /** One input (`head` is the outpoint, `tail` the sequence number) or one output
      (`head` is the value, and there is no tail). */
  datatype Slot = Slot(head: Bytes, script: Items, tail: Bytes)

  /** Inputs and outputs differ only in the sizes around the script. */
  datatype Shape = Shape(head: nat, tail: nat)

  const INPUT := Shape(32 + 4, 4)
  const OUTPUT := Shape(8, 0)

  predicate IsSlot(x: Slot, shape: Shape) {
    |x.head| == shape.head && IsItems(x.script, 1) && |x.tail| == shape.tail
  }

  function EncodeSlot(x: Slot): Bytes {
    x.head + (EncodeItems(x.script) + x.tail)
  }

  function ReadSlot(p: Bytes, c: nat, shape: Shape): Read<Slot> {
    var (head, c) :- Take(p, c, shape.head);
    var (script, c) :- ReadItems(p, c, 1);
    var (tail, c) :- Take(p, c, shape.tail);
    Ok(Slot(head, script, tail), c)
  }

  lemma {:induction false} SlotSound(p: Bytes, c: nat, shape: Shape)
    ensures var r := ReadSlot(p, c, shape);
            r.Ok? ==> IsSlot(r.value, shape) && At(p, c, EncodeSlot(r.value)) && r.next == c + |EncodeSlot(r.value)|
                      && c + shape.head + 1 + shape.tail <= r.next <= |p|
  {
    hide ReadItems, EncodeItems, IsItems;
    var r := ReadSlot(p, c, shape);
    if r.Ok? {
      var c1 := c + shape.head;
      ItemsSound(p, c1, 1);
      AtJoin(p, c1, EncodeItems(r.value.script), r.value.tail);
      AtJoin(p, c, r.value.head, EncodeItems(r.value.script) + r.value.tail);
    }
  }

  lemma {:induction false} SlotComplete(p: Bytes, c: nat, shape: Shape, x: Slot)
    requires IsSlot(x, shape) && At(p, c, EncodeSlot(x))
    ensures ReadSlot(p, c, shape) == Ok(x, c + |EncodeSlot(x)|)
  {
    hide ReadItems, EncodeItems, IsItems;
    var script := EncodeItems(x.script);
    AtJoin(p, c, x.head, script + x.tail);
    AtJoin(p, c + |x.head|, script, x.tail);
    ItemsComplete(p, c + |x.head|, 1, x.script);
  }

  predicate AreSlots(xs: seq<Slot>, shape: Shape) {
    forall i :: 0 <= i < |xs| ==> IsSlot(xs[i], shape)
  }

  function EncodeSlots(xs: seq<Slot>): Bytes {
    if xs == [] then [] else EncodeSlot(xs[0]) + EncodeSlots(xs[1..])
  }

  function ReadSlots(p: Bytes, c: nat, shape: Shape, n: nat): Read<seq<Slot>>
    decreases n
  {
    if n == 0 then Ok([], c) else
      var (x, c) :- ReadSlot(p, c, shape);
      var (xs, c) :- ReadSlots(p, c, shape, n - 1);
      Ok([x] + xs, c)
  }

  /** Besides being sound, `n` completed iterations consumed at least one minimal slot
      each, so a declared count buys no more work than the payload has bytes. */
  lemma {:induction false} SlotsSound(p: Bytes, c: nat, shape: Shape, n: nat)
    requires c <= |p|
    ensures var r := ReadSlots(p, c, shape, n);
            r.Ok? ==> |r.value| == n && AreSlots(r.value, shape) && At(p, c, EncodeSlots(r.value))
                      && r.next == c + |EncodeSlots(r.value)|
                      && c + n * (shape.head + 1 + shape.tail) <= r.next <= |p|
    decreases n
  {
    hide ReadSlot, EncodeSlot, IsSlot;
    var r := ReadSlots(p, c, shape, n);
    if n > 0 && r.Ok? {
      SlotSound(p, c, shape);
      var one := ReadSlot(p, c, shape);
      SlotsSound(p, one.next, shape, n - 1);
      var rest := ReadSlots(p, one.next, shape, n - 1);
      assert r.value[1..] == rest.value;
      AtJoin(p, c, EncodeSlot(one.value), EncodeSlots(rest.value));
      var least := shape.head + 1 + shape.tail;
      assert n * least == (n - 1) * least + least;
    }
  }

  lemma {:induction false} SlotsComplete(p: Bytes, c: nat, shape: Shape, xs: seq<Slot>)
    requires AreSlots(xs, shape) && At(p, c, EncodeSlots(xs))
    ensures ReadSlots(p, c, shape, |xs|) == Ok(xs, c + |EncodeSlots(xs)|)
    decreases |xs|
  {
    hide ReadSlot, EncodeSlot, IsSlot;
    if xs != [] {
      AtJoin(p, c, EncodeSlot(xs[0]), EncodeSlots(xs[1..]));
      SlotComplete(p, c, shape, xs[0]);
      SlotsComplete(p, c + |EncodeSlot(xs[0])|, shape, xs[1..]);
      assert [xs[0]] + xs[1..] == xs;
    }
  }

  /** A counted list of inputs or outputs. */
  datatype SlotList = SlotList(count: Compact, slots: seq<Slot>)

  predicate IsSlotList(x: SlotList, shape: Shape) {
    IsCompact(x.count) && x.count.value == |x.slots| && AreSlots(x.slots, shape)
  }

  function EncodeSlotList(x: SlotList): Bytes {
    EncodeCompact(x.count) + EncodeSlots(x.slots)
  }

  function ReadSlotList(p: Bytes, c: nat, shape: Shape): Read<SlotList> {
    var (count, c) :- ReadCompact(p, c);
    var (slots, c) :- ReadSlots(p, c, shape, count.value);
    Ok(SlotList(count, slots), c)
  }

  lemma {:induction false} SlotListSound(p: Bytes, c: nat, shape: Shape)
    ensures var r := ReadSlotList(p, c, shape);
            r.Ok? ==> IsSlotList(r.value, shape) && At(p, c, EncodeSlotList(r.value))
                      && r.next == c + |EncodeSlotList(r.value)|
  {
    hide ReadCompact, EncodeCompact, IsCompact, ReadSlots, EncodeSlots;
    var r := ReadSlotList(p, c, shape);
    if r.Ok? {
      CompactSound(p, c);
      SlotsSound(p, ReadCompact(p, c).next, shape, r.value.count.value);
      AtJoin(p, c, EncodeCompact(r.value.count), EncodeSlots(r.value.slots));
    }
  }

  lemma {:induction false} SlotListComplete(p: Bytes, c: nat, shape: Shape, x: SlotList)
    requires IsSlotList(x, shape) && At(p, c, EncodeSlotList(x))
    ensures ReadSlotList(p, c, shape) == Ok(x, c + |EncodeSlotList(x)|)
  {
    hide ReadCompact, EncodeCompact, IsCompact, ReadSlots, EncodeSlots;
    AtJoin(p, c, EncodeCompact(x.count), EncodeSlots(x.slots));
    CompactComplete(p, c, x.count);
    SlotsComplete(p, c + |EncodeCompact(x.count)|, shape, x.slots);
  }

  /** Inputs, then outputs. */
  datatype Transparent = Transparent(inputs: SlotList, outputs: SlotList)

  predicate IsTransparent(x: Transparent) {
    IsSlotList(x.inputs, INPUT) && IsSlotList(x.outputs, OUTPUT)
  }

  function EncodeTransparent(x: Transparent): Bytes {
    EncodeSlotList(x.inputs) + EncodeSlotList(x.outputs)
  }

  function ReadTransparent(p: Bytes, c: nat): Read<Transparent> {
    var (inputs, c) :- ReadSlotList(p, c, INPUT);
    var (outputs, c) :- ReadSlotList(p, c, OUTPUT);
    Ok(Transparent(inputs, outputs), c)
  }

  lemma {:induction false} TransparentSound(p: Bytes, c: nat)
    ensures var r := ReadTransparent(p, c);
            r.Ok? ==> IsTransparent(r.value) && At(p, c, EncodeTransparent(r.value))
                      && r.next == c + |EncodeTransparent(r.value)|
  {
    hide ReadSlotList, EncodeSlotList, IsSlotList;
    var r := ReadTransparent(p, c);
    if r.Ok? {
      SlotListSound(p, c, INPUT);
      SlotListSound(p, ReadSlotList(p, c, INPUT).next, OUTPUT);
      AtJoin(p, c, EncodeSlotList(r.value.inputs), EncodeSlotList(r.value.outputs));
    }
  }

  lemma {:induction false} TransparentComplete(p: Bytes, c: nat, x: Transparent)
    requires IsTransparent(x) && At(p, c, EncodeTransparent(x))
    ensures ReadTransparent(p, c) == Ok(x, c + |EncodeTransparent(x)|)
  {
    hide ReadSlotList, EncodeSlotList, IsSlotList;
    var inputs := EncodeSlotList(x.inputs);
    AtJoin(p, c, inputs, EncodeSlotList(x.outputs));
    SlotListComplete(p, c, INPUT, x.inputs);
    SlotListComplete(p, c + |inputs|, OUTPUT, x.outputs);
  }

  // ---------------------------------------------------------------------------
  // Shielded bundles

  /** JoinSplits, with the public key and signature that follow if there are any. */
  datatype JoinSplits = JoinSplits(splits: Items, keys: Bytes)

  predicate IsJoinSplits(x: JoinSplits, size: nat) {
    IsItems(x.splits, size) && |x.keys| == if x.splits.count.value > 0 then 32 + 64 else 0
  }

  function EncodeJoinSplits(x: JoinSplits): Bytes {
    EncodeItems(x.splits) + x.keys
  }

  function ReadJoinSplits(p: Bytes, c: nat, size: nat): Read<JoinSplits> {
    var (splits, c) :- ReadItems(p, c, size);
    var (keys, c) :- Take(p, c, if splits.count.value > 0 then 32 + 64 else 0);
    Ok(JoinSplits(splits, keys), c)
  }

  lemma {:induction false} JoinSplitsSound(p: Bytes, c: nat, size: nat)
    ensures var r := ReadJoinSplits(p, c, size);
            r.Ok? ==> IsJoinSplits(r.value, size) && At(p, c, EncodeJoinSplits(r.value))
                      && r.next == c + |EncodeJoinSplits(r.value)|
  {
    hide ReadItems, EncodeItems, IsItems;
    var r := ReadJoinSplits(p, c, size);
    if r.Ok? {
      ItemsSound(p, c, size);
      AtJoin(p, c, EncodeItems(r.value.splits), r.value.keys);
    }
  }

  lemma {:induction false} JoinSplitsComplete(p: Bytes, c: nat, size: nat, x: JoinSplits)
    requires IsJoinSplits(x, size) && At(p, c, EncodeJoinSplits(x))
    ensures ReadJoinSplits(p, c, size) == Ok(x, c + |EncodeJoinSplits(x)|)
  {
    hide ReadItems, EncodeItems, IsItems;
    AtJoin(p, c, EncodeItems(x.splits), x.keys);
    ItemsComplete(p, c, size, x.splits);
  }

  /** Spends and outputs, the part the two Sapling layouts share. */
  datatype SaplingItems = SaplingItems(spends: Items, outputs: Items)

  predicate IsSaplingItems(x: SaplingItems, spend: nat, output: nat) {
    IsItems(x.spends, spend) && IsItems(x.outputs, output)
  }

  function EncodeSaplingItems(x: SaplingItems): Bytes {
    EncodeItems(x.spends) + EncodeItems(x.outputs)
  }

  function ReadSaplingItems(p: Bytes, c: nat, spend: nat, output: nat): Read<SaplingItems> {
    var (spends, c) :- ReadItems(p, c, spend);
    var (outputs, c) :- ReadItems(p, c, output);
    Ok(SaplingItems(spends, outputs), c)
  }

  lemma {:induction false} SaplingItemsSound(p: Bytes, c: nat, spend: nat, output: nat)
    ensures var r := ReadSaplingItems(p, c, spend, output);
            r.Ok? ==> IsSaplingItems(r.value, spend, output) && At(p, c, EncodeSaplingItems(r.value))
                      && r.next == c + |EncodeSaplingItems(r.value)|
  {
    hide ReadItems, EncodeItems, IsItems;
    var r := ReadSaplingItems(p, c, spend, output);
    if r.Ok? {
      ItemsSound(p, c, spend);
      ItemsSound(p, ReadItems(p, c, spend).next, output);
      AtJoin(p, c, EncodeItems(r.value.spends), EncodeItems(r.value.outputs));
    }
  }

  lemma {:induction false} SaplingItemsComplete(p: Bytes, c: nat, spend: nat, output: nat, x: SaplingItems)
    requires IsSaplingItems(x, spend, output) && At(p, c, EncodeSaplingItems(x))
    ensures ReadSaplingItems(p, c, spend, output) == Ok(x, c + |EncodeSaplingItems(x)|)
  {
    hide ReadItems, EncodeItems, IsItems;
    AtJoin(p, c, EncodeItems(x.spends), EncodeItems(x.outputs));
    ItemsComplete(p, c, spend, x.spends);
    ItemsComplete(p, c + |EncodeItems(x.spends)|, output, x.outputs);
  }

  /** Bytes that are there only on some condition. */
  function EncodeOptional(x: Option<Bytes>): Bytes {
    if x.None? then [] else x.value
  }

  function ReadOptional(p: Bytes, c: nat, present: bool, n: nat): Read<Option<Bytes>> {
    if !present then Ok(None, c) else
      var (b, c) :- Take(p, c, n);
      Ok(Some(b), c)
  }

  lemma {:induction false} TakeSound(p: Bytes, c: nat, n: nat)
    ensures var r := Take(p, c, n);
            r.Ok? ==> At(p, c, r.value) && |r.value| == n && r.next == c + |r.value| <= |p|
  {
  }

  lemma {:induction false} TakeAt(p: Bytes, c: nat, b: Bytes)
    requires At(p, c, b)
    ensures Take(p, c, |b|) == Ok(b, c + |b|)
  {
  }

  lemma {:induction false} OptionalSound(p: Bytes, c: nat, present: bool, n: nat)
    requires c <= |p|
    ensures var r := ReadOptional(p, c, present, n);
            r.Ok? ==> && r.value.Some? == present && (r.value.Some? ==> |r.value.value| == n)
                      && At(p, c, EncodeOptional(r.value)) && r.next == c + |EncodeOptional(r.value)| <= |p|
  {
  }

  lemma {:induction false} OptionalComplete(p: Bytes, c: nat, x: Option<Bytes>, n: nat)
    requires At(p, c, EncodeOptional(x)) && (x.Some? ==> |x.value| == n)
    ensures ReadOptional(p, c, x.Some?, n) == Ok(x, c + |EncodeOptional(x)|)
  {
  }

  /** The shielded part of version 4: value balance, Sapling items, JoinSplits and a
      binding signature, there exactly if there are spends or outputs. */
  datatype ShieldedV4 =
    ShieldedV4(balance: Bytes, items: SaplingItems, joinSplits: JoinSplits, signature: Option<Bytes>)

  predicate IsShieldedV4(x: ShieldedV4) {
    && |x.balance| == 8
    && IsSaplingItems(x.items, SAPLING_V4_SPEND_SIZE, SAPLING_OUTPUT_SIZE)
    && IsJoinSplits(x.joinSplits, GROTH16_JOINSPLIT_SIZE)
    && (x.signature.Some? <==> x.items.spends.count.value > 0 || x.items.outputs.count.value > 0)
    && (x.signature.Some? ==> |x.signature.value| == 64)
  }

  function EncodeShieldedV4(x: ShieldedV4): Bytes {
    x.balance + (EncodeSaplingItems(x.items) + (EncodeJoinSplits(x.joinSplits) + EncodeOptional(x.signature)))
  }

  function ReadShieldedV4(p: Bytes, c: nat): Read<ShieldedV4> {
    var (balance, c) :- Take(p, c, 8);
    var (items, c) :- ReadSaplingItems(p, c, SAPLING_V4_SPEND_SIZE, SAPLING_OUTPUT_SIZE);
    var (joinSplits, c) :- ReadJoinSplits(p, c, GROTH16_JOINSPLIT_SIZE);
    var signed := items.spends.count.value > 0 || items.outputs.count.value > 0;
    var (signature, c) :- ReadOptional(p, c, signed, REDDSA_SIGNATURE_SIZE);
    Ok(ShieldedV4(balance, items, joinSplits, signature), c)
  }

  lemma {:induction false} ShieldedV4Sound(p: Bytes, c: nat)
    ensures var r := ReadShieldedV4(p, c);
            r.Ok? ==> IsShieldedV4(r.value) && At(p, c, EncodeShieldedV4(r.value))
                      && r.next == c + |EncodeShieldedV4(r.value)|
  {
    hide ReadSaplingItems, EncodeSaplingItems, IsSaplingItems, ReadJoinSplits, EncodeJoinSplits, IsJoinSplits,
         ReadOptional, EncodeOptional, At, Take;
    var r := ReadShieldedV4(p, c);
    if r.Ok? {
      var x := r.value;
      var items, splits, signature := EncodeSaplingItems(x.items), EncodeJoinSplits(x.joinSplits),
        EncodeOptional(x.signature);
      TakeSound(p, c, 8);
      SaplingItemsSound(p, c + 8, SAPLING_V4_SPEND_SIZE, SAPLING_OUTPUT_SIZE);
      JoinSplitsSound(p, c + 8 + |items|, GROTH16_JOINSPLIT_SIZE);
      AtBounds(p, c + 8 + |items|, splits);
      OptionalSound(p, c + 8 + |items| + |splits|, x.items.spends.count.value > 0
        || x.items.outputs.count.value > 0, 64);
      AtJoin(p, c + 8 + |items|, splits, signature);
      AtJoin(p, c + 8, items, splits + signature);
      AtJoin(p, c, x.balance, items + (splits + signature));
    }
  }

  lemma {:induction false} ShieldedV4Complete(p: Bytes, c: nat, x: ShieldedV4)
    requires IsShieldedV4(x) && At(p, c, EncodeShieldedV4(x))
    ensures ReadShieldedV4(p, c) == Ok(x, c + |EncodeShieldedV4(x)|)
  {
    hide ReadSaplingItems, EncodeSaplingItems, IsSaplingItems, ReadJoinSplits, EncodeJoinSplits, IsJoinSplits,
         ReadOptional, EncodeOptional, At, Take;
    var items, splits, signature := EncodeSaplingItems(x.items), EncodeJoinSplits(x.joinSplits),
      EncodeOptional(x.signature);
    AtJoin(p, c, x.balance, items + (splits + signature));
    AtJoin(p, c + 8, items, splits + signature);
    AtJoin(p, c + 8 + |items|, splits, signature);
    TakeAt(p, c, x.balance);
    SaplingItemsComplete(p, c + 8, SAPLING_V4_SPEND_SIZE, SAPLING_OUTPUT_SIZE, x.items);
    JoinSplitsComplete(p, c + 8 + |items|, GROTH16_JOINSPLIT_SIZE, x.joinSplits);
    OptionalComplete(p, c + 8 + |items| + |splits|, x.signature, 64);
  }

  /** What version 5 moves out of the Sapling items: the value balance, one anchor for
      all spends, the proofs and signatures of the spends, the proofs of the outputs and
      the binding signature. */
  datatype SaplingTail = SaplingTail(balance: Bytes, anchor: Option<Bytes>, spendProofs: Bytes, spendSignatures: Bytes,
                                     outputProofs: Bytes, signature: Bytes)

  /** The Sapling bundle of versions 5 and 6. */
  datatype SaplingV5 = SaplingV5(items: SaplingItems, tail: Option<SaplingTail>)

  predicate IsSaplingTail(x: SaplingTail, spends: nat, outputs: nat) {
    && |x.balance| == 8
    && (x.anchor.Some? <==> spends > 0) && (x.anchor.Some? ==> |x.anchor.value| == 32)
    && |x.spendProofs| == spends * 192 && |x.spendSignatures| == spends * 64
    && |x.outputProofs| == outputs * 192
    && |x.signature| == 64
  }

  predicate IsSaplingV5(x: SaplingV5) {
    var spends, outputs := x.items.spends.count.value, x.items.outputs.count.value;
    && IsSaplingItems(x.items, SAPLING_V5_SPEND_PREFIX_SIZE, SAPLING_OUTPUT_PREFIX_SIZE)
    && (x.tail.Some? <==> spends > 0 || outputs > 0)
    && (x.tail.Some? ==> IsSaplingTail(x.tail.value, spends, outputs))
  }

  function EncodeSaplingTail(x: SaplingTail): Bytes {
    x.balance
    + (EncodeOptional(x.anchor) + (x.spendProofs + (x.spendSignatures + (x.outputProofs + x.signature))))
  }

  function EncodeSaplingV5(x: SaplingV5): Bytes {
    EncodeSaplingItems(x.items) + (if x.tail.None? then [] else EncodeSaplingTail(x.tail.value))
  }

  function ReadSaplingTail(p: Bytes, c: nat, spends: nat, outputs: nat): Read<SaplingTail> {
    var (balance, c) :- Take(p, c, 8);
    var (anchor, c) :- ReadOptional(p, c, spends > 0, 32);
    var (spendProofs, c) :- Take(p, c, spends * 192);
    var (spendSignatures, c) :- Take(p, c, spends * REDDSA_SIGNATURE_SIZE);
    var (outputProofs, c) :- Take(p, c, outputs * 192);
    var (signature, c) :- Take(p, c, REDDSA_SIGNATURE_SIZE);
    Ok(SaplingTail(balance, anchor, spendProofs, spendSignatures, outputProofs, signature), c)
  }

  function ReadSaplingV5(p: Bytes, c: nat): Read<SaplingV5> {
    var (items, c) :- ReadSaplingItems(p, c, SAPLING_V5_SPEND_PREFIX_SIZE, SAPLING_OUTPUT_PREFIX_SIZE);
    var spends, outputs := items.spends.count.value, items.outputs.count.value;
    if spends == 0 && outputs == 0 then Ok(SaplingV5(items, None), c) else
      var (tail, c) :- ReadSaplingTail(p, c, spends, outputs);
      Ok(SaplingV5(items, Some(tail)), c)
  }

  lemma {:induction false} SaplingTailSound(p: Bytes, c: nat, spends: nat, outputs: nat)
    ensures var r := ReadSaplingTail(p, c, spends, outputs);
            r.Ok? ==> IsSaplingTail(r.value, spends, outputs) && At(p, c, EncodeSaplingTail(r.value))
                      && r.next == c + |EncodeSaplingTail(r.value)|
  {
    hide At, Take, ReadOptional, EncodeOptional;
    var r := ReadSaplingTail(p, c, spends, outputs);
    if r.Ok? {
      var x := r.value;
      var anchor := EncodeOptional(x.anchor);
      TakeSound(p, c, 8);
      OptionalSound(p, c + 8, spends > 0, 32);
      var c1 := c + 8 + |anchor|;
      TakeSound(p, c1, spends * 192);
      var c2 := c1 + |x.spendProofs|;
      TakeSound(p, c2, spends * 64);
      var c3 := c2 + |x.spendSignatures|;
      TakeSound(p, c3, outputs * 192);
      var c4 := c3 + |x.outputProofs|;
      TakeSound(p, c4, 64);
      AtJoin(p, c3, x.outputProofs, x.signature);
      AtJoin(p, c2, x.spendSignatures, x.outputProofs + x.signature);
      AtJoin(p, c1, x.spendProofs, x.spendSignatures + (x.outputProofs + x.signature));
      AtJoin(p, c + 8, anchor, x.spendProofs + (x.spendSignatures + (x.outputProofs + x.signature)));
      AtJoin(p, c, x.balance, anchor + (x.spendProofs + (x.spendSignatures + (x.outputProofs + x.signature))));
    }
  }

  lemma {:induction false} SaplingTailComplete(p: Bytes, c: nat, x: SaplingTail, spends: nat, outputs: nat)
    requires IsSaplingTail(x, spends, outputs) && At(p, c, EncodeSaplingTail(x))
    ensures ReadSaplingTail(p, c, spends, outputs) == Ok(x, c + |EncodeSaplingTail(x)|)
  {
    hide At, Take, ReadOptional, EncodeOptional;
    var anchor := EncodeOptional(x.anchor);
    var c1 := c + 8 + |anchor|;
    var c2 := c1 + |x.spendProofs|;
    var c3 := c2 + |x.spendSignatures|;
    var c4 := c3 + |x.outputProofs|;
    AtJoin(p, c, x.balance, anchor + (x.spendProofs + (x.spendSignatures + (x.outputProofs + x.signature))));
    AtJoin(p, c + 8, anchor, x.spendProofs + (x.spendSignatures + (x.outputProofs + x.signature)));
    AtJoin(p, c1, x.spendProofs, x.spendSignatures + (x.outputProofs + x.signature));
    AtJoin(p, c2, x.spendSignatures, x.outputProofs + x.signature);
    AtJoin(p, c3, x.outputProofs, x.signature);
    TakeAt(p, c, x.balance);
    OptionalComplete(p, c + 8, x.anchor, 32);
    TakeAt(p, c1, x.spendProofs);
    TakeAt(p, c2, x.spendSignatures);
    TakeAt(p, c3, x.outputProofs);
    TakeAt(p, c4, x.signature);
  }

  lemma {:induction false} SaplingV5Sound(p: Bytes, c: nat)
    ensures var r := ReadSaplingV5(p, c);
            r.Ok? ==> IsSaplingV5(r.value) && At(p, c, EncodeSaplingV5(r.value))
                      && r.next == c + |EncodeSaplingV5(r.value)|
  {
    hide ReadSaplingItems, EncodeSaplingItems, IsSaplingItems, ReadSaplingTail, EncodeSaplingTail, IsSaplingTail, At;
    var r := ReadSaplingV5(p, c);
    if r.Ok? {
      var items := EncodeSaplingItems(r.value.items);
      SaplingItemsSound(p, c, SAPLING_V5_SPEND_PREFIX_SIZE, SAPLING_OUTPUT_PREFIX_SIZE);
      if r.value.tail.Some? {
        SaplingTailSound(p, c + |items|, r.value.items.spends.count.value, r.value.items.outputs.count.value);
        AtJoin(p, c, items, EncodeSaplingTail(r.value.tail.value));
      } else {
        assert items + [] == items;
      }
    }
  }

  lemma {:induction false} SaplingV5Complete(p: Bytes, c: nat, x: SaplingV5)
    requires IsSaplingV5(x) && At(p, c, EncodeSaplingV5(x))
    ensures ReadSaplingV5(p, c) == Ok(x, c + |EncodeSaplingV5(x)|)
  {
    hide ReadSaplingItems, EncodeSaplingItems, IsSaplingItems, ReadSaplingTail, EncodeSaplingTail, IsSaplingTail, At;
    var items := EncodeSaplingItems(x.items);
    if x.tail.Some? {
      AtJoin(p, c, items, EncodeSaplingTail(x.tail.value));
      SaplingTailComplete(p, c + |items|, x.tail.value, x.items.spends.count.value, x.items.outputs.count.value);
    } else {
      assert items + [] == items;
    }
    SaplingItemsComplete(p, c, SAPLING_V5_SPEND_PREFIX_SIZE, SAPLING_OUTPUT_PREFIX_SIZE, x.items);
  }

  /** An Orchard-format bundle: actions, then flags, balance and anchor, a proof, and
      the signatures, if there are actions. */
  datatype Orchard = Orchard(actions: Items, fixed: Bytes, proof: Option<Items>, signatures: Bytes)

  predicate IsOrchard(x: Orchard) {
    && IsItems(x.actions, ORCHARD_ACTION_SIZE)
    && if x.actions.count.value == 0 then x.fixed == [] && x.proof == None && x.signatures == []
       else && |x.fixed| == 1 + 8 + 32
            && x.proof.Some? && IsItems(x.proof.value, 1)
            && |x.signatures| == x.actions.count.value * REDDSA_SIGNATURE_SIZE + REDDSA_SIGNATURE_SIZE
  }

  function EncodeOrchard(x: Orchard): Bytes {
    EncodeItems(x.actions) +
    (if x.proof.None? then [] else x.fixed + (EncodeItems(x.proof.value) + x.signatures))
  }

  function ReadOrchard(p: Bytes, c: nat): Read<Orchard> {
    var (actions, c) :- ReadItems(p, c, ORCHARD_ACTION_SIZE);
    if actions.count.value == 0 then Ok(Orchard(actions, [], None, []), c) else
      var (fixed, c) :- Take(p, c, 1 + 8 + 32);
      var (proof, c) :- ReadItems(p, c, 1);
      var (signatures, c) :- Take(p, c, actions.count.value * REDDSA_SIGNATURE_SIZE + REDDSA_SIGNATURE_SIZE);
      Ok(Orchard(actions, fixed, Some(proof), signatures), c)
  }

  lemma {:induction false} OrchardSound(p: Bytes, c: nat)
    ensures var r := ReadOrchard(p, c);
            r.Ok? ==> IsOrchard(r.value) && At(p, c, EncodeOrchard(r.value)) && r.next == c + |EncodeOrchard(r.value)|
  {
    hide ReadItems, EncodeItems, IsItems;
    var r := ReadOrchard(p, c);
    if r.Ok? {
      var x := r.value;
      var actions := EncodeItems(x.actions);
      ItemsSound(p, c, ORCHARD_ACTION_SIZE);
      if x.proof.Some? {
        var proof, c1 := EncodeItems(x.proof.value), c + |actions| + 41;
        ItemsSound(p, c1, 1);
        AtJoin(p, c1, proof, x.signatures);
        AtJoin(p, c + |actions|, x.fixed, proof + x.signatures);
        AtJoin(p, c, actions, x.fixed + (proof + x.signatures));
      } else {
        assert actions + [] == actions;
      }
    }
  }

  lemma {:induction false} OrchardComplete(p: Bytes, c: nat, x: Orchard)
    requires IsOrchard(x) && At(p, c, EncodeOrchard(x))
    ensures ReadOrchard(p, c) == Ok(x, c + |EncodeOrchard(x)|)
  {
    hide ReadItems, EncodeItems, IsItems;
    var actions := EncodeItems(x.actions);
    if x.proof.Some? {
      var proof, c1 := EncodeItems(x.proof.value), c + |actions| + 41;
      AtJoin(p, c, actions, x.fixed + (proof + x.signatures));
      AtJoin(p, c + |actions|, x.fixed, proof + x.signatures);
      AtJoin(p, c1, proof, x.signatures);
      ItemsComplete(p, c1, 1, x.proof.value);
    } else {
      assert actions + [] == actions;
    }
    ItemsComplete(p, c, ORCHARD_ACTION_SIZE, x.actions);
  }

  // ---------------------------------------------------------------------------
  // Transactions

  /** A transaction of one of the six versions. `lockTime`, `times` and `env` are the
      fixed-size fields around the transparent part. */
  datatype Tx =
    | V1(transparent: Transparent, lockTime: Bytes)
    | V2(transparent: Transparent, lockTime: Bytes, joinSplits: JoinSplits)
    | V3(transparent: Transparent, times: Bytes, joinSplits: JoinSplits)
    | V4(transparent: Transparent, times: Bytes, shielded: ShieldedV4)
    | V5(env: Bytes, transparent: Transparent, sapling: SaplingV5, orchard: Orchard)
    | V6(env: Bytes, transparent: Transparent, sapling: SaplingV5, orchard: Orchard, ironwood: Orchard)

  function Version(x: Tx): nat {
    if x.V1? then 1 else if x.V2? then 2 else if x.V3? then 3 else if x.V4? then 4 else if x.V5? then 5 else 6
  }

  predicate IsTx(x: Tx) {
    && IsTransparent(x.transparent)
    && match x
       case V1(_, lockTime) => |lockTime| == 4
       case V2(_, lockTime, splits) => |lockTime| == 4 && IsJoinSplits(splits, BCTV14_JOINSPLIT_SIZE)
       case V3(_, times, splits) => |times| == 4 + 4 && IsJoinSplits(splits, BCTV14_JOINSPLIT_SIZE)
       case V4(_, times, shielded) => |times| == 4 + 4 && IsShieldedV4(shielded)
       case V5(env, _, sapling, orchard) => |env| == 4 + 4 + 4 && IsSaplingV5(sapling) && IsOrchard(orchard)
       case V6(env, _, sapling, orchard, ironwood) =>
         |env| == 4 + 4 + 4 && IsSaplingV5(sapling) && IsOrchard(orchard) && IsOrchard(ironwood)
  }

  function GroupId(version: nat): nat {
    if version == 3 then OVERWINTER_VERSION_GROUP_ID
    else if version == 4 then SAPLING_VERSION_GROUP_ID
    else if version == 5 then TX_V5_VERSION_GROUP_ID
    else TX_V6_VERSION_GROUP_ID
  }

  /** The version word and, from version 3 on, the version group. */
  function EncodeHeader(version: nat): Bytes {
    if version <= 2 then ToLE(version, 4) else ToLE(OVERWINTERED_FLAG + version, 4) + ToLE(GroupId(version), 4)
  }

  function EncodeBody(x: Tx): Bytes {
    var t := EncodeTransparent(x.transparent);
    match x
    case V1(_, lockTime) => t + lockTime
    case V2(_, lockTime, splits) => t + (lockTime + EncodeJoinSplits(splits))
    case V3(_, times, splits) => t + (times + EncodeJoinSplits(splits))
    case V4(_, times, shielded) => t + (times + EncodeShieldedV4(shielded))
    case V5(env, _, sapling, orchard) => env + (t + (EncodeSaplingV5(sapling) + EncodeOrchard(orchard)))
    case V6(env, _, sapling, orchard, ironwood) =>
      env + (t + (EncodeSaplingV5(sapling) + (EncodeOrchard(orchard) + EncodeOrchard(ironwood))))
  }

  function EncodeTx(x: Tx): Bytes {
    EncodeHeader(Version(x)) + EncodeBody(x)
  }

  function ReadHeader(p: Bytes, c: nat): Read<nat> {
    var (header, c) :- ReadLE(p, c, 4);
    var version, overwintered := header % OVERWINTERED_FLAG, header >= OVERWINTERED_FLAG;
    if !overwintered && 1 <= version <= 2 then Ok(version, c)
    else if overwintered && 3 <= version <= 6 then
      var (group, c) :- ReadLE(p, c, 4);
      if group == GroupId(version) then Ok(version, c) else Fail
    else Fail
  }

  function ReadV1(p: Bytes, c: nat): Read<Tx> {
    var (t, c) :- ReadTransparent(p, c);
    var (lockTime, c) :- Take(p, c, 4);
    Ok(V1(t, lockTime), c)
  }

  function ReadV2(p: Bytes, c: nat): Read<Tx> {
    var (t, c) :- ReadTransparent(p, c);
    var (lockTime, c) :- Take(p, c, 4);
    var (splits, c) :- ReadJoinSplits(p, c, BCTV14_JOINSPLIT_SIZE);
    Ok(V2(t, lockTime, splits), c)
  }

  function ReadV3(p: Bytes, c: nat): Read<Tx> {
    var (t, c) :- ReadTransparent(p, c);
    var (times, c) :- Take(p, c, 4 + 4);
    var (splits, c) :- ReadJoinSplits(p, c, BCTV14_JOINSPLIT_SIZE);
    Ok(V3(t, times, splits), c)
  }

  function ReadV4(p: Bytes, c: nat): Read<Tx> {
    var (t, c) :- ReadTransparent(p, c);
    var (times, c) :- Take(p, c, 4 + 4);
    var (shielded, c) :- ReadShieldedV4(p, c);
    Ok(V4(t, times, shielded), c)
  }

  function ReadV5(p: Bytes, c: nat): Read<Tx> {
    var (env, c) :- Take(p, c, 4 + 4 + 4);
    var (t, c) :- ReadTransparent(p, c);
    var (sapling, c) :- ReadSaplingV5(p, c);
    var (orchard, c) :- ReadOrchard(p, c);
    Ok(V5(env, t, sapling, orchard), c)
  }

  /** Version 6 is version 5 with a second Orchard-format bundle. */
  function ReadV6(p: Bytes, c: nat): Read<Tx> {
    var (v5, c) :- ReadV5(p, c);
    var (ironwood, c) :- ReadOrchard(p, c);
    Ok(V6(v5.env, v5.transparent, v5.sapling, v5.orchard, ironwood), c)
  }

  function ReadBody(p: Bytes, c: nat, version: nat): Read<Tx> {
    match version
    case 1 => ReadV1(p, c)
    case 2 => ReadV2(p, c)
    case 3 => ReadV3(p, c)
    case 4 => ReadV4(p, c)
    case 5 => ReadV5(p, c)
    case _ => ReadV6(p, c)
  }

  function ReadTx(p: Bytes, c: nat): Read<Tx> {
    var (version, c) :- ReadHeader(p, c);
    ReadBody(p, c, version)
  }

  lemma {:induction false} WordSound(p: Bytes, c: nat)
    ensures var r := ReadLE(p, c, 4);
            r.Ok? ==> r.value < 0x1_0000_0000 && At(p, c, ToLE(r.value, 4)) && |ToLE(r.value, 4)| == 4
                      && r.next == c + 4 <= |p|
  {
    if ReadLE(p, c, 4).Ok? {
      Widths();
      ToLEFromLE(p[c..c + 4]);
    }
  }

  lemma {:induction false} WordComplete(p: Bytes, c: nat, v: nat)
    requires v < 0x1_0000_0000 && At(p, c, ToLE(v, 4))
    ensures |ToLE(v, 4)| == 4 && ReadLE(p, c, 4) == Ok(v, c + 4)
  {
    Widths();
    FromLEToLE(v, 4);
  }

  lemma {:induction false} HeaderSound(p: Bytes, c: nat)
    ensures var r := ReadHeader(p, c);
            r.Ok? ==> 1 <= r.value <= 6 && At(p, c, EncodeHeader(r.value)) && r.next == c + |EncodeHeader(r.value)|
                      && c + 4 <= r.next <= |p|
  {
    hide ReadLE, ToLE, At;
    var r := ReadHeader(p, c);
    if r.Ok? {
      WordSound(p, c);
      if r.value > 2 {
        WordSound(p, c + 4);
        AtJoin(p, c, ToLE(OVERWINTERED_FLAG + r.value, 4), ToLE(GroupId(r.value), 4));
      }
    }
  }

  lemma {:induction false} HeaderComplete(p: Bytes, c: nat, version: nat)
    requires 1 <= version <= 6 && At(p, c, EncodeHeader(version))
    ensures ReadHeader(p, c) == Ok(version, c + |EncodeHeader(version)|)
  {
    hide ReadLE, ToLE, At;
    if version <= 2 {
      WordComplete(p, c, version);
    } else {
      AtJoin(p, c, ToLE(OVERWINTERED_FLAG + version, 4), ToLE(GroupId(version), 4));
      WordComplete(p, c, OVERWINTERED_FLAG + version);
      WordComplete(p, c + 4, GroupId(version));
    }
  }

  /** The first bytes of a transaction of each version, as section 7.1 of the Zcash Protocol
      Specification, ZIP 225 and ZIP 229 give them. */
  lemma HeaderBytes()
    ensures EncodeHeader(1) == [1, 0, 0, 0] && EncodeHeader(2) == [2, 0, 0, 0]
    ensures EncodeHeader(3) == [3, 0, 0, 0x80, 0x70, 0x82, 0xc4, 0x03]
    ensures EncodeHeader(4) == [4, 0, 0, 0x80, 0x85, 0x20, 0x2f, 0x89]
    ensures EncodeHeader(5) == [5, 0, 0, 0x80, 0x0a, 0x27, 0xa7, 0x26]
    ensures EncodeHeader(6) == [6, 0, 0, 0x80, 0x98, 0xb6, 0x84, 0xd8]
  {
    hide ToLE;
    FourBytes(1, 0, 0, 0);
    FourBytes(2, 0, 0, 0);
    FourBytes(3, 0, 0, 0x80);
    FourBytes(4, 0, 0, 0x80);
    FourBytes(5, 0, 0, 0x80);
    FourBytes(6, 0, 0, 0x80);
    FourBytes(0x70, 0x82, 0xc4, 0x03);
    FourBytes(0x85, 0x20, 0x2f, 0x89);
    FourBytes(0x0a, 0x27, 0xa7, 0x26);
    FourBytes(0x98, 0xb6, 0x84, 0xd8);
  }

  lemma {:induction false} FourBytes(a: Byte, b: Byte, c: Byte, d: Byte)
    ensures ToLE(a + 0x100 * b + 0x1_0000 * c + 0x100_0000 * d, 4) == [a, b, c, d]
  {
    assert ToLE(d, 1) == [d];
    assert ToLE(c + 0x100 * d, 2) == [c] + ToLE(d, 1);
    assert ToLE(b + 0x100 * (c + 0x100 * d), 3) == [b] + ToLE(c + 0x100 * d, 2);
    assert a + 0x100 * b + 0x1_0000 * c + 0x100_0000 * d == a + 0x100 * (b + 0x100 * (c + 0x100 * d));
    assert ToLE(a + 0x100 * (b + 0x100 * (c + 0x100 * d)), 4) == [a] + ToLE(b + 0x100 * (c + 0x100 * d), 3);
  }

  ghost predicate Sound(p: Bytes, c: nat, r: Read<Tx>) {
    r.Ok? ==> IsTx(r.value) && At(p, c, EncodeBody(r.value)) && r.next == c + |EncodeBody(r.value)|
  }

  lemma {:induction false} SplitsBodySound(p: Bytes, c: nat)
    ensures Sound(p, c, ReadV1(p, c)) && Sound(p, c, ReadV2(p, c)) && Sound(p, c, ReadV3(p, c))
  {
    hide ReadTransparent, EncodeTransparent, IsTransparent, ReadJoinSplits, EncodeJoinSplits, IsJoinSplits;
    var t := ReadTransparent(p, c);
    if t.Ok? {
      TransparentSound(p, c);
      var enc := EncodeTransparent(t.value);
      var lockTime, times := Take(p, t.next, 4), Take(p, t.next, 8);
      if lockTime.Ok? {
        AtJoin(p, c, enc, lockTime.value);
        JoinSplitsSound(p, lockTime.next, BCTV14_JOINSPLIT_SIZE);
        var splits := ReadJoinSplits(p, lockTime.next, BCTV14_JOINSPLIT_SIZE);
        if splits.Ok? {
          AtJoin(p, t.next, lockTime.value, EncodeJoinSplits(splits.value));
          AtJoin(p, c, enc, lockTime.value + EncodeJoinSplits(splits.value));
        }
      }
      if times.Ok? {
        JoinSplitsSound(p, times.next, BCTV14_JOINSPLIT_SIZE);
        var splits := ReadJoinSplits(p, times.next, BCTV14_JOINSPLIT_SIZE);
        if splits.Ok? {
          AtJoin(p, t.next, times.value, EncodeJoinSplits(splits.value));
          AtJoin(p, c, enc, times.value + EncodeJoinSplits(splits.value));
        }
      }
    }
  }

  lemma {:induction false} V4Sound(p: Bytes, c: nat)
    ensures Sound(p, c, ReadV4(p, c))
  {
    hide ReadTransparent, EncodeTransparent, IsTransparent, ReadShieldedV4, EncodeShieldedV4, IsShieldedV4;
    var r := ReadV4(p, c);
    if r.Ok? {
      var t, shielded := EncodeTransparent(r.value.transparent), EncodeShieldedV4(r.value.shielded);
      TransparentSound(p, c);
      ShieldedV4Sound(p, c + |t| + 8);
      AtJoin(p, c + |t|, r.value.times, shielded);
      AtJoin(p, c, t, r.value.times + shielded);
    }
  }

  lemma {:induction false} V5Sound(p: Bytes, c: nat)
    ensures Sound(p, c, ReadV5(p, c))
  {
    hide ReadTransparent, EncodeTransparent, IsTransparent, ReadSaplingV5, EncodeSaplingV5, IsSaplingV5, ReadOrchard,
         EncodeOrchard, IsOrchard;
    var r := ReadV5(p, c);
    if r.Ok? {
      var x, c1 := r.value, c + 12;
      var t, sapling, orchard := EncodeTransparent(x.transparent), EncodeSaplingV5(x.sapling), EncodeOrchard(x.orchard);
      TransparentSound(p, c1);
      SaplingV5Sound(p, c1 + |t|);
      OrchardSound(p, c1 + |t| + |sapling|);
      AtJoin(p, c1 + |t|, sapling, orchard);
      AtJoin(p, c1, t, sapling + orchard);
      AtJoin(p, c, x.env, t + (sapling + orchard));
    }
  }

  lemma {:induction false} V6Sound(p: Bytes, c: nat)
    ensures Sound(p, c, ReadV6(p, c))
  {
    hide ReadV5, EncodeTransparent, IsTransparent, EncodeSaplingV5, IsSaplingV5, ReadOrchard, EncodeOrchard, IsOrchard;
    var r := ReadV6(p, c);
    if r.Ok? {
      V5Sound(p, c);
      var v5 := ReadV5(p, c).value;
      OrchardSound(p, ReadV5(p, c).next);
      V5IsV5(p, c);
      var env, t, s, o, i := v5.env, EncodeTransparent(v5.transparent), EncodeSaplingV5(v5.sapling),
        EncodeOrchard(v5.orchard), EncodeOrchard(r.value.ironwood);
      assert env + (t + (s + (o + i))) == (env + (t + (s + o))) + i;
      AtJoin(p, c, EncodeBody(v5), i);
    }
  }

  lemma {:induction false} V5IsV5(p: Bytes, c: nat)
    ensures ReadV5(p, c).Ok? ==> ReadV5(p, c).value.V5?
  {
    hide ReadTransparent, ReadSaplingV5, ReadOrchard;
  }

  lemma {:induction false} V1Complete(p: Bytes, c: nat, x: Tx)
    requires x.V1? && IsTx(x) && At(p, c, EncodeBody(x))
    ensures ReadV1(p, c) == Ok(x, c + |EncodeBody(x)|)
  {
    hide ReadTransparent, EncodeTransparent, IsTransparent;
    var t := EncodeTransparent(x.transparent);
    AtJoin(p, c, t, x.lockTime);
    TransparentComplete(p, c, x.transparent);
  }

  lemma {:induction false} V2Complete(p: Bytes, c: nat, x: Tx)
    requires x.V2? && IsTx(x) && At(p, c, EncodeBody(x))
    ensures ReadV2(p, c) == Ok(x, c + |EncodeBody(x)|)
  {
    hide ReadTransparent, EncodeTransparent, IsTransparent, ReadJoinSplits, EncodeJoinSplits, IsJoinSplits, At, Take;
    var t, splits := EncodeTransparent(x.transparent), EncodeJoinSplits(x.joinSplits);
    AtJoin(p, c, t, x.lockTime + splits);
    AtJoin(p, c + |t|, x.lockTime, splits);
    TakeAt(p, c + |t|, x.lockTime);
    TransparentComplete(p, c, x.transparent);
    JoinSplitsComplete(p, c + |t| + 4, BCTV14_JOINSPLIT_SIZE, x.joinSplits);
  }

  lemma {:induction false} V3Complete(p: Bytes, c: nat, x: Tx)
    requires x.V3? && IsTx(x) && At(p, c, EncodeBody(x))
    ensures ReadV3(p, c) == Ok(x, c + |EncodeBody(x)|)
  {
    hide ReadTransparent, EncodeTransparent, IsTransparent, ReadJoinSplits, EncodeJoinSplits, IsJoinSplits, At, Take;
    var t, splits := EncodeTransparent(x.transparent), EncodeJoinSplits(x.joinSplits);
    AtJoin(p, c, t, x.times + splits);
    AtJoin(p, c + |t|, x.times, splits);
    TakeAt(p, c + |t|, x.times);
    TransparentComplete(p, c, x.transparent);
    JoinSplitsComplete(p, c + |t| + 8, BCTV14_JOINSPLIT_SIZE, x.joinSplits);
  }

  lemma {:induction false} V4Complete(p: Bytes, c: nat, x: Tx)
    requires x.V4? && IsTx(x) && At(p, c, EncodeBody(x))
    ensures ReadV4(p, c) == Ok(x, c + |EncodeBody(x)|)
  {
    hide ReadTransparent, EncodeTransparent, IsTransparent, ReadShieldedV4, EncodeShieldedV4, IsShieldedV4, At, Take;
    var t, shielded := EncodeTransparent(x.transparent), EncodeShieldedV4(x.shielded);
    AtJoin(p, c, t, x.times + shielded);
    AtJoin(p, c + |t|, x.times, shielded);
    TakeAt(p, c + |t|, x.times);
    TransparentComplete(p, c, x.transparent);
    ShieldedV4Complete(p, c + |t| + 8, x.shielded);
  }

  lemma {:induction false} V5Complete(p: Bytes, c: nat, x: Tx)
    requires x.V5? && IsTx(x) && At(p, c, EncodeBody(x))
    ensures ReadV5(p, c) == Ok(x, c + |EncodeBody(x)|)
  {
    hide ReadTransparent, EncodeTransparent, IsTransparent, ReadSaplingV5, EncodeSaplingV5, IsSaplingV5, ReadOrchard,
         EncodeOrchard, IsOrchard;
    var c1, t := c + 12, EncodeTransparent(x.transparent);
    var sapling, orchard := EncodeSaplingV5(x.sapling), EncodeOrchard(x.orchard);
    AtJoin(p, c, x.env, t + (sapling + orchard));
    AtJoin(p, c1, t, sapling + orchard);
    AtJoin(p, c1 + |t|, sapling, orchard);
    TransparentComplete(p, c1, x.transparent);
    SaplingV5Complete(p, c1 + |t|, x.sapling);
    OrchardComplete(p, c1 + |t| + |sapling|, x.orchard);
  }

  lemma {:induction false} V6Complete(p: Bytes, c: nat, x: Tx)
    requires x.V6? && IsTx(x) && At(p, c, EncodeBody(x))
    ensures ReadV6(p, c) == Ok(x, c + |EncodeBody(x)|)
  {
    hide ReadV5, EncodeTransparent, IsTransparent, EncodeSaplingV5, IsSaplingV5, ReadOrchard, EncodeOrchard, IsOrchard;
    var v5 := V5(x.env, x.transparent, x.sapling, x.orchard);
    var env, t, s, o, i := v5.env, EncodeTransparent(v5.transparent), EncodeSaplingV5(v5.sapling),
      EncodeOrchard(v5.orchard), EncodeOrchard(x.ironwood);
    assert env + (t + (s + (o + i))) == (env + (t + (s + o))) + i;
    AtJoin(p, c, EncodeBody(v5), i);
    V5Complete(p, c, v5);
    OrchardComplete(p, c + |EncodeBody(v5)|, x.ironwood);
  }

  lemma {:induction false} BodySound(p: Bytes, c: nat, version: nat)
    requires 1 <= version <= 6
    ensures var r := ReadBody(p, c, version); Sound(p, c, r) && (r.Ok? ==> Version(r.value) == version)
  {
    hide Sound, ReadTransparent, ReadJoinSplits, ReadShieldedV4, ReadSaplingV5, ReadOrchard;
    SplitsBodySound(p, c);
    V4Sound(p, c);
    V5Sound(p, c);
    V6Sound(p, c);
  }

  lemma {:induction false} BodyComplete(p: Bytes, c: nat, x: Tx)
    requires IsTx(x) && At(p, c, EncodeBody(x))
    ensures ReadBody(p, c, Version(x)) == Ok(x, c + |EncodeBody(x)|)
  {
    hide At, IsTx, EncodeBody, ReadV1, ReadV2, ReadV3, ReadV4, ReadV5, ReadV6;
    match x
    case V1(_, _) => V1Complete(p, c, x);
    case V2(_, _, _) => V2Complete(p, c, x);
    case V3(_, _, _) => V3Complete(p, c, x);
    case V4(_, _, _) => V4Complete(p, c, x);
    case V5(_, _, _, _) => V5Complete(p, c, x);
    case V6(_, _, _, _, _) => V6Complete(p, c, x);
  }

  /** Whatever is accepted at `c` is the encoding of a transaction, read to its end. */
  lemma {:induction false} TxSound(p: Bytes, c: nat)
    ensures var r := ReadTx(p, c);
            r.Ok? ==> IsTx(r.value) && At(p, c, EncodeTx(r.value)) && r.next == c + |EncodeTx(r.value)|
                      && c < r.next <= |p|
  {
    hide ReadHeader, EncodeHeader, ReadBody, EncodeBody, IsTx, At, Version;
    var r := ReadTx(p, c);
    if r.Ok? {
      HeaderSound(p, c);
      var h := ReadHeader(p, c);
      BodySound(p, h.next, h.value);
      AtJoin(p, c, EncodeHeader(h.value), EncodeBody(r.value));
      AtBounds(p, c, EncodeTx(r.value));
    }
  }

  lemma {:induction false} AtBounds(p: Bytes, c: nat, b: Bytes)
    requires At(p, c, b)
    ensures c + |b| <= |p|
  {
  }

  /** Every encoding at `c`, whatever follows it, is accepted and read to its end. */
  lemma {:induction false} TxComplete(p: Bytes, c: nat, x: Tx)
    requires IsTx(x) && At(p, c, EncodeTx(x))
    ensures ReadTx(p, c) == Ok(x, c + |EncodeTx(x)|)
  {
    hide ReadHeader, EncodeHeader, ReadBody, EncodeBody, IsTx, At;
    AtJoin(p, c, EncodeHeader(Version(x)), EncodeBody(x));
    HeaderComplete(p, c, Version(x));
    BodyComplete(p, c + |EncodeHeader(Version(x))|, x);
  }

  /** The result depends only on the bytes consumed: the same bytes anywhere in any
      payload are read the same way. */
  lemma {:induction false} TxLocal(p: Bytes, c: nat, x: Tx, e: nat, q: Bytes, d: nat)
    requires c <= e <= |p| && ReadTx(p, c) == Ok(x, e) && At(q, d, p[c..e])
    ensures ReadTx(q, d) == Ok(x, d + e - c)
  {
    hide ReadTx, EncodeTx, IsTx;
    TxSound(p, c);
    TxComplete(q, d, x);
  }

  /** No encoded transaction is a proper prefix of another, and none has two readings. */
  lemma {:induction false} TxPrefixFree(x: Tx, y: Tx)
    requires IsTx(x) && IsTx(y) && EncodeTx(x) <= EncodeTx(y)
    ensures x == y
  {
    hide ReadTx, EncodeTx, IsTx;
    TxComplete(EncodeTx(y), 0, x);
    TxComplete(EncodeTx(y), 0, y);
  }
}
