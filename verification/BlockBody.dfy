/** The strict reader of a block: it cuts a serialized block into transactions, checks them
    against the header, and what it accepts is what the relay forwards and submits. The
    two library readers it calls are parameters. */
module BlockBody {
  import opened Common
  import opened Wire
  import opened Merkle
  import opened BlockParser

  /** What the CompactSize reader makes of some bytes. */
  datatype Count = Count(value: nat, consumed: nat)

  type CountReader = Bytes -> Option<Count>

  /** It takes the shortest encoding of a 64-bit value and no other, as the tests of the
      strict reader require of it. */
  ghost predicate Canonical(readCount: CountReader) {
    forall b :: TakesShortest(readCount, b)
  }

  ghost predicate TakesShortest(readCount: CountReader, b: Bytes) {
    readCount(b).Some? ==>
      var c := readCount(b).value;
      c.value < Pow256(8) && c.consumed <= |b| && b[..c.consumed] == EncodeCompact(Minimal(c.value))
  }

  /** The transaction reader reads from the front, and what it makes of the bytes it
      consumes does not depend on what follows them. */
  ghost predicate Sequential(read: Reader) {
    forall b :: ReadsFront(read, b)
  }

  ghost predicate ReadsFront(read: Reader, b: Bytes) {
    read(b).Some? ==> var n := read(b).value.consumed; n <= |b| && read(b[..n]) == read(b)
  }

  datatype Checks = Checks(readCount: CountReader, read: Reader, pair: PairHash, digest: Bytes -> Hash)

  datatype Outcome = Cut(boundaries: seq<Range>) | Refused(error: BodyError)

  // ---------------------------------------------------------------------------
  // Transactions in a row

  /** `n` transactions from `c` on. */
  function ReadMany(read: Reader, body: Bytes, c: nat, n: nat): Read<seq<Parsed>>
    decreases n
  {
    if n == 0 then Ok([], c) else
      var (before, c) :- ReadMany(read, body, c, n - 1);
      if c > |body| || read(body[c..]).None? then Fail
      else var tx := read(body[c..]).value; Ok(before + [tx], c + tx.consumed)
  }

  function IdsOf(txs: seq<Parsed>): seq<Hash> {
    seq(|txs|, i requires 0 <= i < |txs| => txs[i].id)
  }

  /** Where they lie, starting at `c`. */
  function Cuts(c: nat, txs: seq<Parsed>): seq<Range> {
    if txs == [] then [] else
      var n := |txs| - 1;
      Cuts(c, txs[..n]) + [Range(c + Sum(txs[..n]), c + Sum(txs))]
  }

  function Sum(txs: seq<Parsed>): nat {
    if txs == [] then 0 else Sum(txs[..|txs| - 1]) + txs[|txs| - 1].consumed
  }

  lemma {:induction false} ManyFails(read: Reader, body: Bytes, c: nat, m: nat, n: nat)
    requires m <= n && ReadMany(read, body, c, m).Fail?
    ensures ReadMany(read, body, c, n).Fail?
    decreases n
  {
    if m < n {
      ManyFails(read, body, c, m, n - 1);
    }
  }

  lemma {:induction false} ManyAdvances(read: Reader, body: Bytes, c: nat, n: nat)
    requires Sequential(read) && c <= |body|
    ensures var r := ReadMany(read, body, c, n); r.Ok? ==> |r.value| == n && r.next == c + Sum(r.value) <= |body|
    decreases n
  {
    var r := ReadMany(read, body, c, n);
    if n > 0 && r.Ok? {
      ManyAdvances(read, body, c, n - 1);
      assert ReadsFront(read, body[ReadMany(read, body, c, n - 1).next..]);
      assert r.value[..n - 1] == ReadMany(read, body, c, n - 1).value;
    }
  }

  // ---------------------------------------------------------------------------
  // The strict reader

  /** The body is one: a canonical count, that many transactions to the last byte, no id
      twice, and the root of the header. */
  ghost predicate Accepted(raw: Bytes, checks: Checks) {
    && ZCASH_FULL_HEADER_SIZE <= |raw| <= MAX_BLOCK_BYTES
    && var body := raw[ZCASH_FULL_HEADER_SIZE..];
    var count := checks.readCount(body);
    && count.Some? && count.value.value >= 1
    && var txs := ReadMany(checks.read, body, count.value.consumed, count.value.value);
    txs.Ok? && txs.next == |body| && CommittedTo(raw, txs.value, checks)
  }

  /** No id repeats, and the header commits to them. */
  ghost predicate CommittedTo(raw: Bytes, txs: seq<Parsed>, checks: Checks)
    requires |raw| >= ZCASH_FULL_HEADER_SIZE
  {
    && txs != [] && Distinct(IdsOf(txs))
    && Eval(checks.pair, Top(Leaves(IdsOf(txs)))) == checks.digest(raw[..ZCASH_FULL_HEADER_SIZE][36..68])
  }

  lemma {:induction false} AcceptedSize(raw: Bytes, checks: Checks)
    requires Accepted(raw, checks)
    ensures ZCASH_FULL_HEADER_SIZE <= |raw| && checks.readCount(raw[ZCASH_FULL_HEADER_SIZE..]).Some?
  {
  }

  /** What an error of the loop over the transactions, or of the checks after it, says
      about the body. */
  ghost predicate Explains(error: BodyError, raw: Bytes, count: Count, checks: Checks)
    requires |raw| >= ZCASH_FULL_HEADER_SIZE
  {
    var body := raw[ZCASH_FULL_HEADER_SIZE..];
    var all := ReadMany(checks.read, body, count.consumed, count.value);
    match error
    case Transaction(i) =>
      var before := ReadMany(checks.read, body, count.consumed, i);
      i < count.value && before.Ok? && Distinct(IdsOf(before.value))
        && ReadMany(checks.read, body, count.consumed, i + 1).Fail?
    case DuplicateTxid(i) =>
      exists n :: 0 <= n <= count.value && ReadMany(checks.read, body, count.consumed, n).Ok?
                  && FirstRepeat(IdsOf(ReadMany(checks.read, body, count.consumed, n).value), i)
    case MerkleMismatch => all.Ok? && Distinct(IdsOf(all.value)) && !CommittedTo(raw, all.value, checks)
    case TrailingBytes(n) => all.Ok? && CommittedTo(raw, all.value, checks) && n == |body| - all.next > 0
    case _ => false
  }

  /** `read_checked`: it accepts exactly the bodies, returns where their transactions lie,
      and each refusal names its cause. A repeat is named before an unreadable transaction,
      and trailing bytes only after everything else is right. */
  method ReadChecked(raw: Bytes, checks: Checks) returns (r: Outcome)
    requires Canonical(checks.readCount) && Sequential(checks.read)
    ensures r.Cut? <==> Accepted(raw, checks)
    ensures r.Cut? ==>
              var body := raw[ZCASH_FULL_HEADER_SIZE..];
              var count := checks.readCount(body).value;
              r.boundaries == Cuts(ZCASH_FULL_HEADER_SIZE + count.consumed,
                                   ReadMany(checks.read, body, count.consumed, count.value).value)
    ensures r == Refused(TooLarge(|raw|)) <==> |raw| > MAX_BLOCK_BYTES
    ensures r == Refused(InvalidHeaderLength) <==> |raw| < ZCASH_FULL_HEADER_SIZE
    ensures ZCASH_FULL_HEADER_SIZE <= |raw| <= MAX_BLOCK_BYTES ==>
              var count := checks.readCount(raw[ZCASH_FULL_HEADER_SIZE..]);
              && (r == Refused(InvalidCount) <==> count.None?)
              && (r == Refused(EmptyTransactions) <==> count.Some? && count.value.value == 0)
              && (r.Refused? && count.Some? && count.value.value >= 1 ==> Explains(r.error, raw, count.value, checks))
  {
    hide Eval, Top, Leaves, EncodeCompact;
    if |raw| > MAX_BLOCK_BYTES {
      return Refused(TooLarge(|raw|));
    }
    if |raw| < ZCASH_FULL_HEADER_SIZE {
      return Refused(InvalidHeaderLength);
    }
    var body := raw[ZCASH_FULL_HEADER_SIZE..];
    var count := checks.readCount(body);
    assert TakesShortest(checks.readCount, body);
    if count.None? {
      return Refused(InvalidCount);
    }
    if count.value.value == 0 {
      return Refused(EmptyTransactions);
    }
    r := ReadTransactions(raw, body, count.value, checks);
  }

  /** One turn of the loop. */
  lemma {:induction false} ManyStep(read: Reader, body: Bytes, c: nat, i: nat, seen: seq<Parsed>, cursor: nat)
    requires Sequential(read) && c <= |body| && cursor <= |body| && ReadMany(read, body, c, i) == Ok(seen, cursor)
    ensures var tx := read(body[cursor..]);
            if tx.None? then ReadMany(read, body, c, i + 1).Fail?
            else
              && ReadMany(read, body, c, i + 1) == Ok(seen + [tx.value], cursor + tx.value.consumed)
              && cursor + tx.value.consumed <= |body|
              && IdsOf(seen + [tx.value]) == IdsOf(seen) + [tx.value.id]
              && var h := ZCASH_FULL_HEADER_SIZE;
              Cuts(h + c, seen + [tx.value]) == Cuts(h + c, seen) + [Range(h + cursor, h + cursor + tx.value.consumed)]
  {
    ManyAdvances(read, body, c, i);
    ManyAdvances(read, body, c, i + 1);
    var tx := read(body[cursor..]);
    if tx.Some? {
      assert (seen + [tx.value])[..|seen|] == seen;
    }
  }

  lemma {:induction false} NoneYet(read: Reader, body: Bytes, c: nat)
    ensures ReadMany(read, body, c, 0) == Ok([], c) && IdsOf([]) == [] && Cuts(ZCASH_FULL_HEADER_SIZE + c, []) == []
  {
  }

  method ReadTransactions(raw: Bytes, body: Bytes, count: Count, checks: Checks) returns (r: Outcome)
    requires Sequential(checks.read) && |raw| >= ZCASH_FULL_HEADER_SIZE && body == raw[ZCASH_FULL_HEADER_SIZE..]
    requires count.consumed <= |body| && count.value >= 1
    ensures var all := ReadMany(checks.read, body, count.consumed, count.value);
            && (r.Cut? <==> all.Ok? && all.next == |body| && CommittedTo(raw, all.value, checks))
            && (r.Cut? ==> r.boundaries == Cuts(ZCASH_FULL_HEADER_SIZE + count.consumed, all.value))
            && (r.Refused? ==> Explains(r.error, raw, count, checks))
  {
    hide Eval, Top, Leaves, Sequential, CommittedTo, Explains, Cuts, ReadMany, IdsOf, FirstRepeat, Distinct;
    var boundaries: seq<Range>, ids: seq<Hash>, cursor: nat, i := [], [], count.consumed, 0;
    ghost var seen: seq<Parsed> := [];
    NoneYet(checks.read, body, count.consumed);
    while i < count.value
      invariant 0 <= i == |seen| <= count.value && cursor <= |body|
      invariant ReadMany(checks.read, body, count.consumed, i) == Ok(seen, cursor)
      invariant ids == IdsOf(seen) && boundaries == Cuts(ZCASH_FULL_HEADER_SIZE + count.consumed, seen)
    {
      ManyStep(checks.read, body, count.consumed, i, seen, cursor);
      var tx := checks.read(body[cursor..]);
      if tx.None? {
        ManyFails(checks.read, body, count.consumed, i + 1, count.value);
        var repeated := FirstRepeatedTxid(ids);
        StoppedAt(raw, count, checks, i, repeated);
        return Refused(if repeated.Some? then DuplicateTxid(repeated.value) else Transaction(i));
      }
      var start := ZCASH_FULL_HEADER_SIZE + cursor;
      boundaries := boundaries + [Range(start, start + tx.value.consumed)];
      ids := ids + [tx.value.id];
      seen := seen + [tx.value];
      cursor := cursor + tx.value.consumed;
      i := i + 1;
    }
    IdsLength(seen);
    var checked := CheckTxids(raw[..ZCASH_FULL_HEADER_SIZE], ids, checks.pair, checks.digest);
    CheckedMeans(raw, count, checks, seen, cursor, checked);
    if checked.Bad? {
      return Refused(checked.error);
    }
    if cursor != |body| {
      return Refused(TrailingBytes(|body| - cursor));
    }
    return Cut(boundaries);
  }

  lemma {:induction false} IdsLength(txs: seq<Parsed>)
    ensures |IdsOf(txs)| == |txs|
  {
  }

  /** The loop stopped at transaction `i`. */
  lemma {:induction false} StoppedAt(raw: Bytes, count: Count, checks: Checks, i: nat, repeated: Option<nat>)
    requires |raw| >= ZCASH_FULL_HEADER_SIZE && i < count.value
    requires var body := raw[ZCASH_FULL_HEADER_SIZE..];
             var before := ReadMany(checks.read, body, count.consumed, i);
             && before.Ok? && ReadMany(checks.read, body, count.consumed, i + 1).Fail?
             && (if repeated.Some? then FirstRepeat(IdsOf(before.value), repeated.value)
               else Distinct(IdsOf(before.value)))
    ensures Explains(if repeated.Some? then DuplicateTxid(repeated.value) else Transaction(i), raw, count, checks)
  {
    hide ReadMany, IdsOf, FirstRepeat, Distinct;
  }

  /** The loop went through, and the ids were checked. */
  lemma {:induction false} CheckedMeans(raw: Bytes, count: Count, checks: Checks, seen: seq<Parsed>, cursor: nat,
                                        checked: Checked)
    requires |raw| >= ZCASH_FULL_HEADER_SIZE && seen != [] && cursor <= |raw| - ZCASH_FULL_HEADER_SIZE
    requires ReadMany(checks.read, raw[ZCASH_FULL_HEADER_SIZE..], count.consumed, count.value) == Ok(seen, cursor)
    requires var ids, root := IdsOf(seen), checks.digest(raw[..ZCASH_FULL_HEADER_SIZE][36..68]);
             && (checked.Valid? <==> Distinct(ids) && Eval(checks.pair, Top(Leaves(ids))) == root)
             && (checked.Bad? ==> || (checked.error.DuplicateTxid? && FirstRepeat(ids, checked.error.index))
                                  || (checked.error.MerkleMismatch? && Distinct(ids)))
    ensures checked.Valid? <==> CommittedTo(raw, seen, checks)
    ensures checked.Bad? ==> Explains(checked.error, raw, count, checks)
    ensures checked.Valid? && cursor < |raw| - ZCASH_FULL_HEADER_SIZE ==>
              Explains(TrailingBytes(|raw| - ZCASH_FULL_HEADER_SIZE - cursor), raw, count, checks)
  {
    hide ReadMany, IdsOf, FirstRepeat, Distinct, Eval, Top;
    IdsLength(seen);
  }
}
