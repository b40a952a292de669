/** Inventory messages: a counted list of typed hashes. An entry of type MSG_WTX has a
    second digest, as in the Specification section of ZIP 239. */
module Inventory {
  import opened Common
  import opened Wire
  import opened BlockParser

  const MSG_TX := 1
  const MSG_BLOCK := 2
  const MSG_FILTERED_BLOCK := 3
  const MSG_WTX := 5
  const MAX_ENTRIES := 50_000

  /** `hash` and `auth` are 32 bytes each; see `IsTyped`. */
  datatype Item = Item(kind: nat, hash: Bytes, auth: Option<Bytes>)

  function Zeros(): Bytes {
    seq(32, i => 0)
  }

  /** The types this node speaks. */
  predicate Known(kind: nat) {
    kind == MSG_TX || kind == MSG_BLOCK || kind == MSG_FILTERED_BLOCK || kind == MSG_WTX
  }

  ghost predicate AllKnown(items: seq<Item>) {
    forall i :: 0 <= i < |items| ==> Known(items[i].kind)
  }

  /** A 32-bit type and 32-byte digests, as the source's type says. */
  ghost predicate IsTyped(x: Item) {
    x.kind < Pow256(4) && |x.hash| == 32 && (x.auth.Some? ==> |x.auth.value| == 32)
  }

  ghost predicate AllTyped(items: seq<Item>) {
    forall i :: 0 <= i < |items| ==> IsTyped(items[i])
  }

  /** What an entry means on the wire: a transaction announced by both digests without
      the second one counts as having a zero one, and nothing else has one. */
  function Normal(x: Item): Item {
    x.(auth := if x.kind == MSG_WTX then Some(if x.auth.Some? then x.auth.value else Zeros()) else None)
  }

  function Normals(items: seq<Item>): seq<Item> {
    if items == [] then [] else [Normal(items[0])] + Normals(items[1..])
  }

  function EncodeItem(x: Item): Bytes {
    ToLE(x.kind, 4) + x.hash + (if x.kind == MSG_WTX then (if x.auth.Some? then x.auth.value else Zeros()) else [])
  }

  function EncodeItems(items: seq<Item>): Bytes {
    if items == [] then [] else EncodeItems(items[..|items| - 1]) + EncodeItem(items[|items| - 1])
  }

  /** `encode_inventory`. */
  method EncodeInventory(items: seq<Item>) returns (out: Bytes)
    ensures out == EncodeCompact(Minimal(|items|)) + EncodeItems(items)
  {
    hide ToLE, EncodeCompact, Zeros;
    out := EncodeCompact(Minimal(|items|));
    var i := 0;
    while i < |items|
      invariant 0 <= i <= |items|
      invariant out == EncodeCompact(Minimal(|items|)) + EncodeItems(items[..i])
    {
      var item := items[i];
      assert items[..i + 1][..i] == items[..i];
      ghost var before := out;
      out := out + ToLE(item.kind, 4);
      out := out + item.hash;
      if item.kind == MSG_WTX {
        out := out + if item.auth.Some? then item.auth.value else Zeros();
      }
      assert out == before + EncodeItem(item);
      i := i + 1;
    }
    assert items[..i] == items;
  }

  function ReadItem(p: Bytes, c: nat): Read<Item> {
    var (kind, c) :- ReadLE(p, c, 4);
    var (hash, c) :- Take(p, c, 32);
    if !Known(kind) then Fail
    else if kind != MSG_WTX then Ok(Item(kind, hash, None), c)
    else
      var (auth, c) :- Take(p, c, 32);
      Ok(Item(kind, hash, Some(auth)), c)
  }

  function ReadItems(p: Bytes, c: nat, n: nat): Read<seq<Item>>
    decreases n
  {
    if n == 0 then Ok([], c) else
      var (xs, c) :- ReadItems(p, c, n - 1);
      var (x, c) :- ReadItem(p, c);
      Ok(xs + [x], c)
  }

  /** Once an entry fails, so does every longer list. */
  lemma {:induction false} FailureStays(p: Bytes, c: nat, m: nat, n: nat)
    requires m <= n && ReadItems(p, c, m).Fail?
    ensures ReadItems(p, c, n).Fail?
    decreases n
  {
    if m < n {
      FailureStays(p, c, m, n - 1);
    }
  }

  /** `parse_inventory`, which ignores bytes after the last entry. */
  method ParseInventory(payload: Bytes) returns (r: Option<seq<Item>>)
    requires |payload| <= USIZE_MAX
    ensures var count := ReadCompact(payload, 0);
            if count.Fail? || count.value.value > MAX_ENTRIES then r == None
            else
              var items := ReadItems(payload, count.next, count.value.value);
              r == if items.Ok? then Some(items.value) else None
  {
    hide ReadItem, ReadCompact;
    var count := DecodeCompactSize(payload, 0);
    if count.Fail? || count.value > MAX_ENTRIES {
      return None;
    }
    var items: seq<Item>, cursor: nat, i := [], count.next, 0;
    while i < count.value
      invariant 0 <= i <= count.value && cursor <= |payload|
      invariant ReadItems(payload, count.next, i) == Ok(items, cursor)
    {
      var item := ParseItem(payload, cursor);
      if item.Fail? {
        FailureStays(payload, count.next, i + 1, count.value);
        return None;
      }
      items, cursor, i := items + [item.value], item.next, i + 1;
    }
    return Some(items);
  }

  method ParseItem(payload: Bytes, cursor: nat) returns (r: Read<Item>)
    requires cursor <= |payload| <= USIZE_MAX
    ensures r == ReadItem(payload, cursor)
    ensures r.Ok? ==> r.next <= |payload|
  {
    var kind := ReadWord(payload, cursor, 4);
    if kind.Fail? {
      return Fail;
    }
    var end := SkipBytes(payload, kind.next, 32);
    if end.None? {
      return Fail;
    }
    var hash := payload[kind.next..end.value];
    if kind.value == MSG_WTX {
      var last := SkipBytes(payload, end.value, 32);
      if last.None? {
        return Fail;
      }
      return Ok(Item(kind.value, hash, Some(payload[end.value..last.value])), last.value);
    }
    if !Known(kind.value) {
      return Fail;
    }
    return Ok(Item(kind.value, hash, None), end.value);
  }

  // ---------------------------------------------------------------------------
  // Soundness and the round trip

  /** A transaction (1), a block (2) or a filtered block (3) with one digest, or a
      transaction announced by both (5) with two. */
  ghost predicate IsNormal(x: Item) {
    (x.auth.None? && (x.kind == 1 || x.kind == 2 || x.kind == 3)) || (x.auth.Some? && x.kind == 5)
  }

  lemma NormalForm(x: Item)
    ensures IsNormal(x) <==> Known(x.kind) && Normal(x) == x
    ensures x.kind == 5 && x.auth.None? ==> Normal(x).auth == Some(seq(32, i => 0))
  {
  }

  /** Whatever is accepted is a known type in normal form, encoded where it was read. */
  lemma {:induction false} ItemSound(p: Bytes, c: nat)
    ensures var r := ReadItem(p, c);
            r.Ok? ==> IsNormal(r.value) && At(p, c, EncodeItem(r.value)) && r.next == c + |EncodeItem(r.value)|
  {
    var r := ReadItem(p, c);
    if r.Ok? {
      ToLEFromLE(p[c..c + 4]);
      var x := r.value;
      assert p[c..c + 36] == ToLE(x.kind, 4) + x.hash;
      if x.kind == MSG_WTX {
        assert p[c..c + 68] == p[c..c + 36] + x.auth.value;
      }
    }
  }

  /** So an accepted payload starts with the encoding of what was returned. */
  lemma {:induction false} ItemsSound(p: Bytes, c: nat, n: nat)
    requires c <= |p|
    ensures var r := ReadItems(p, c, n);
            r.Ok? ==> |r.value| == n && At(p, c, EncodeItems(r.value)) && r.next == c + |EncodeItems(r.value)|
                      && forall i :: 0 <= i < n ==> IsNormal(r.value[i])
    decreases n
  {
    hide ReadItem, EncodeItem, IsNormal;
    var r := ReadItems(p, c, n);
    if n > 0 && r.Ok? {
      ItemsSound(p, c, n - 1);
      var before := ReadItems(p, c, n - 1);
      ItemSound(p, before.next);
      assert r.value[..n - 1] == before.value;
      AtJoin(p, c, EncodeItems(before.value), EncodeItem(r.value[n - 1]));
    }
  }

  /** An encoded entry is read back in its normal form, if its type is known. */
  lemma {:induction false} ItemComplete(p: Bytes, c: nat, x: Item)
    requires IsTyped(x) && At(p, c, EncodeItem(x))
    ensures ReadItem(p, c) == if Known(x.kind) then Ok(Normal(x), c + |EncodeItem(x)|) else Fail
  {
    var auth := if x.kind == MSG_WTX then Normal(x).auth.value else [];
    FromLEToLE(x.kind, 4);
    AtJoin(p, c, ToLE(x.kind, 4) + x.hash, auth);
    AtJoin(p, c, ToLE(x.kind, 4), x.hash);
  }

  lemma {:induction false} ItemsComplete(p: Bytes, c: nat, items: seq<Item>)
    requires AllTyped(items) && At(p, c, EncodeItems(items))
    ensures ReadItems(p, c, |items|) == if AllKnown(items) then Ok(Normals(items), c + |EncodeItems(items)|) else Fail
    decreases |items|
  {
    hide ReadItem, EncodeItem, Normal, Known;
    if items != [] {
      var n := |items| - 1;
      var earlier, x := items[..n], items[n];
      AtJoin(p, c, EncodeItems(earlier), EncodeItem(x));
      ItemsComplete(p, c, earlier);
      ItemComplete(p, c + |EncodeItems(earlier)|, x);
      assert items == earlier + [x];
      NormalsSnoc(earlier, x);
      assert AllKnown(items) <==> AllKnown(earlier) && Known(x.kind);
    }
  }

  lemma {:induction false} NormalsSnoc(items: seq<Item>, x: Item)
    ensures Normals(items + [x]) == Normals(items) + [Normal(x)]
  {
    hide Normal;
    if items == [] {
      assert items + [x] == [x] && Normals([x][1..]) == [];
    } else {
      assert (items + [x])[1..] == items[1..] + [x];
      NormalsSnoc(items[1..], x);
    }
  }

  lemma {:induction false} NormalsAt(items: seq<Item>)
    ensures |Normals(items)| == |items| && forall i :: 0 <= i < |items| ==> Normals(items)[i] == Normal(items[i])
  {
    hide Normal;
    if items != [] {
      NormalsAt(items[1..]);
    }
  }

  /** Encoded and parsed again, whatever follows: refused exactly when the list is too
      long or has an unknown type, and otherwise returned in normal form. So it comes
      back unchanged exactly when it is short enough and every entry is of a known type
      with its second digest there if and only if the type is MSG_WTX. */
  method EncodeThenParse(items: seq<Item>, suffix: Bytes) returns (r: Option<seq<Item>>)
    requires AllTyped(items) && |items| <= USIZE_MAX
             && |EncodeCompact(Minimal(|items|)) + EncodeItems(items) + suffix| <= USIZE_MAX
    ensures r == if |items| <= MAX_ENTRIES && AllKnown(items) then Some(Normals(items)) else None
    ensures r == Some(items) <==> |items| <= MAX_ENTRIES && forall i :: 0 <= i < |items| ==> IsNormal(items[i])
  {
    hide EncodeItems, ReadItems, EncodeCompact, ReadCompact, Normals, Known, Normal, IsNormal;
    forall i | 0 <= i < |items| ensures IsNormal(items[i]) <==> Known(items[i].kind) && Normal(items[i]) == items[i] {
      NormalForm(items[i]);
    }
    var encoded := EncodeInventory(items);
    r := ParseInventory(encoded + suffix);
    Parsed(items, encoded + suffix);
    NormalsAt(items);
    if r.Some? {
      assert r == Some(items) ==> forall i :: 0 <= i < |items| ==> Normals(items)[i] == items[i];
      assert (forall i :: 0 <= i < |items| ==> IsNormal(items[i])) ==> Normals(items) == items;
    }
  }

  lemma {:induction false} Parsed(items: seq<Item>, p: Bytes)
    requires AllTyped(items) && |items| <= USIZE_MAX
    requires At(p, 0, EncodeCompact(Minimal(|items|)) + EncodeItems(items))
    ensures var count := ReadCompact(p, 0);
            count.Ok? && count.value.value == |items|
            && ReadItems(p, count.next, |items|).Ok? == AllKnown(items)
            && (AllKnown(items) ==> ReadItems(p, count.next, |items|).value == Normals(items))
  {
    hide EncodeItems, ReadItems, EncodeCompact, ReadCompact, Normals;
    Widths();
    MinimalIsCompact(|items|);
    AtJoin(p, 0, EncodeCompact(Minimal(|items|)), EncodeItems(items));
    CompactComplete(p, 0, Minimal(|items|));
    ItemsComplete(p, |EncodeCompact(Minimal(|items|))|, items);
  }
}
