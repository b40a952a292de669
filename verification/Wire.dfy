/** Bytes on the wire: fixed-width integers and CompactSize integers, each with its
    reader and its writer. */
module Wire {
  import opened Common

  type Byte = x: int | 0 <= x < 256

  type Bytes = seq<Byte>

  const ZCASH_FULL_HEADER_SIZE := 1487

  /** What a reader leaves: an error, or a value and the new cursor. */
  datatype Read<+T> = Fail | Ok(value: T, next: nat) {
    predicate IsFailure() {
      Fail?
    }
    function PropagateFailure<U>(): Read<U>
      requires Fail?
    {
      Fail
    }
    function Extract(): (T, nat)
      requires Ok?
    {
      (value, next)
    }
    function Next(): Option<nat> {
      if Ok? then Some(next) else None
    }
  }

  // ---------------------------------------------------------------------------
  // Bytes at a place in a payload

  /** `b` stands at position `c` of `p`. */
  predicate At(p: Bytes, c: nat, b: Bytes) {
    c + |b| <= |p| && p[c..c + |b|] == b
  }

  lemma {:induction false} AtJoin(p: Bytes, c: nat, a: Bytes, b: Bytes)
    ensures At(p, c, a + b) <==> At(p, c, a) && At(p, c + |a|, b)
  {
    if At(p, c, a + b) {
      assert p[c..c + |a|] == p[c..c + |a + b|][..|a|];
      assert p[c + |a|..c + |a| + |b|] == p[c..c + |a + b|][|a|..];
    }
    if At(p, c, a) && At(p, c + |a|, b) {
      assert p[c..c + |a + b|] == p[c..c + |a|] + p[c + |a|..c + |a| + |b|];
    }
  }

  function Take(p: Bytes, c: nat, n: nat): Read<Bytes> {
    if c + n <= |p| then Ok(p[c..c + n], c + n) else Fail
  }

  // ---------------------------------------------------------------------------
  // Fixed-width integers

  function Pow256(n: nat): nat {
    if n == 0 then 1 else 256 * Pow256(n - 1)
  }

  function FromLE(b: Bytes): nat {
    if b == [] then 0 else b[0] + 256 * FromLE(b[1..])
  }

  function ToLE(v: nat, n: nat): Bytes {
    if n == 0 then [] else [v % 256] + ToLE(v / 256, n - 1)
  }

  lemma {:induction false} ToLEFromLE(b: Bytes)
    ensures FromLE(b) < Pow256(|b|) && ToLE(FromLE(b), |b|) == b
  {
    if b != [] {
      ToLEFromLE(b[1..]);
    }
  }

  lemma {:induction false} FromLEToLE(v: nat, n: nat)
    requires v < Pow256(n)
    ensures |ToLE(v, n)| == n && FromLE(ToLE(v, n)) == v
  {
    if n > 0 {
      FromLEToLE(v / 256, n - 1);
      assert ToLE(v, n)[1..] == ToLE(v / 256, n - 1);
    }
  }

  lemma {:induction false} Widths()
    ensures Pow256(1) == 0x100 && Pow256(2) == 0x1_0000 && Pow256(4) == 0x1_0000_0000
    ensures Pow256(8) == 0x1_0000_0000_0000_0000
  {
    assert Pow256(2) == 256 * Pow256(1);
    assert Pow256(4) == 256 * 256 * Pow256(2);
    assert Pow256(6) == 256 * 256 * Pow256(4);
    assert Pow256(8) == 256 * 256 * Pow256(6);
  }

  function ReadLE(p: Bytes, c: nat, n: nat): Read<nat> {
    var (b, c) :- Take(p, c, n);
    Ok(FromLE(b), c)
  }

  // ---------------------------------------------------------------------------
  // CompactSize

  /** A CompactSize as written: a value and how many bytes follow the first one. The
      same value can be written in several widths. */
  datatype Compact = Compact(value: nat, extra: nat)

  predicate IsCompact(n: Compact) {
    if n.extra == 0 then n.value <= 252
    else (n.extra == 2 || n.extra == 4 || n.extra == 8) && n.value < Pow256(n.extra)
  }

  function EncodeCompact(n: Compact): Bytes {
    if n.extra == 0 then [n.value % 256]
    else [if n.extra == 2 then 0xfd else if n.extra == 4 then 0xfe else 0xff] + ToLE(n.value, n.extra)
  }

  /** The width the encoder picks. */
  function Minimal(v: nat): Compact {
    Compact(v, if v < 0xfd then 0 else if v <= 0xffff then 2 else if v <= 0xffff_ffff then 4 else 8)
  }

  lemma MinimalIsCompact(v: nat)
    requires v < Pow256(8)
    ensures IsCompact(Minimal(v))
    ensures forall n: Compact :: IsCompact(n) && n.value == v ==> Minimal(v).extra <= n.extra
  {
    Widths();
  }

  function ReadCompact(p: Bytes, c: nat): Read<Compact> {
    var (first, c) :- Take(p, c, 1);
    if first[0] <= 252 then Ok(Compact(first[0], 0), c) else
      var extra := if first[0] == 0xfd then 2 else if first[0] == 0xfe then 4 else 8;
      var (v, c) :- ReadLE(p, c, extra);
      Ok(Compact(v, extra), c)
  }

  /** Whatever the reader accepts is an encoding, and it stops at its end. */
  lemma {:induction false} CompactSound(p: Bytes, c: nat)
    ensures var r := ReadCompact(p, c);
            r.Ok? ==> IsCompact(r.value) && At(p, c, EncodeCompact(r.value)) && r.next == c + |EncodeCompact(r.value)|
                      && |EncodeCompact(r.value)| == 1 + r.value.extra
  {
    var r := ReadCompact(p, c);
    if r.Ok? && r.value.extra != 0 {
      var body := p[c + 1..r.next];
      ToLEFromLE(body);
      AtJoin(p, c, [p[c]], body);
    }
  }

  /** The reader accepts every encoding, in whatever width and whatever follows. */
  lemma {:induction false} CompactComplete(p: Bytes, c: nat, n: Compact)
    requires IsCompact(n) && At(p, c, EncodeCompact(n))
    ensures |EncodeCompact(n)| == 1 + n.extra && ReadCompact(p, c) == Ok(n, c + 1 + n.extra)
  {
    var e := EncodeCompact(n);
    assert p[c] == e[0];
    if n.extra != 0 {
      FromLEToLE(n.value, n.extra);
      AtJoin(p, c, [e[0]], ToLE(n.value, n.extra));
    }
  }
}
