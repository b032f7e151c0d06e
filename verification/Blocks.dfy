/** Blocks of DCT coefficients: their values, the point transform, and the buffers they are
    decoded into. */
module Blocks {
  import opened Radix

  function Abs(v: int): nat { if v < 0 then -v else v }

  type Block = b: seq<int> | |b| == 64 && forall i :: 0 <= i < 64 ==> -0x8000 <= b[i] < 0x8000
    witness seq(64, _ => 0)

  /** natural_order: a permutation of the 64 positions that starts with the DC coefficient. */
  type Order = o: seq<nat> | |o| == 64 && o[0] == 0 && (forall i :: 0 <= i < 64 ==> o[i] < 64)
      && (forall i, j :: 0 <= i < j < 64 ==> o[i] != o[j])
    witness seq(64, i requires 0 <= i < 64 => i)

  /** natural_order has extra entries that point to the last coefficient. */
  function Natural(order: Order, k: nat): (p: nat)
    ensures p < 64
  {
    if k < 64 then order[k] else 63
  }

  /** The point transform of AC coefficients, which drops al bits of the magnitude. */
  function Shrink(v: int, al: nat): (r: int)
    ensures v == 0 ==> r == 0
  {
    if v < 0 then -((-v) / Pow2(al)) else v / Pow2(al)
  }

  /** The point transform of DC coefficients: an arithmetic right shift. */
  function ShiftRight(v: int, al: nat): int { v / Pow2(al) }

  function ZigZag(block: Block, order: Order, al: nat): (z: seq<int>)
    ensures |z| == 64
  {
    seq(64, k requires 0 <= k < 64 => Shrink(block[order[k]], al))
  }

  lemma ShiftRightRange(v: int, al: nat)
    requires -0x8000 <= v < 0x8000
    ensures -0x8000 <= ShiftRight(v, al) < 0x8000
  {
    var p, q := Pow2(al), ShiftRight(v, al);
    assert p * q <= v < p * q + p;
    if q >= 0x8000 { MulOrder(0x8000, q, p); }
    if q < -0x8000 { MulOrder(0x8001, -q, p); }
  }

  lemma ShrinkRange(v: int, al: nat)
    requires -0x8000 <= v < 0x8000
    ensures Abs(Shrink(v, al)) <= Abs(v)
  {
    hide Pow2;
    QuotientBound(Abs(v), Pow2(al));
  }

  lemma QuotientBound(v: nat, p: nat)
    requires 0 < p
    ensures v / p <= v
  {
    MulOrder(1, p, v / p);
    assert v == p * (v / p) + v % p;
  }

  /** A coefficient with its low al bits of magnitude missing. */
  function Coarse(v: int, al: nat): int {
    if v < 0 then -(Shr(-v, al) * Pow2(al)) else Shr(v, al) * Pow2(al)
  }

  lemma HalfShr(v: nat, al: nat)
    ensures Shr(v, al + 1) == Shr(v, al) / 2
  {
    ShrAdd(v, al, 1);
  }

  lemma ShrinkIsShr(v: int, al: nat)
    requires -0x8000 <= v < 0x8000
    ensures Shrink(v, al) * Pow2(al) == Coarse(v, al) && -0x8000 <= Coarse(v, al) < 0x8000
  {
    hide Pow2, Shr;
    ShrQuotient(Abs(v), al);
    ShrIsDiv(Abs(v), al);
    if v < 0 { Minus(Shr(-v, al), Pow2(al)); }
  }

  lemma Minus(x: nat, p: nat)
    ensures (0 - x) * p == 0 - x * p
  {
  }

  lemma ShrIsDiv(v: nat, al: nat)
    ensures v / Pow2(al) == Shr(v, al)
  {
    hide Pow2, Shr;
    var p := Pow2(al);
    var q := v / p;
    assert v == q * p + v % p;
    ShrUnique(v, al, q);
  }

  lemma NothingMissing(v: int)
    ensures Coarse(v, 0) == v
  {
    assert Pow2(0) == 1 && Shr(Abs(v), 0) == Abs(v);
  }

  /** A conversion to the 16-bit type of coefficients. */
  function Jcoef(v: int): (r: int)
    ensures -0x8000 <= r < 0x8000
    ensures -0x8000 <= v < 0x8000 ==> r == v
  {
    (v + 0x8000) % 0x10000 - 0x8000
  }

  /** The block in zigzag order. */
  ghost function Zag(block: array<int>, order: Order): (z: seq<int>)
    requires block.Length == 64
    reads block
    ensures |z| == 64
  {
    seq(64, k requires 0 <= k < 64 reads block => block[order[k]])
  }

  /** The same for a block as a value. */
  function Zagged(block: seq<int>, order: Order): (z: seq<int>)
    requires |block| == 64
    ensures |z| == 64
  {
    seq(64, k requires 0 <= k < 64 => block[order[k]])
  }

  function UpTo(n: nat): (s: set<nat>)
    ensures |s| == n && forall p: nat :: p in s <==> p < n
  {
    if n == 0 then {} else UpTo(n - 1) + {n - 1}
  }

  function Image(order: Order, n: nat): (s: set<nat>)
    requires n <= 64
    ensures |s| == n && forall p :: p in s ==> exists k :: 0 <= k < n && order[k] == p
  {
    if n == 0 then {} else Image(order, n - 1) + {order[n - 1]}
  }

  lemma SubsetSize<T>(a: set<T>, b: set<T>)
    requires a <= b && |a| == |b|
    ensures a == b
  {
    assert b == a + (b - a) && |b| == |a| + |b - a|;
    assert b - a == {};
  }

  /** Every position of a block is somewhere in the zigzag order. */
  lemma OrderOnto(order: Order, p: nat) returns (k: nat)
    requires p < 64
    ensures k < 64 && order[k] == p
  {
    SubsetSize(Image(order, 64), UpTo(64));
    assert p in Image(order, 64);
    k :| 0 <= k < 64 && order[k] == p;
  }

  /** A band of z scaled back to full precision, over a block that was zero there. */
  function Grown(before: seq<int>, z: seq<int>, al: nat, lo: nat, hi: nat): (r: seq<int>)
    requires |before| == |z| == 64 && lo <= 64
  {
    seq(64, k requires 0 <= k < 64 => if lo <= k < hi && z[k] != 0 then Jcoef(z[k] * Pow2(al)) else before[k])
  }

  predicate Distinct(blocks: seq<array<int>>) {
    (forall b :: 0 <= b < |blocks| ==> blocks[b].Length == 64) &&
    (forall b, b' :: 0 <= b < b' < |blocks| ==> blocks[b] != blocks[b'])
  }

  function Zeros(): (s: seq<int>)
    ensures |s| == 64
  {
    seq(64, _ => 0)
  }

  /** n zeroed block buffers. */
  method NewBlocks(n: nat) returns (blocks: seq<array<int>>)
    ensures |blocks| == n && Distinct(blocks)
    ensures forall b :: 0 <= b < n ==> fresh(blocks[b]) && blocks[b][..] == Zeros()
  {
    blocks := [];
    for i := 0 to n
      invariant |blocks| == i && Distinct(blocks)
      invariant forall b :: 0 <= b < i ==> fresh(blocks[b]) && allocated(blocks[b]) && blocks[b][..] == Zeros()
    {
      var block := new int[64](_ => 0);
      assert block[..] == Zeros();
      blocks := blocks + [block];
    }
  }

  /** The blocks as values, in zigzag order. */
  method Collect(blocks: seq<array<int>>, order: Order) returns (got: seq<seq<int>>)
    requires Distinct(blocks)
    ensures |got| == |blocks|
    ensures forall b :: 0 <= b < |blocks| ==> got[b] == Zag(blocks[b], order)
  {
    got := [];
    for i := 0 to |blocks|
      invariant |got| == i && forall b :: 0 <= b < i ==> got[b] == Zag(blocks[b], order)
    {
      var block := blocks[i][..];
      var z := seq(64, k requires 0 <= k < 64 => block[order[k]]);
      assert z == Zag(blocks[i], order);
      got := got + [z];
    }
  }
}
