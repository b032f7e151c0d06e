/** Huffman tables as JPEG stores them: how many codes there are of each length, and the
    symbols in code order.  Codes are read as left-justified 16-bit numbers, so that the
    codes of a table cut the range below 2^16 into consecutive intervals. */
module HuffCode {
  import opened Radix

  /** bits[l] codes of length l (entry 0 is unused), and the symbols by increasing length. */
  datatype HuffTbl = HuffTbl(bits: seq<byte>, huffval: seq<byte>)

  type Table = t: HuffTbl | |t.bits| == 17 && |t.huffval| == 256
    witness HuffTbl(seq(17, _ => 0), seq(256, _ => 0))

  /** Figure C.1: the code lengths in order, up to length l. */
  function Sizes(bits: seq<byte>, l: nat): (s: seq<nat>)
    requires |bits| == 17 && l <= 16
    ensures forall p :: 0 <= p < |s| ==> 1 <= s[p] <= l
  {
    if l == 0 then [] else Sizes(bits, l - 1) + seq(bits[l], _ => l)
  }

  predicate Ascending(sz: seq<nat>) {
    (forall p :: 0 <= p < |sz| ==> 1 <= sz[p] <= 16) &&
    (forall p, q :: 0 <= p <= q < |sz| ==> sz[p] <= sz[q])
  }

  lemma {:induction false} SizesAscending(bits: seq<byte>, l: nat)
    requires |bits| == 17 && l <= 16
    ensures Ascending(Sizes(bits, l))
  {
    if l > 0 { SizesAscending(bits, l - 1); }
  }

  /** The share of the code space in front of code p: the left-justified code. */
  function Lj(sz: seq<nat>, p: nat): (c: nat)
    requires Ascending(sz) && p <= |sz|
  {
    if p == 0 then 0 else Lj(sz, p - 1) + Pow2(16 - sz[p - 1])
  }

  lemma {:induction false} LjMonotone(sz: seq<nat>, p: nat, q: nat)
    requires Ascending(sz) && p <= q <= |sz|
    ensures Lj(sz, p) <= Lj(sz, q)
    ensures p < q ==> Lj(sz, p) + Pow2(16 - sz[p]) <= Lj(sz, q)
    decreases q
  {
    if p < q { LjMonotone(sz, p, q - 1); }
  }

  /** Figure C.2: the code of the p'th symbol. */
  function Code(sz: seq<nat>, p: nat): nat
    requires Ascending(sz) && p < |sz|
  {
    Shr(Lj(sz, p), 16 - sz[p])
  }

  /** In front of a code of length k or more, the shares are whole multiples of its share. */
  lemma {:induction false} LjAligned(sz: seq<nat>, p: nat, k: nat) returns (q: nat)
    requires Ascending(sz) && p <= |sz| && k <= 16 && (p > 0 ==> sz[p - 1] <= k)
    ensures Lj(sz, p) == q * Pow2(16 - k)
  {
    hide Pow2;
    q := 0;
    if p > 0 {
      var s := sz[p - 1];
      q := LjAligned(sz, p - 1, k);
      assert 16 - s == (16 - k) + (k - s);
      Pow2Add(16 - k, k - s);
      Distribute(q, 1, Pow2(k - s), Pow2(16 - k));
      q := q + Pow2(k - s);
    }
  }

  /** A code is a whole number of its own length. */
  lemma CodeExact(sz: seq<nat>, p: nat)
    requires Ascending(sz) && p < |sz|
    ensures Code(sz, p) * Pow2(16 - sz[p]) == Lj(sz, p)
  {
    hide Pow2, Shr, Lj;
    var q := LjAligned(sz, p, sz[p]);
    ShrUnique(Lj(sz, p), 16 - sz[p], q);
  }

  /** The code words leave at least the all-ones code of the greatest length unused. */
  predicate Fits(sz: seq<nat>) {
    Ascending(sz) && |sz| <= 256 && Lj(sz, |sz|) < Pow2(16)
  }
}
