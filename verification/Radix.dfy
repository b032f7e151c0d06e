/** Byte strings read as numbers, the way a code stream is read: most significant
    byte first and, past its end, as if zero bytes went on for ever. */
module Radix {

  type byte = b: int | 0 <= b < 256

  function Pow2(k: nat): (p: nat)
    ensures 0 < p
  {
    if k == 0 then 1 else 2 * Pow2(k - 1)
  }

  lemma {:induction false} Pow2Add(j: nat, k: nat)
    ensures Pow2(j + k) == Pow2(j) * Pow2(k)
  {
    if j > 0 {
      Pow2Add(j - 1, k);
      assert Pow2(j + k) == 2 * (Pow2(j - 1) * Pow2(k));
    }
  }

  lemma Pow2Step(k: nat)
    ensures Pow2(k + 1) == 2 * Pow2(k)
  {
  }

  lemma Pow2Byte(k: nat)
    ensures Pow2(k + 8) == 256 * Pow2(k)
  {
    Pow2Add(8, k);
    assert Pow2(8) == 256;
  }

  lemma Pow2Values()
    ensures Pow2(0) == 1 && Pow2(8) == 0x100 && Pow2(11) == 0x800 && Pow2(16) == 0x10000
    ensures Pow2(15) == 0x8000 && Pow2(19) == 0x80000 && Pow2(27) == 0x8000000
  {
    Pow2Byte(0);
    Pow2Byte(7);
    Pow2Byte(8);
    Pow2Byte(11);
    Pow2Add(1, 7);
    Pow2Byte(19);
    Pow2Add(3, 8);
  }

  /** Pieces put together again. */
  function Flatten<T>(pieces: seq<seq<T>>): seq<T> {
    if pieces == [] then [] else pieces[0] + Flatten(pieces[1..])
  }

  lemma Concat<T>(x: seq<T>, y: seq<T>, z: seq<T>)
    ensures (x + y) + z == x + (y + z)
  {
  }

  function Digit(s: seq<byte>, i: nat): byte {
    if i < |s| then s[i] else 0
  }

  /** The number written by the first d digits of s. */
  function Prefix(s: seq<byte>, d: nat): nat {
    if d == 0 then 0 else Prefix(s, d - 1) * 256 + Digit(s, d - 1)
  }

  lemma PrefixStep(s: seq<byte>, d: nat)
    ensures Prefix(s, d + 1) == Prefix(s, d) * 256 + Digit(s, d)
  {
  }

  function Value(s: seq<byte>): nat { Prefix(s, |s|) }

  function Fill(b: byte, k: nat): (s: seq<byte>)
    ensures |s| == k
  {
    seq(k, _ => b)
  }

  lemma {:induction false} PrefixAgree(s: seq<byte>, t: seq<byte>, d: nat)
    requires forall i :: 0 <= i < d ==> Digit(s, i) == Digit(t, i)
    ensures Prefix(s, d) == Prefix(t, d)
  {
    if d > 0 { PrefixAgree(s, t, d - 1); }
  }

  /** Digits dropped from the end of the string do not matter when they are zero. */
  lemma PrefixDropZeros(s: seq<byte>, k: nat, d: nat)
    ensures Prefix(s + Fill(0, k), d) == Prefix(s, d)
  {
    PrefixAgree(s + Fill(0, k), s, d);
  }

  lemma {:induction false} PrefixBound(s: seq<byte>, d: nat)
    ensures Prefix(s, d) < Pow2(8 * d)
  {
    if d > 0 {
      PrefixBound(s, d - 1);
      Pow2Byte(8 * (d - 1));
    }
  }

  /** Reading past the end multiplies by the radix. */
  lemma {:induction false} PrefixPast(s: seq<byte>, d: nat)
    requires |s| <= d
    ensures Prefix(s, d) == Value(s) * Pow2(8 * (d - |s|))
    decreases d
  {
    if d > |s| {
      PrefixPast(s, d - 1);
      Pow2Byte(8 * (d - 1 - |s|));
      assert 8 * (d - 1 - |s|) + 8 == 8 * (d - |s|);
    }
  }

  lemma ValueSnoc(s: seq<byte>, b: byte)
    ensures Value(s + [b]) == Value(s) * 256 + b
  {
    PrefixAgree(s + [b], s, |s|);
  }

  /** A carry out of the last digit runs through the trailing 0xFF digits and is
      absorbed by the digit before them. */
  lemma {:induction false} Carry(s: seq<byte>, b: byte, k: nat)
    requires b < 0xFF
    ensures Value(s + [b] + Fill(0xFF, k)) + 1 == Value(s + [b + 1] + Fill(0, k))
  {
    if k == 0 {
      assert s + [b] + Fill(0xFF, 0) == s + [b] && s + [b + 1] + Fill(0, 0) == s + [b + 1];
      ValueSnoc(s, b);
      ValueSnoc(s, b + 1);
    } else {
      Carry(s, b, k - 1);
      assert s + [b] + Fill(0xFF, k) == s + [b] + Fill(0xFF, k - 1) + [0xFF];
      assert s + [b + 1] + Fill(0, k) == s + [b + 1] + Fill(0, k - 1) + [0];
      ValueSnoc(s + [b] + Fill(0xFF, k - 1), 0xFF);
      ValueSnoc(s + [b + 1] + Fill(0, k - 1), 0);
    }
  }

  /** A string of 0xFF digits is as large as its length allows, so it cannot take a carry. */
  lemma {:induction false} FullValue(k: nat)
    ensures Value(Fill(0xFF, k)) + 1 == Pow2(8 * k)
  {
    if k > 0 {
      FullValue(k - 1);
      assert Fill(0xFF, k) == Fill(0xFF, k - 1) + [0xFF];
      ValueSnoc(Fill(0xFF, k - 1), 0xFF);
      Pow2Byte(8 * (k - 1));
    }
  }

  lemma MulOrder(x: nat, y: nat, p: nat)
    requires x <= y
    ensures x * p <= y * p
    ensures x < y && 0 < p ==> x * p < y * p
  {
    assert y * p == x * p + (y - x) * p;
  }

  lemma Distribute(v: nat, p: nat, x: nat, q: nat)
    ensures (v * p + x) * q == v * (p * q) + x * q
  {
  }

  lemma {:induction false} Pow2Grows(j: nat, k: nat)
    requires j < k
    ensures 2 * Pow2(j) <= Pow2(k)
    decreases k
  {
    if j < k - 1 { Pow2Grows(j, k - 1); }
  }

  // ---- Shifts ----

  function Shr(v: nat, k: nat): nat
    decreases k
  {
    if k == 0 then v else Shr(v / 2, k - 1)
  }

  /** A right shift is the quotient by a power of two. */
  lemma {:induction false} ShrQuotient(v: nat, k: nat)
    ensures Shr(v, k) * Pow2(k) <= v < Shr(v, k) * Pow2(k) + Pow2(k)
    decreases k
  {
    if k > 0 {
      ShrQuotient(v / 2, k - 1);
      Double(Shr(v / 2, k - 1), Pow2(k - 1));
    }
  }

  lemma Double(q: nat, w: nat)
    ensures q * (2 * w) == 2 * (q * w)
  {
  }

  lemma ShrUnique(v: nat, k: nat, q: nat)
    requires q * Pow2(k) <= v < q * Pow2(k) + Pow2(k)
    ensures Shr(v, k) == q
  {
    hide Pow2, Shr;
    ShrQuotient(v, k);
    Squeeze(v, Pow2(k), Shr(v, k), q);
  }

  lemma Squeeze(v: nat, w: nat, x: nat, y: nat)
    requires x * w <= v < x * w + w && y * w <= v < y * w + w
    ensures x == y
  {
    if x < y { MulOrder(x + 1, y, w); }
    if y < x { MulOrder(y + 1, x, w); }
  }

  lemma {:induction false} ShrAdd(v: nat, j: nat, k: nat)
    ensures Shr(v, j + k) == Shr(Shr(v, j), k)
    decreases j
  {
    if j > 0 { ShrAdd(v / 2, j - 1, k); }
  }
}
