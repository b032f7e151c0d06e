/** Bit strings, most significant bit first; reading past the end gives zeros. */
module Bits {
  import opened Radix

  /** The number made of the next k bits. */
  function Peek(s: seq<bool>, k: nat): nat {
    if k == 0 then 0 else 2 * Peek(s, k - 1) + (if k <= |s| && s[k - 1] then 1 else 0)
  }

  /** The last n bits of v. */
  function BitsOf(v: nat, n: nat): (s: seq<bool>)
    ensures |s| == n
    decreases n
  {
    if n == 0 then [] else BitsOf(v / 2, n - 1) + [v % 2 == 1]
  }

  lemma {:induction false} PeekBound(s: seq<bool>, k: nat)
    ensures Peek(s, k) < Pow2(k)
  {
    if k > 0 { PeekBound(s, k - 1); }
  }

  lemma {:induction false} PeekAgree(s: seq<bool>, t: seq<bool>, k: nat)
    requires forall i :: 0 <= i < k ==> (i < |s| && s[i]) == (i < |t| && t[i])
    ensures Peek(s, k) == Peek(t, k)
  {
    if k > 0 { PeekAgree(s, t, k - 1); }
  }

  /** Bits written are bits read. */
  lemma {:induction false} PeekBitsOf(v: nat, n: nat, rest: seq<bool>)
    requires v < Pow2(n)
    ensures Peek(BitsOf(v, n) + rest, n) == v
    decreases n
  {
    if n > 0 {
      PeekBitsOf(v / 2, n - 1, []);
      assert BitsOf(v / 2, n - 1) + [] == BitsOf(v / 2, n - 1);
      PeekAgree(BitsOf(v, n) + rest, BitsOf(v / 2, n - 1), n - 1);
    }
  }

  /** A shorter look ahead is the front of a longer one. */
  lemma {:induction false} PeekShr(s: seq<bool>, k: nat, j: nat)
    ensures Shr(Peek(s, k + j), j) == Peek(s, k)
    decreases j
  {
    if j > 0 {
      assert Peek(s, k + j) / 2 == Peek(s, k + j - 1);
      PeekShr(s, k, j - 1);
    }
  }

  // ---- Writing ----

  lemma {:induction false} BitsShr(v: nat, n: nat, k: nat)
    ensures BitsOf(v, n + k) == BitsOf(Shr(v, k), n) + BitsOf(v, k)
    decreases k
  {
    if k > 0 {
      BitsShr(v / 2, n, k - 1);
      assert BitsOf(v, n + k) == BitsOf(v / 2, n + (k - 1)) + [v % 2 == 1];
    }
  }

  /** Only the low bits of a number are written. */
  lemma {:induction false} BitsDrop(w: nat, x: nat, k: nat)
    ensures BitsOf(w * Pow2(k) + x, k) == BitsOf(x, k)
    decreases k
  {
    if k > 0 {
      var y := w * Pow2(k) + x;
      assert w * Pow2(k) == 2 * (w * Pow2(k - 1)) by { Distribute(w, 2, 0, Pow2(k - 1)); }
      assert y / 2 == w * Pow2(k - 1) + x / 2 && y % 2 == x % 2;
      BitsDrop(w, x / 2, k - 1);
    }
  }

  /** Appending n more bits to a number. */
  lemma BitsAppend(w: nat, j: nat, c: nat, n: nat)
    requires c < Pow2(n)
    ensures BitsOf(w * Pow2(n) + c, j + n) == BitsOf(w, j) + BitsOf(c, n)
  {
    ShrUnique(w * Pow2(n) + c, n, w);
    BitsShr(w * Pow2(n) + c, j, n);
    BitsDrop(w, c, n);
  }

  function ByteBits(data: seq<byte>): (s: seq<bool>)
    ensures |s| == 8 * |data|
  {
    if data == [] then [] else ByteBits(data[..|data| - 1]) + BitsOf(data[|data| - 1], 8)
  }

  lemma ByteBitsSnoc(data: seq<byte>, b: byte)
    ensures ByteBits(data + [b]) == ByteBits(data) + BitsOf(b, 8)
  {
    assert (data + [b])[..|data|] == data;
  }

  lemma {:induction false} ByteBitsAppend(x: seq<byte>, y: seq<byte>)
    ensures ByteBits(x + y) == ByteBits(x) + ByteBits(y)
    decreases y
  {
    if y == [] {
      assert x + y == x;
    } else {
      hide BitsOf;
      var n := |y| - 1;
      assert (x + y)[..|x + y| - 1] == x + y[..n];
      ByteBitsAppend(x, y[..n]);
      Concat(ByteBits(x), ByteBits(y[..n]), BitsOf(y[n], 8));
    }
  }

  // ---- Reading on ----

  /** Dropping k bits, where zeros follow the end. */
  function Skip(s: seq<bool>, k: nat): seq<bool> {
    if k <= |s| then s[k..] else []
  }

  lemma {:induction false} PeekSkip(s: seq<bool>, k: nat, n: nat)
    ensures Peek(s, k + n) == Peek(s, k) * Pow2(n) + Peek(Skip(s, k), n)
  {
    hide Pow2;
    Pow2Values();
    if n > 0 {
      PeekSkip(s, k, n - 1);
      Pow2Step(n - 1);
      Distribute(Peek(s, k), Pow2(n - 1), Peek(Skip(s, k), n - 1), 2);
    }
  }

  /** Taking the top n bits of a buffer that holds k bits. */
  lemma PeekBuffer(v: nat, k: nat, n: nat, rest: seq<bool>)
    requires n <= k
    ensures Peek(BitsOf(v, k) + rest, n) == Shr(v, k - n) % Pow2(n)
    ensures BitsOf(v, k)[n..] == BitsOf(v, k - n)
  {
    hide Pow2, BitsOf, Peek, Shr;
    var x := Shr(v, k - n);
    BitsShr(v, n, k - n);
    LowBits(x, n);
    PeekBitsOf(x % Pow2(n), n, BitsOf(v, k - n) + rest);
    assert BitsOf(v, k) + rest == BitsOf(x, n) + (BitsOf(v, k - n) + rest);
  }

  lemma LowBits(x: nat, n: nat)
    ensures BitsOf(x, n) == BitsOf(x % Pow2(n), n)
  {
    hide Pow2, BitsOf;
    var q := DivMod(x, Pow2(n));
    BitsDrop(q, x % Pow2(n), n);
  }

  lemma DivMod(x: nat, p: nat) returns (q: nat)
    requires 0 < p
    ensures x == q * p + x % p
  {
    q := x / p;
  }
}
