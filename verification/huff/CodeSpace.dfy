/** The code space that the codes of a table take up, from the numbers of codes of each length. */
module CodeSpace {
  import opened Radix
  import opened HuffmanSums

  const MAX_CLEN := 32

  /** The code space taken up by bits[k] codes of each length k below n, in units of codes of
      length top. */
  function Space(bits: seq<nat>, top: nat, n: nat): nat
    requires n <= |bits| && n <= top + 1
  {
    if n == 0 then 0 else Space(bits, top, n - 1) + bits[n - 1] * Pow2(top - (n - 1))
  }

  lemma {:induction false} SpaceUpdate(bits: seq<nat>, top: nat, k: nat, v: nat, n: nat)
    requires n <= |bits| && n <= top + 1 && k < n
    ensures Space(bits[k := v], top, n) + bits[k] * Pow2(top - k) == Space(bits, top, n) + v * Pow2(top - k)
    decreases n
  {
    hide Pow2;
    if k < n - 1 { SpaceUpdate(bits, top, k, v, n - 1); } else { SpaceSame(bits, bits[k := v], top, n - 1); }
  }

  lemma {:induction false} SpaceSame(bits: seq<nat>, bits': seq<nat>, top: nat, n: nat)
    requires n <= |bits| && n <= |bits'| && n <= top + 1 && forall k :: 0 <= k < n ==> bits[k] == bits'[k]
    ensures Space(bits, top, n) == Space(bits', top, n)
  {
    hide Pow2;
    if n > 0 { SpaceSame(bits, bits', top, n - 1); }
  }

  lemma {:induction false} SpaceAbove(bits: seq<nat>, top: nat, m: nat, n: nat)
    requires m <= n <= |bits| && n <= top + 1 && forall k :: m <= k < n ==> bits[k] == 0
    ensures Space(bits, top, n) == Space(bits, top, m)
    decreases n
  {
    hide Pow2;
    if m < n { SpaceAbove(bits, top, m, n - 1); }
  }

  lemma Factor(x: nat, y: nat, p: nat)
    ensures x * p + y * p == (x + y) * p
  {
  }

  /** A complete code over few symbols: what the merging leaves and the limiting keeps. */
  predicate Full(bits: seq<nat>, n: nat) {
    |bits| == MAX_CLEN + 1 && bits[0] == 0 && Sum(bits, MAX_CLEN + 1) == n && Space(bits, MAX_CLEN, MAX_CLEN + 1) == Pow2(MAX_CLEN)
  }

  /** The rewriting step of section K.2 of ITU-T T.81: two codes of length i and one of length j go, one of
      length i - 1 and two of length j + 1 come. */
  function Rewritten(bits: seq<nat>, i: nat, j: nat): (r: seq<nat>)
    requires |bits| == MAX_CLEN + 1 && 16 < i <= MAX_CLEN && 1 <= j <= i - 2 && bits[i] >= 2 && bits[j] >= 1
    ensures |r| == MAX_CLEN + 1
  {
    var b1 := bits[i := bits[i] - 2];
    var b2 := b1[i - 1 := b1[i - 1] + 1];
    var b3 := b2[j + 1 := b2[j + 1] + 2];
    b3[j := b3[j] - 1]
  }

  lemma {:induction false} SpaceScale(bits: seq<nat>, n: nat)
    requires n <= 17 <= |bits|
    ensures Space(bits, MAX_CLEN, n) == Space(bits, 16, n) * Pow2(16)
  {
    hide Pow2;
    if n > 0 {
      SpaceScale(bits, n - 1);
      Pow2Add(16 - (n - 1), 16);
      assert 16 - (n - 1) + 16 == MAX_CLEN - (n - 1);
      Distribute(bits[n - 1], Pow2(16 - (n - 1)), 0, Pow2(16));
      Factor(Space(bits, 16, n - 1), bits[n - 1] * Pow2(16 - (n - 1)), Pow2(16));
    }
  }

  lemma Cancel(x: nat, y: nat, p: nat)
    requires 0 < p && x * p == y * p
    ensures x == y
  {
    if x < y { MulOrder(x, y, p); }
    if y < x { MulOrder(y, x, p); }
  }

  lemma {:induction false} SumAbove(f: seq<nat>, m: nat, n: nat)
    requires m <= n <= |f| && forall k :: m <= k < n ==> f[k] == 0
    ensures Sum(f, n) == Sum(f, m)
    decreases n
  {
    if m < n { SumAbove(f, m, n - 1); }
  }
}
