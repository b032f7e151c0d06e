/** The code lengths that jpeg_gen_optimal_table ends up with: counted, limited to 16 bits, and
    without the pseudo-symbol that keeps the all-ones code free. */
module LengthLimit {
  import opened Radix
  import opened HuffCode
  import opened HuffmanSums
  import opened HuffmanTree
  import opened CodeSpace
  import opened LimitedCode

  /** Codes shorter than i take up whole multiples of the space of a code of length i - 1. */
  lemma {:induction false} SpaceMultiple(bits: seq<nat>, top: nat, i: nat, n: nat) returns (q: nat)
    requires n <= i <= |bits| && i <= top + 1 && 1 <= i
    ensures Space(bits, top, n) == q * Pow2(top - (i - 1))
  {
    hide Pow2;
    q := 0;
    if n > 0 {
      var r := SpaceMultiple(bits, top, i, n - 1);
      Pow2Add(i - n, top - (i - 1));
      assert i - n + (top - (i - 1)) == top - (n - 1);
      Distribute(bits[n - 1], Pow2(i - n), 0, Pow2(top - (i - 1)));
      Factor(r, bits[n - 1] * Pow2(i - n), Pow2(top - (i - 1)));
      q := r + bits[n - 1] * Pow2(i - n);
    }
  }

  /** If no code is shorter than lo, each takes up at most the space of a code of length lo. */
  lemma {:induction false} SpaceAtMost(bits: seq<nat>, top: nat, lo: nat, n: nat)
    requires n <= |bits| && n <= top + 1 && lo <= top && forall k :: 0 <= k < n && k < lo ==> bits[k] == 0
    ensures Space(bits, top, n) <= Sum(bits, n) * Pow2(top - lo)
  {
    hide Pow2;
    if n > 0 {
      SpaceAtMost(bits, top, lo, n - 1);
      var k := n - 1;
      if k >= lo {
        Shorter(top, lo, k);
        MulOrder(Pow2(top - k), Pow2(top - lo), bits[k]);
      }
      Factor(Sum(bits, n - 1), bits[k], Pow2(top - lo));
    }
  }

  lemma Shorter(top: nat, lo: nat, k: nat)
    requires lo <= k <= top
    ensures Pow2(top - k) <= Pow2(top - lo)
  {
    if lo < k { Pow2Grows(top - k, top - lo); }
  }

  // ---- Counting ----

  lemma {:induction false} HalfPow(n: nat, top: nat)
    requires n <= top
    ensures Half(n) * (Pow2(top) as real) == Pow2(top - n) as real
  {
    if n > 0 {
      HalfPow(n - 1, top);
      assert Pow2(top - (n - 1)) == 2 * Pow2(top - n);
    }
  }

  /** How many of the symbols below n have codes of length l. */
  function CountOf(cs: seq<nat>, l: nat, n: nat): nat
    requires n <= |cs|
  {
    if n == 0 then 0 else CountOf(cs, l, n - 1) + if cs[n - 1] == l then 1 else 0
  }

  /** How many codes there are of each length. */
  predicate Histogram(bits: seq<nat>, cs: seq<nat>, n: nat)
    requires n <= |cs|
  {
    |bits| == MAX_CLEN + 1 && bits[0] == 0 && forall l :: 1 <= l <= MAX_CLEN ==> bits[l] == CountOf(cs, l, n)
  }

  /** The lengths of the symbols below i have been counted. */
  predicate CountedTo(bits: seq<nat>, cs: seq<nat>, used: seq<bool>, i: nat) {
    && |cs| == |used| == SYMBOLS && i <= SYMBOLS && |bits| == 33 && bits[0] == 0 && Histogram(bits, cs, i)
    && Sum(bits, 33) == UsedBelow(used, i)
    && Space(bits, MAX_CLEN, 33) as real == KraftUsed(cs, used, i) * (Pow2(MAX_CLEN) as real)
  }

  /** A histogram of the code lengths; there is no room for a length over 32. */
  method CountLengths(codesize: array<nat>, ghost used: seq<bool>, ghost total: nat) returns (ok: bool, bits: array<nat>)
    requires codesize.Length == SYMBOLS && CodeOk(codesize[..], used, total)
    ensures ok <==> forall s :: 0 <= s < SYMBOLS ==> codesize[s] <= MAX_CLEN
    ensures fresh(bits) && (ok ==> Full(bits[..], UsedBelow(used, SYMBOLS)) && Histogram(bits[..], codesize[..], SYMBOLS))
  {
    hide Pow2, Half, Sum, Space, UsedBelow, KraftUsed, CountedTo, Full;
    ghost var cs := codesize[..];
    bits := new nat[33](_ => 0);
    CountNone(bits[..], cs, used);
    ok := true;
    for i := 0 to 257
      invariant bits.Length == 33 && codesize[..] == cs && ok && CountedTo(bits[..], cs, used, i)
      invariant forall s :: 0 <= s < i ==> cs[s] <= MAX_CLEN
    {
      ghost var b := bits[..];
      CountStep(cs, used, i, b);
      if codesize[i] != 0 {
        if codesize[i] > MAX_CLEN { return false, bits; }
        bits[codesize[i]] := bits[codesize[i]] + 1;
        assert bits[..] == b[cs[i] := b[cs[i]] + 1];
      }
    }
    CountAll(bits[..], cs, used, total);
  }

  lemma CountNone(bits: seq<nat>, cs: seq<nat>, used: seq<bool>)
    requires |bits| == 33 && |cs| == |used| == SYMBOLS && forall k :: 0 <= k < 33 ==> bits[k] == 0
    ensures CountedTo(bits, cs, used, 0)
  {
    hide Pow2;
    Empty(bits, MAX_CLEN, 33);
  }

  lemma CountAll(bits: seq<nat>, cs: seq<nat>, used: seq<bool>, total: nat)
    requires CountedTo(bits, cs, used, SYMBOLS) && CodeOk(cs, used, total)
    ensures Full(bits, UsedBelow(used, SYMBOLS)) && Histogram(bits, cs, SYMBOLS)
  {
    hide Pow2, Sum, Space, UsedBelow, KraftUsed;
  }

  /** One more symbol. */
  lemma CountStep(cs: seq<nat>, used: seq<bool>, i: nat, b: seq<nat>)
    requires i < SYMBOLS && CountedTo(b, cs, used, i) && (used[i] <==> cs[i] > 0)
    ensures |b| == 33 && (cs[i] <= MAX_CLEN ==>
      CountedTo(if cs[i] > 0 then b[cs[i] := b[cs[i]] + 1] else b, cs, used, i + 1))
  {
    hide Pow2, Half, Sum, Space, Histogram;
    var k := cs[i];
    if k <= MAX_CLEN { HistogramStep(cs, i, b); }
    if 0 < k <= MAX_CLEN {
      SumUpdate(b, k, b[k] + 1, 33);
      SpaceUpdate(b, MAX_CLEN, k, b[k] + 1, 33);
      Factor(b[k], 1, Pow2(MAX_CLEN - k));
      HalfPow(k, MAX_CLEN);
      FactorReal(KraftUsed(cs, used, i), Half(k), Pow2(MAX_CLEN) as real);
    }
  }

  lemma HistogramStep(cs: seq<nat>, i: nat, b: seq<nat>)
    requires i < |cs| && |b| == 33 && Histogram(b, cs, i) && cs[i] <= MAX_CLEN
    ensures Histogram(if cs[i] > 0 then b[cs[i] := b[cs[i]] + 1] else b, cs, i + 1)
  {
  }

  lemma FactorReal(x: real, y: real, p: real)
    ensures (x + y) * p == x * p + y * p
  {
  }

  lemma {:induction false} Empty(bits: seq<nat>, top: nat, n: nat)
    requires n <= |bits| && n <= top + 1 && forall k :: 0 <= k < n ==> bits[k] == 0
    ensures Sum(bits, n) == 0 && Space(bits, top, n) == 0
  {
    if n > 0 { Empty(bits, top, n - 1); }
  }

  // ---- Limiting ----

  /** The longest codes of a complete code come in pairs. */
  lemma LongestEven(bits: seq<nat>, n: nat, i: nat)
    requires Full(bits, n) && 1 <= i <= MAX_CLEN && forall k :: i < k <= MAX_CLEN ==> bits[k] == 0
    ensures bits[i] % 2 == 0
  {
    hide Pow2;
    var p := Pow2(MAX_CLEN - i);
    SpaceAbove(bits, MAX_CLEN, i + 1, MAX_CLEN + 1);
    var q := SpaceMultiple(bits, MAX_CLEN, i, i);
    Pow2Add(i - 1, MAX_CLEN - (i - 1));
    Pow2Step(MAX_CLEN - i);
    Pairs(q, bits[i], Pow2(i - 1), p);
  }

  lemma Pairs(q: nat, x: nat, w: nat, p: nat)
    requires 0 < p && q * (2 * p) + x * p == w * (2 * p)
    ensures x % 2 == 0
  {
    if q > w { MulOrder(w, q, 2 * p); }
    var d: nat := w - q;
    Factor(q, d, 2 * p);
    Double(d, p);
    if x < 2 * d { MulOrder(x + 1, 2 * d, p); }
    if x > 2 * d { MulOrder(2 * d + 1, x, p); }
  }

  /** There is always a shorter code to take the place of a prefix. */
  lemma ShorterExists(bits: seq<nat>, n: nat, i: nat)
    requires Full(bits, n) && n <= 255 && 16 < i <= MAX_CLEN && forall k :: i < k <= MAX_CLEN ==> bits[k] == 0
    ensures exists j :: 1 <= j <= i - 2 && bits[j] > 0
  {
    hide Pow2;
    if forall j :: 1 <= j <= i - 2 ==> bits[j] == 0 {
      SpaceAtMost(bits, MAX_CLEN, 16, MAX_CLEN + 1);
      Pow2Add(16, 16);
      Pow2Values();
    }
  }

  /** A rewriting step keeps the number of codes and the code space. */
  lemma RewriteKeeps(bits: seq<nat>, n: nat, i: nat, j: nat)
    requires Full(bits, n) && 16 < i <= MAX_CLEN && 1 <= j <= i - 2 && bits[i] >= 2 && bits[j] >= 1
    ensures Full(Rewritten(bits, i, j), n) && Rewritten(bits, i, j)[i] == bits[i] - 2
    ensures forall k :: i < k <= MAX_CLEN ==> Rewritten(bits, i, j)[k] == bits[k]
  {
    hide Pow2, Sum, Space;
    var b1 := bits[i := bits[i] - 2];
    var b2 := b1[i - 1 := b1[i - 1] + 1];
    var b3 := b2[j + 1 := b2[j + 1] + 2];
    SumUpdate(bits, i, bits[i] - 2, 33);
    SumUpdate(b1, i - 1, b1[i - 1] + 1, 33);
    SumUpdate(b2, j + 1, b2[j + 1] + 2, 33);
    SumUpdate(b3, j, b3[j] - 1, 33);
    SpaceUpdate(bits, MAX_CLEN, i, bits[i] - 2, 33);
    SpaceUpdate(b1, MAX_CLEN, i - 1, b1[i - 1] + 1, 33);
    SpaceUpdate(b2, MAX_CLEN, j + 1, b2[j + 1] + 2, 33);
    SpaceUpdate(b3, MAX_CLEN, j, b3[j] - 1, 33);
    var p, q := Pow2(MAX_CLEN - i), Pow2(MAX_CLEN - (j + 1));
    Pow2Step(MAX_CLEN - i);
    Pow2Step(MAX_CLEN - (j + 1));
    Factor(bits[i] - 2, 2, p);
    Factor(b1[i - 1], 1, 2 * p);
    Factor(b2[j + 1], 2, q);
    Factor(b3[j] - 1, 1, 2 * q);
  }

  /** No count exceeds the number of symbols, so the counts stay in their eight bits. */
  lemma CountsSmall(bits: seq<nat>, n: nat)
    requires Full(bits, n)
    ensures forall k :: 0 <= k <= MAX_CLEN ==> bits[k] <= n
  {
    hide Sum, Space, Pow2;
    forall k | 0 <= k <= MAX_CLEN ensures bits[k] <= n { SumUpdate(bits, k, 0, MAX_CLEN + 1); }
  }

  /** Limit the code lengths to 16 bits.  A place for the displaced codes is always found, so the
      error for a missing one cannot occur, and no count leaves the range of eight bits.  Only
      codes that are in the way become longer. */
  method LimitLengths(bits: array<nat>, ghost n: nat) returns (ok: bool)
    requires bits.Length == 33 && Full(bits[..], n) && n <= 255
    modifies bits
    ensures ok && Short(bits[..], n) && Limited(old(bits[..]), bits[..])
  {
    hide Full, Rewritten, Limited;
    ghost var was := bits[..];
    var i := MAX_CLEN;
    FullSize(bits[..], n);
    NotYet(was);
    while i > 16
      invariant 16 <= i <= MAX_CLEN && Full(bits[..], n) && Limited(was, bits[..])
      invariant forall k :: i < k <= MAX_CLEN ==> bits[k] == 0
    {
      while bits[i] > 0
        invariant Full(bits[..], n) && Limited(was, bits[..]) && forall k :: i < k <= MAX_CLEN ==> bits[k] == 0
        decreases bits[i]
      {
        ghost var b := bits[..];
        LongestEven(b, n, i);
        ShorterExists(b, n, i);
        ghost var found :| 1 <= found <= i - 2 && b[found] > 0;
        var j := i - 2;  // for the longest shorter code that can become a prefix
        while bits[j] == 0
          invariant found <= j <= i - 2 && bits[..] == b && forall k :: j < k <= i - 2 ==> b[k] == 0
          decreases j
        {
          if j == 0 { return false; }
          j := j - 1;
        }
        RewriteKeeps(b, n, i, j);
        StepLimited(was, b, n, i, j);
        CountsSmall(Rewritten(b, i, j), n);
        Rewrite(bits, i, j);
      }
      i := i - 1;
    }
    ok := true;
  }

  method Rewrite(bits: array<nat>, i: nat, j: nat)
    requires bits.Length == 33 && 16 < i <= MAX_CLEN && 1 <= j <= i - 2 && bits[i] >= 2 && bits[j] >= 1
    modifies bits
    ensures bits[..] == Rewritten(old(bits[..]), i, j)
  {
    bits[i] := bits[i] - 2;          // a pair of the longest codes goes:
    bits[i - 1] := bits[i - 1] + 1;  // its prefix is a code now,
    bits[j + 1] := bits[j + 1] + 2;  // and a code of length j is split in two
    bits[j] := bits[j] - 1;
  }

  lemma FullSize(bits: seq<nat>, n: nat)
    requires Full(bits, n)
    ensures |bits| == MAX_CLEN + 1
  {
  }

  // ---- The final counts ----

  /** Symbol 256 goes, and with it one of the longest codes. */
  method DropPseudo(bits: array<nat>, ghost n: nat) returns (ghost longest: nat)
    requires bits.Length == 33 && Full(bits[..], n) && 2 <= n && forall k :: 16 < k <= MAX_CLEN ==> bits[k] == 0
    modifies bits
    ensures 1 <= longest <= 16 && old(bits[longest]) > 0 && bits[..] == old(bits[..])[longest := old(bits[longest]) - 1]
    ensures forall k :: longest < k <= MAX_CLEN ==> bits[k] == 0
  {
    hide Pow2;
    ghost var b := bits[..];
    SomeCount(b, n);
    ghost var some :| 1 <= some <= 16 && b[some] > 0;
    var i := 16;
    while bits[i] == 0
      invariant some <= i <= 16 && bits[..] == b && forall k :: i < k <= MAX_CLEN ==> b[k] == 0
      decreases i
    {
      i := i - 1;
    }
    bits[i] := bits[i] - 1;
    longest := i;
  }

  lemma SomeCount(bits: seq<nat>, n: nat)
    requires Full(bits, n) && 2 <= n && forall k :: 16 < k <= MAX_CLEN ==> bits[k] == 0
    ensures exists k :: 1 <= k <= 16 && bits[k] > 0
  {
    hide Pow2;
    if forall k :: 1 <= k <= 16 ==> bits[k] == 0 { Empty(bits, MAX_CLEN, 33); }
  }

  /** The table with these counts: the code space of all its codes but one of the greatest length
      is used, so the codes fit and no code consists of ones only. */
  lemma {:induction false} LjIsSpace(bits: seq<byte>, wide: seq<nat>, l: nat)
    requires |bits| == 17 && |wide| >= 17 && l <= 16 && wide[0] == 0 && forall k :: 1 <= k <= 16 ==> wide[k] == bits[k]
    ensures Ascending(Sizes(bits, l)) && |Sizes(bits, l)| == Sum(wide, l + 1)
    ensures Lj(Sizes(bits, l), |Sizes(bits, l)|) == Space(wide, 16, l + 1)
  {
    hide Pow2;
    SizesAscending(bits, l);
    if l == 0 {
      assert Sum(wide, 1) == Sum(wide, 0) + wide[0] && Space(wide, 16, 1) == Space(wide, 16, 0) + wide[0] * Pow2(16);
    } else {
      LjIsSpace(bits, wide, l - 1);
      LjRun(Sizes(bits, l - 1), Sizes(bits, l), l, bits[l]);
    }
  }

  lemma {:induction false} LjRun(sz: seq<nat>, more: seq<nat>, l: nat, m: nat)
    requires Ascending(sz) && Ascending(more) && 1 <= l <= 16 && more == sz + seq(m, _ => l)
    ensures Lj(more, |more|) == Lj(sz, |sz|) + m * Pow2(16 - l)
    decreases m
  {
    hide Pow2;
    if m == 0 {
      assert more == sz;
    } else {
      var less := more[..|more| - 1];
      assert less == sz + seq(m - 1, _ => l);
      LjRun(sz, less, l, m - 1);
      LjPrefix(less, more, |less|);
      Factor(m - 1, 1, Pow2(16 - l));
    }
  }

  lemma {:induction false} LjPrefix(x: seq<nat>, y: seq<nat>, p: nat)
    requires Ascending(x) && Ascending(y) && p <= |x| <= |y| && x == y[..|x|]
    ensures Lj(x, p) == Lj(y, p)
  {
    hide Pow2;
    if p > 0 { LjPrefix(x, y, p - 1); }
  }

  lemma FinalTable(b: seq<nat>, n: nat, longest: nat, bits: seq<byte>)
    requires Full(b, n) && n <= 255 && (forall k :: 16 < k <= MAX_CLEN ==> b[k] == 0)
    requires 1 <= longest <= 16 && b[longest] > 0 && |bits| == 17
    requires forall k :: 0 <= k <= 16 ==> bits[k] == if k == longest then b[k] - 1 else b[k]
    ensures var sz := Sizes(bits, 16);
      && Ascending(sz) && |sz| == n - 1
      && Lj(sz, |sz|) + Pow2(16 - longest) == Pow2(16) && Fits(sz)
  {
    hide Pow2, Sum, Space, Sizes, Lj;
    var wide := b[longest := b[longest] - 1];
    LjIsSpace(bits, wide, 16);
    SumUpdate(b, longest, b[longest] - 1, 33);
    SumAbove(wide, 17, 33);
    SpaceUpdate(b, 16, longest, b[longest] - 1, 17);
    SpaceAbove(b, MAX_CLEN, 17, 33);
    SpaceScale(b, 17);
    Pow2Add(16, 16);
    Cancel(Space(b, 16, 17), Pow2(16), Pow2(16));
    Factor(b[longest] - 1, 1, Pow2(16 - longest));
  }
}
