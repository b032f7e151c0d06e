/** Sums over the symbols of a Huffman code: their counts, and their shares of the code space. */
module HuffmanSums {
  const SYMBOLS := 257

  function Half(n: nat): (h: real)
    ensures h > 0.0
  {
    if n == 0 then 1.0 else Half(n - 1) / 2.0
  }

  function Sum(f: seq<nat>, n: nat): nat
    requires n <= |f|
  {
    if n == 0 then 0 else Sum(f, n - 1) + f[n - 1]
  }

  lemma {:induction false} SumUpdate(f: seq<nat>, i: nat, v: nat, n: nat)
    requires n <= |f| && i < |f|
    ensures Sum(f[i := v], n) == if i < n then Sum(f, n) - f[i] + v else Sum(f, n)
    ensures i < n ==> f[i] <= Sum(f, n)
    decreases n
  {
    if n > 0 { SumUpdate(f, i, v, n - 1); }
  }

  function Used(freq: seq<nat>): (u: seq<bool>)
    ensures |u| == |freq| && forall s :: 0 <= s < |freq| ==> (u[s] <==> freq[s] != 0)
  {
    seq(|freq|, s requires 0 <= s < |freq| => freq[s] != 0)
  }

  function UsedBelow(used: seq<bool>, n: nat): nat
    requires n <= |used|
  {
    if n == 0 then 0 else UsedBelow(used, n - 1) + (if used[n - 1] then 1 else 0)
  }

  lemma {:induction false} SamePrefix(f: seq<nat>, g: seq<nat>, n: nat)
    requires n <= |f| == |g| && forall s :: 0 <= s < n ==> f[s] == g[s]
    ensures Sum(f, n) == Sum(g, n) && UsedBelow(Used(f), n) == UsedBelow(Used(g), n)
  {
    if n > 0 { SamePrefix(f, g, n - 1); }
  }

  lemma {:induction false} AtLeastOne(used: seq<bool>, n: nat, s: nat)
    requires s < n <= |used| && used[s]
    ensures 1 <= UsedBelow(used, n)
  {
    if s < n - 1 { AtLeastOne(used, n - 1, s); }
  }

  lemma {:induction false} TwoMissing(used: seq<bool>, n: nat, s: nat, t: nat)
    requires n <= |used| && s < t < |used| && !used[s] && !used[t]
    ensures UsedBelow(used, n) + (if s < n then 1 else 0) + (if t < n then 1 else 0) <= n
  {
    if n > 0 { TwoMissing(used, n - 1, s, t); }
  }

  /** The share of the code space of all used symbols below n. */
  function KraftUsed(cs: seq<nat>, used: seq<bool>, n: nat): real
    requires n <= |cs| == |used|
  {
    if n == 0 then 0.0 else KraftUsed(cs, used, n - 1) + (if used[n - 1] then Half(cs[n - 1]) else 0.0)
  }

  /** The frequencies after merging branch c2 into branch c1. */
  function MergedFreq(freq: seq<nat>, c1: nat, c2: nat): seq<nat>
    requires |freq| == SYMBOLS && c1 < SYMBOLS && c2 < SYMBOLS
  {
    freq[c1 := freq[c1] + freq[c2]][c2 := 0]
  }
}
