/** Why merging the two lightest branches is right: whatever the code lengths, some code that is no
    longer in total gives the two least counts codes of equal length, and these can be merged. */
module HuffmanOptimal {
  import opened Radix
  import opened HuffmanSums

  /** The total number of bits in which the first n symbols are written. */
  function Cost(f: seq<nat>, cs: seq<nat>, n: nat): nat
    requires n <= |f| == |cs|
  {
    if n == 0 then 0 else Cost(f, cs, n - 1) + f[n - 1] * cs[n - 1]
  }

  /** Code lengths that a prefix code for these counts can have. */
  ghost predicate Feasible(freq: seq<nat>, cs: seq<nat>) {
    |freq| == |cs| == SYMBOLS && KraftUsed(cs, Used(freq), SYMBOLS) <= 1.0
  }

  /** No prefix code for these counts takes less than m bits. */
  ghost predicate LowerBound(freq: seq<nat>, m: nat) {
    |freq| == SYMBOLS && forall cs :: Feasible(freq, cs) ==> m <= Cost(freq, cs, SYMBOLS)
  }

  /** No prefix code does better than these lengths. */
  ghost predicate Minimum(freq: seq<nat>, cs: seq<nat>) {
    |freq| == |cs| == SYMBOLS && LowerBound(freq, Cost(freq, cs, SYMBOLS))
  }

  // ---- Changing one length, one count, or one used symbol ----

  lemma {:induction false} CostUpdate(f: seq<nat>, cs: seq<nat>, i: nat, v: nat, n: nat)
    requires n <= |f| == |cs| && i < |f|
    ensures Cost(f, cs[i := v], n) == if i < n then Cost(f, cs, n) + f[i] * v - f[i] * cs[i] else Cost(f, cs, n)
  {
    if n > 0 { CostUpdate(f, cs, i, v, n - 1); }
  }

  lemma {:induction false} CountUpdate(f: seq<nat>, cs: seq<nat>, i: nat, v: nat, n: nat)
    requires n <= |f| == |cs| && i < |f|
    ensures Cost(f[i := v], cs, n) == if i < n then Cost(f, cs, n) + v * cs[i] - f[i] * cs[i] else Cost(f, cs, n)
  {
    if n > 0 { CountUpdate(f, cs, i, v, n - 1); }
  }

  lemma {:induction false} KraftUpdate(cs: seq<nat>, used: seq<bool>, i: nat, v: nat, n: nat)
    requires n <= |cs| == |used| && i < |cs|
    ensures KraftUsed(cs[i := v], used, n) ==
      KraftUsed(cs, used, n) + if i < n && used[i] then Half(v) - Half(cs[i]) else 0.0
  {
    if n > 0 { KraftUpdate(cs, used, i, v, n - 1); }
  }

  lemma {:induction false} KraftWithout(cs: seq<nat>, used: seq<bool>, i: nat, n: nat)
    requires n <= |cs| == |used| && i < |cs|
    ensures KraftUsed(cs, used[i := false], n) == KraftUsed(cs, used, n) - if i < n && used[i] then Half(cs[i]) else 0.0
    ensures KraftUsed(cs, used, n) >= 0.0
  {
    if n > 0 { KraftWithout(cs, used, i, n - 1); }
  }

  function Swap(cs: seq<nat>, i: nat, j: nat): seq<nat>
    requires i < |cs| && j < |cs|
  {
    cs[i := cs[j]][j := cs[i]]
  }

  lemma SwapKraft(cs: seq<nat>, used: seq<bool>, i: nat, j: nat, n: nat)
    requires n == |cs| == |used| && i < n && j < n && used[i] && used[j]
    ensures KraftUsed(Swap(cs, i, j), used, n) == KraftUsed(cs, used, n)
  {
    hide KraftUsed, Half;
    KraftUpdate(cs, used, i, cs[j], n);
    KraftUpdate(cs[i := cs[j]], used, j, cs[i], n);
  }

  /** Giving the longer code to the symbol with the smaller count. */
  lemma SwapCost(f: seq<nat>, cs: seq<nat>, i: nat, j: nat, n: nat)
    requires n == |f| == |cs| && i < n && j < n && f[i] <= f[j] && cs[i] <= cs[j]
    ensures Cost(f, Swap(cs, i, j), n) <= Cost(f, cs, n)
  {
    hide Cost;
    CostUpdate(f, cs, i, cs[j], n);
    CostUpdate(f, cs[i := cs[j]], j, cs[i], n);
    Exchange(f[i], f[j], cs[i], cs[j]);
  }

  lemma Exchange(x: nat, y: nat, a: nat, b: nat)
    requires x <= y && a <= b
    ensures x * b + y * a <= x * a + y * b
  {
    assert 0 <= (y - x) * (b - a);
  }

  lemma MoreBits(x: nat, a: nat, b: nat)
    requires a <= b
    ensures x * a <= x * b
  {
  }

  // ---- A longest code that has no partner can be shortened ----

  /** The share of the code space of k codes of m bits. */
  function Share(k: nat, m: nat): real {
    k as real * Half(m)
  }

  lemma ShareSum(j: nat, k: nat, m: nat)
    ensures Share(j + k, m) == Share(j, m) + Share(k, m)
    ensures Share(0, m) == 0.0 && Share(1, m) == Half(m)
  {
    hide Half;
    assert (j + k) as real == j as real + k as real;
  }

  lemma ShareOrder(j: nat, k: nat, m: nat)
    requires j <= k
    ensures Share(j, m) <= Share(k, m)
  {
    hide Half;
    assert 0.0 <= (k - j) as real * Half(m);
    ShareSum(j, k - j, m);
  }

  lemma {:induction false} Doubles(l: nat, m: nat)
    requires l <= m
    ensures Half(l) == Share(Pow2(m - l), m)
    decreases m - l
  {
    if l < m { Doubles(l + 1, m); }
  }

  /** Codes of at most m bits take up as much as some number of codes of m bits. */
  lemma {:induction false} Multiple(cs: seq<nat>, used: seq<bool>, m: nat, n: nat) returns (k: nat)
    requires n <= |cs| == |used| && forall s :: 0 <= s < n && used[s] ==> cs[s] <= m
    ensures KraftUsed(cs, used, n) == Share(k, m)
  {
    hide Half, Pow2, Share;
    ShareSum(0, 0, m);
    k := 0;
    if n > 0 {
      k := Multiple(cs, used, m, n - 1);
      if used[n - 1] {
        Doubles(cs[n - 1], m);
        ShareSum(k, Pow2(m - cs[n - 1]), m);
        k := k + Pow2(m - cs[n - 1]);
      }
    }
  }

  /** Where k codes of m bits do not fill the code space, one more has room. */
  lemma OneMore(k: nat, m: nat)
    requires Share(k, m) < 1.0
    ensures Share(k, m) + Half(m) <= 1.0
  {
    Doubles(0, m);
    var p := Pow2(m);
    assert Share(p, m) == 1.0;
    hide Half, Pow2, Share;
    if k >= p {
      ShareOrder(p, k, m);
    } else {
      ShareOrder(k + 1, p, m);
      ShareSum(k, 1, m);
    }
  }

  /** If no other code is longer than m bits, one longer code can be cut to m bits. */
  lemma Shorten(cs: seq<nat>, used: seq<bool>, c: nat, m: nat)
    requires |cs| == |used| == SYMBOLS && c < SYMBOLS && used[c] && m <= cs[c]
    requires KraftUsed(cs, used, SYMBOLS) <= 1.0
    requires forall s :: 0 <= s < SYMBOLS && used[s] && s != c ==> cs[s] <= m
    ensures KraftUsed(cs[c := m], used, SYMBOLS) <= 1.0
  {
    hide KraftUsed, Half, Share;
    KraftUpdate(cs, used, c, m, SYMBOLS);
    KraftWithout(cs, used, c, SYMBOLS);
    var k := Multiple(cs, used[c := false], m, SYMBOLS);
    OneMore(k, m);
  }

  // ---- The two least counts side by side ----

  /** A used symbol with a longest code; c is not considered. */
  lemma Longest(cs: seq<nat>, used: seq<bool>, c: int, a: nat) returns (s: nat)
    requires |cs| == |used| && a < |cs| && used[a] && a != c
    ensures s < |cs| && used[s] && s != c
    ensures forall t :: 0 <= t < |cs| && used[t] && t != c ==> cs[t] <= cs[s]
  {
    s := a;
    for i := 0 to |cs|
      invariant s < |cs| && used[s] && s != c
      invariant forall t :: 0 <= t < i && used[t] && t != c ==> cs[t] <= cs[s]
    {
      if used[i] && i != c && cs[s] < cs[i] { s := i; }
    }
  }

  /** The symbols with the two least counts. */
  ghost predicate Lightest(freq: seq<nat>, c1: nat, c2: nat) {
    && |freq| == SYMBOLS && c1 < SYMBOLS && c2 < SYMBOLS && c1 != c2 && 0 < freq[c1] <= freq[c2]
    && forall i :: 0 <= i < SYMBOLS && i != c1 && freq[i] != 0 ==> freq[c2] <= freq[i]
  }

  /** The lightest symbol gets a longest code, the next one a longest of the others. */
  lemma Deepest(freq: seq<nat>, cs: seq<nat>, c1: nat, c2: nat) returns (r: seq<nat>)
    requires Lightest(freq, c1, c2) && Feasible(freq, cs)
    ensures Feasible(freq, r) && Cost(freq, r, SYMBOLS) <= Cost(freq, cs, SYMBOLS)
    ensures r[c2] <= r[c1] && forall s :: 0 <= s < SYMBOLS && freq[s] != 0 && s != c1 ==> r[s] <= r[c2]
  {
    hide KraftUsed, Cost;
    var used := Used(freq);
    var s := Longest(cs, used, -1, c1);
    var x := Swap(cs, c1, s);
    SwapKraft(cs, used, c1, s, SYMBOLS);
    SwapCost(freq, cs, c1, s, SYMBOLS);
    var t := Longest(x, used, c1, c2);
    r := Swap(x, c2, t);
    SwapKraft(x, used, c2, t, SYMBOLS);
    SwapCost(freq, x, c2, t, SYMBOLS);
  }

  /** The two lightest symbols get codes of the same length, of at least one bit. */
  lemma Siblings(freq: seq<nat>, cs: seq<nat>, c1: nat, c2: nat) returns (r: seq<nat>)
    requires Lightest(freq, c1, c2) && Feasible(freq, cs)
    ensures Feasible(freq, r) && Cost(freq, r, SYMBOLS) <= Cost(freq, cs, SYMBOLS)
    ensures r[c1] == r[c2] > 0
  {
    hide KraftUsed, Cost;
    var used := Used(freq);
    var x := Deepest(freq, cs, c1, c2);
    Shorten(x, used, c1, x[c2]);
    r := x[c1 := x[c2]];
    CostUpdate(freq, x, c1, x[c2], SYMBOLS);
    MoreBits(freq[c1], x[c2], x[c1]);
    KraftWithout(r, used, c1, SYMBOLS);
    KraftWithout(r, used[c1 := false], c2, SYMBOLS);
    KraftWithout(r, used[c1 := false][c2 := false], c2, SYMBOLS);
  }

  lemma JoinedSpace(freq: seq<nat>, cs: seq<nat>, c1: nat, c2: nat)
    requires Lightest(freq, c1, c2) && Feasible(freq, cs) && cs[c1] == cs[c2] > 0
    ensures Feasible(MergedFreq(freq, c1, c2), cs[c1 := cs[c1] - 1])
  {
    hide KraftUsed;
    var r, l := cs[c1 := cs[c1] - 1], cs[c1];
    assert Used(MergedFreq(freq, c1, c2)) == Used(freq)[c2 := false];
    KraftUpdate(cs, Used(freq), c1, l - 1, SYMBOLS);
    KraftWithout(r, Used(freq), c2, SYMBOLS);
    assert Half(l - 1) == Half(l) + Half(l);
  }

  lemma JoinedCost(freq: seq<nat>, cs: seq<nat>, c1: nat, c2: nat)
    requires |freq| == |cs| == SYMBOLS && c1 < SYMBOLS && c2 < SYMBOLS && c1 != c2 && cs[c1] == cs[c2] > 0
    ensures Cost(MergedFreq(freq, c1, c2), cs[c1 := cs[c1] - 1], SYMBOLS) + freq[c1] + freq[c2] == Cost(freq, cs, SYMBOLS)
  {
    hide Cost;
    var r, l, x := cs[c1 := cs[c1] - 1], cs[c1], freq[c1] + freq[c2];
    CostUpdate(freq, cs, c1, l - 1, SYMBOLS);
    CountUpdate(freq, r, c1, x, SYMBOLS);
    CountUpdate(freq[c1 := x], r, c2, 0, SYMBOLS);
    OneLess(freq[c1], freq[c2], l);
  }

  lemma OneLess(x: nat, y: nat, l: nat)
    requires 0 < l
    ensures (x + y) * (l - 1) == x * (l - 1) + y * l - y && x * (l - 1) == x * l - x
  {
  }

  /** Such codes share all but their last bits. */
  lemma Joined(freq: seq<nat>, cs: seq<nat>, c1: nat, c2: nat)
    requires Lightest(freq, c1, c2) && Feasible(freq, cs) && cs[c1] == cs[c2] > 0
    ensures var r, f := cs[c1 := cs[c1] - 1], MergedFreq(freq, c1, c2);
      Feasible(f, r) && Cost(f, r, SYMBOLS) + freq[c1] + freq[c2] == Cost(freq, cs, SYMBOLS)
  {
    hide KraftUsed, Cost, MergedFreq;
    JoinedSpace(freq, cs, c1, c2);
    JoinedCost(freq, cs, c1, c2);
  }

  /** What holds of every code for the merged counts holds of every code, with the bits added that
      tell the two symbols apart. */
  lemma MergeBound(freq: seq<nat>, c1: nat, c2: nat, m: nat)
    requires Lightest(freq, c1, c2) && LowerBound(MergedFreq(freq, c1, c2), m)
    ensures LowerBound(freq, m + freq[c1] + freq[c2])
  {
    hide Cost, Lightest;
    LightestInRange(freq, c1, c2);
    forall cs | Feasible(freq, cs) ensures m + freq[c1] + freq[c2] <= Cost(freq, cs, SYMBOLS) {
      var r := Siblings(freq, cs, c1, c2);
      Joined(freq, r, c1, c2);
    }
  }

  lemma LightestInRange(freq: seq<nat>, c1: nat, c2: nat)
    requires Lightest(freq, c1, c2)
    ensures |freq| == SYMBOLS && c1 < SYMBOLS && c2 < SYMBOLS
  {
  }

  // ---- Many merges ----

  /** Bounds for these counts become bounds for the first ones when x is added. */
  ghost predicate Reduces(freq: seq<nat>, first: seq<nat>, x: nat) {
    forall m: nat :: LowerBound(freq, m) ==> LowerBound(first, m + x)
  }

  lemma ReducesMerged(freq: seq<nat>, first: seq<nat>, x: nat, c1: nat, c2: nat)
    requires Lightest(freq, c1, c2) && Reduces(freq, first, x)
    ensures Reduces(MergedFreq(freq, c1, c2), first, x + freq[c1] + freq[c2])
  {
    hide LowerBound, Lightest;
    LightestInRange(freq, c1, c2);
    forall m: nat | LowerBound(MergedFreq(freq, c1, c2), m) ensures LowerBound(first, m + (x + freq[c1] + freq[c2])) {
      MergeBound(freq, c1, c2, m);
      assert LowerBound(first, (m + freq[c1] + freq[c2]) + x);
    }
  }

  lemma ReducesStart(freq: seq<nat>)
    ensures Reduces(freq, freq, 0)
  {
  }

  /** A code of the cost that the merges have added up to is a best one. */
  lemma NoneBetter(freq: seq<nat>, first: seq<nat>, x: nat, cs: seq<nat>)
    requires Reduces(freq, first, x) && |freq| == |first| == |cs| == SYMBOLS && Cost(first, cs, SYMBOLS) == x
    ensures Minimum(first, cs)
  {
    assert LowerBound(freq, 0);
  }
}
