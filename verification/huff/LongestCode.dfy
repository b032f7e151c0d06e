/** How long a code can get: exactly which totals keep jpeg_gen_optimal_table from the error for a
    code of more than 32 bits. */
module LongestCode {
  import opened HuffmanSums
  import opened HuffmanTree
  import opened CodeSpace

  /** The guard in front of the error, for all symbols. */
  predicate ShortCodes(freq: seq<nat>)
    requires |freq| == SYMBOLS
  {
    forall s :: 0 <= s < SYMBOLS ==> CodeLengths(freq)[s] <= MAX_CLEN
  }

  /** Symbol 256 is the only one that is added. */
  lemma WithPseudo(freq: seq<nat>)
    requires |freq| == SYMBOLS && freq[256] == 1
    ensures Sum(freq, SYMBOLS) == Sum(freq, 256) + 1
    ensures UsedBelow(Used(freq), SYMBOLS) == UsedBelow(Used(freq), 256) + 1
  {
  }

  // ---- Small totals have short codes ----

  lemma {:induction false} FibGrows(m: nat, n: nat)
    requires m <= n
    ensures Fib(m) <= Fib(n)
    decreases n
  {
    if m < n { FibGrows(m, n - 1); }
  }

  lemma FibLimit()
    ensures Fib(31) == 3524578 && Fib(32) == 5702887 && Fib(MAX_CLEN + 1) == 9227465
  {
    assert Fib(2) == 3 && Fib(3) == 5 && Fib(4) == 8 && Fib(5) == 13;
    assert Fib(6) == 21 && Fib(7) == 34 && Fib(8) == 55 && Fib(9) == 89;
    assert Fib(10) == 144 && Fib(11) == 233 && Fib(12) == 377 && Fib(13) == 610;
    assert Fib(14) == 987 && Fib(15) == 1597 && Fib(16) == 2584 && Fib(17) == 4181;
    assert Fib(18) == 6765 && Fib(19) == 10946 && Fib(20) == 17711 && Fib(21) == 28657;
    assert Fib(22) == 46368 && Fib(23) == 75025 && Fib(24) == 121393 && Fib(25) == 196418;
    assert Fib(26) == 317811 && Fib(27) == 514229 && Fib(28) == 832040 && Fib(29) == 1346269;
    assert Fib(30) == 2178309 && Fib(31) == 3524578 && Fib(32) == 5702887 && Fib(33) == 9227465;
  }

  /** What CodeSizes finds out about its result, for the function: a code of n bits needs a total
      of at least the n'th Fibonacci number. */
  lemma {:induction false} LengthsHeavy(b: Branches, freq: seq<nat>, cs: seq<nat>, m: nat, s: nat)
    requires |b.chain| == |b.root| == |b.pos| == |freq| == |cs| == SYMBOLS && Heavy(b, freq, cs, m)
    requires s < SYMBOLS && 0 <= b.root[s] < SYMBOLS
    ensures Fib(Lengths(b, freq, cs)[s]) <= Sum(freq, SYMBOLS)
    decreases Live(freq, SYMBOLS)
  {
    hide Merged, Longer, Live, Least, Sum, Fib, Heavy;
    var c1 := Least(freq, -1, SYMBOLS);
    var c2 := Least(freq, c1, SYMBOLS);
    if c2 < 0 {
      HeavyRoot(b, freq, cs, m, s);
    } else {
      var cs' := Longer(cs, b, c1, c2);
      MergedSums(freq, c1, c2);
      MergedHeavy(b, freq, cs, cs', c1, c2, m);
      MergedRoot(b, c1, c2, s);
      LengthsHeavy(Merged(b, c1, c2), MergedFreq(freq, c1, c2), cs', freq[c2], s);
    }
  }

  lemma HeavyRoot(b: Branches, freq: seq<nat>, cs: seq<nat>, m: nat, s: nat)
    requires |b.root| == |freq| == SYMBOLS && Heavy(b, freq, cs, m) && s < SYMBOLS && 0 <= b.root[s] < SYMBOLS
    ensures Fib(cs[s]) <= Sum(freq, SYMBOLS)
  {
    hide Sum, Fib;
    SumUpdate(freq, b.root[s], 0, SYMBOLS);
  }

  lemma MergedRoot(b: Branches, c1: nat, c2: nat, s: nat)
    requires |b.chain| == |b.root| == |b.pos| == SYMBOLS && c1 < SYMBOLS && c2 < SYMBOLS && s < SYMBOLS
    ensures Merged(b, c1, c2).root[s] == if b.root[s] == c2 then c1 else b.root[s]
  {
  }

  /** An unused symbol gets no code. */
  lemma {:induction false} LengthsUnused(b: Branches, freq: seq<nat>, cs: seq<nat>, s: nat)
    requires |b.chain| == |b.root| == |b.pos| == |freq| == |cs| == SYMBOLS && s < SYMBOLS && b.root[s] == -1
    ensures Lengths(b, freq, cs)[s] == cs[s]
    decreases Live(freq, SYMBOLS)
  {
    hide Merged, Live, Least;
    var c1 := Least(freq, -1, SYMBOLS);
    var c2 := Least(freq, c1, SYMBOLS);
    if c2 >= 0 {
      MergedSums(freq, c1, c2);
      MergedRoot(b, c1, c2, s);
      LengthsUnused(Merged(b, c1, c2), MergedFreq(freq, c1, c2), Longer(cs, b, c1, c2), s);
    }
  }

  lemma FewAreShort(freq: seq<nat>)
    requires |freq| == SYMBOLS && Sum(freq, SYMBOLS) < 9227465
    ensures ShortCodes(freq)
  {
    hide Sum, Fib, Lengths, Heavy, Forest;
    var none := seq(SYMBOLS, _ => 0);
    StartForest(freq, none, seq(SYMBOLS, _ => -1));
    FibLimit();
    forall s | 0 <= s < SYMBOLS ensures CodeLengths(freq)[s] <= MAX_CLEN {
      if freq[s] == 0 {
        LengthsUnused(Separated(freq), freq, none, s);
      } else {
        LengthsHeavy(Separated(freq), freq, none, 1, s);
        if CodeLengths(freq)[s] > MAX_CLEN { FibGrows(MAX_CLEN + 1, CodeLengths(freq)[s]); }
      }
    }
  }

  // ---- Counts for which a code gets too long ----

  /** Counts that grow like the Fibonacci numbers, and as slowly as they can: symbol 256 and symbol
      32 are counted once, and the symbols below 32 more and more often. */
  predicate Skewed(freq: seq<nat>) {
    && |freq| == SYMBOLS && freq[256] == 1 && freq[32] == 1 && freq[0] >= Fib(31)
    && (forall s :: 1 <= s <= 31 ==> freq[s] == Fib(31 - s))
    && forall s :: 32 < s < 256 ==> freq[s] == 0
  }

  /** After j merges the lightest j symbols and symbol 256 are one branch, and the others are as
      they were. */
  predicate Merging(first: seq<nat>, j: nat, r: nat, freq: seq<nat>) {
    && Skewed(first) && j <= 32 && |freq| == SYMBOLS && 32 - j < r < SYMBOLS
    && forall s :: 0 <= s < SYMBOLS ==> freq[s] == if s == r then Fib(j) else if s <= 32 - j then first[s] else 0
  }

  /** The symbols that are left are at least as heavy as the branch, but for the next one. */
  lemma Heavier(first: seq<nat>, j: nat, u: nat)
    requires Skewed(first) && j <= 32 && u <= 32 - j
    ensures first[u] != 0 && (u < 32 - j ==> first[u] >= Fib(j) && first[u] >= first[32 - j])
    ensures Fib(j) > 0 && Fib(j) + first[32 - j] >= Fib(j + 1) && (j < 32 ==> Fib(j) + first[32 - j] == Fib(j + 1))
  {
    hide Fib;
    FibStep(j);
    FibGrows(0, j);
    FibGrows(0, 31 - (if u <= 31 then u else 31));
    if u < 32 - j {
      FibGrows(j, 31 - u);
      if j > 0 { FibGrows(j - 1, 31 - u); }
    }
  }

  /** So the next merge takes in the next symbol. */
  lemma NextMerge(first: seq<nat>, j: nat, r: nat, freq: seq<nat>, c1: int, c2: int)
    requires Merging(first, j, r, freq)
    requires c1 == Least(freq, -1, SYMBOLS) && c2 == Least(freq, c1, SYMBOLS)
    ensures (c1 == r && c2 == 32 - j) || (c1 == 32 - j && c2 == r)
  {
    hide Fib, Least;
    var t := 32 - j;
    forall u | 0 <= u <= t ensures first[u] != 0 && freq[u] != 0 && (u < t ==> first[u] >= Fib(j) && first[u] >= first[t]) {
      Heavier(first, j, u);
    }
    assert freq[r] != 0 && freq[t] != 0 by { Heavier(first, j, t); }
    assert c1 == r || c1 == t;
    assert c2 == r || c2 == t;
  }

  lemma MergedOnce(first: seq<nat>, j: nat, r: nat, freq: seq<nat>, c1: nat, c2: nat)
    requires Merging(first, j, r, freq) && j < 32 && ((c1 == r && c2 == 32 - j) || (c1 == 32 - j && c2 == r))
    ensures Merging(first, j + 1, c1, MergedFreq(freq, c1, c2))
  {
    hide Fib;
    Heavier(first, j, 32 - j);
  }

  /** Once the heaviest symbol has been taken in, nothing is left. */
  lemma MergedLast(first: seq<nat>, r: nat, freq: seq<nat>, c1: nat, c2: nat)
    requires Merging(first, 32, r, freq) && ((c1 == r && c2 == 0) || (c1 == 0 && c2 == r))
    ensures forall s :: 0 <= s < SYMBOLS && s != c1 ==> MergedFreq(freq, c1, c2)[s] == 0
  {
    hide Fib;
  }

  lemma {:induction false} SkewedFrom(first: seq<nat>, j: nat, r: nat, b: Branches, freq: seq<nat>, cs: seq<nat>)
    requires |b.chain| == |b.root| == |b.pos| == |cs| == SYMBOLS && Merging(first, j, r, freq) && b.root[256] == r
    requires forall s :: 0 <= s <= 32 - j ==> b.root[s] == s
    ensures Lengths(b, freq, cs)[256] == cs[256] + 33 - j
    decreases 33 - j
  {
    hide Merged, MergedFreq, Longer, Live, Least, Merging, Skewed, Fib;
    MergingShape(first, j, r, freq);
    var c1 := Least(freq, -1, SYMBOLS);
    var c2 := Least(freq, c1, SYMBOLS);
    NextMerge(first, j, r, freq, c1, c2);
    var b', f', cs' := Merged(b, c1, c2), MergedFreq(freq, c1, c2), Longer(cs, b, c1, c2);
    MergedRoot(b, c1, c2, 256);
    assert cs'[256] == cs[256] + 1;
    if j < 32 {
      MergedOnce(first, j, r, freq, c1, c2);
      forall s | 0 <= s < 32 - j ensures b'.root[s] == s { MergedRoot(b, c1, c2, s); }
      SkewedFrom(first, j + 1, c1, b', f', cs');
    } else {
      MergedLast(first, r, freq, c1, c2);
    }
  }

  lemma MergingShape(first: seq<nat>, j: nat, r: nat, freq: seq<nat>)
    requires Merging(first, j, r, freq)
    ensures |freq| == SYMBOLS && j <= 32 && 32 - j < r < SYMBOLS
  {
  }

  /** For skewed counts the code of symbol 256 has 33 bits. */
  lemma SkewedIsLong(freq: seq<nat>)
    requires Skewed(freq)
    ensures CodeLengths(freq)[256] == 33 && !ShortCodes(freq)
  {
    hide Lengths, Fib;
    forall s | 0 <= s <= 32 ensures freq[s] != 0 { Heavier(freq, 0, s); }
    FibStep(0);
    SkewedFrom(freq, 0, 256, Separated(freq), freq, seq(SYMBOLS, _ => 0));
  }

  /** Skewed counts with this total. */
  function SkewedCounts(n: nat): (freq: seq<nat>)
    requires n >= 9227464
    ensures |freq| == SYMBOLS
  {
    seq(SYMBOLS, s requires 0 <= s < SYMBOLS =>
      if s == 0 then n - 5702886 else if s <= 31 then Fib(31 - s) else if s == 32 || s == 256 then 1 else 0)
  }

  lemma {:induction false} SkewedSum(n: nat, k: nat)
    requires n >= 9227464 && 1 <= k <= 256
    ensures Sum(SkewedCounts(n), k) == if k <= 32 then n - 5702886 + 5702887 - Fib(33 - k) else n
    decreases k
  {
    hide Fib;
    FibLimit();
    if k > 1 {
      SkewedSum(n, k - 1);
      if k <= 32 { FibStep(33 - k); }
      FibStep(0);
      FibStep(1);
    }
  }

  /** Counts as the merging loop gets them: of 1 to 254 symbols, with total n, and symbol 256. */
  predicate CountsOf(freq: seq<nat>, n: nat) {
    |freq| == SYMBOLS && freq[256] == 1 && Sum(freq, 256) == n && 1 <= UsedBelow(Used(freq), 256) <= 254
  }

  lemma SkewedTotal(n: nat)
    requires n >= 9227464
    ensures Skewed(SkewedCounts(n)) && CountsOf(SkewedCounts(n), n)
  {
    hide Fib, Sum, UsedBelow;
    FibLimit();
    SkewedSum(n, 256);
    var u := Used(SkewedCounts(n));
    AtLeastOne(u, 256, 32);
    TwoMissing(u, 256, 100, 101);
  }

  /** The limit is exact: all counts of total n are accepted if and only if n is below 9227464. */
  lemma LimitIsExact(n: nat)
    ensures (forall freq :: CountsOf(freq, n) ==> ShortCodes(freq)) <==> n < 9227464
  {
    hide ShortCodes, Sum, UsedBelow;
    if n < 9227464 {
      forall freq | CountsOf(freq, n) ensures ShortCodes(freq) { TotalIsFew(freq, n); }
    } else {
      SkewedTotal(n);
      SkewedIsLong(SkewedCounts(n));
    }
  }

  lemma TotalIsFew(freq: seq<nat>, n: nat)
    requires CountsOf(freq, n) && n < 9227464
    ensures ShortCodes(freq)
  {
    hide ShortCodes, UsedBelow;
    WithPseudo(freq);
    FewAreShort(freq);
  }
}
