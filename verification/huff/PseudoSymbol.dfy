/** Why one code of the greatest length can be dropped: symbol 256, which is counted once and has the
    largest number, always gets one of the longest codes.  This rests on how ties are broken. */
module PseudoSymbol {
  import opened HuffmanSums
  import opened HuffmanTree
  import opened LongestCode

  /** The order in which branches are taken: the smaller count first, and of equal ones the larger
      symbol number. */
  predicate Before(freq: seq<nat>, x: nat, y: nat)
    requires x < |freq| && y < |freq|
  {
    freq[x] < freq[y] || (freq[x] == freq[y] && x > y)
  }

  /** No code is longer than that of symbol 256; branches with a code as long come behind its
      branch, and two others together weigh at least as much. */
  ghost predicate Deepest(b: Branches, freq: seq<nat>, cs: seq<nat>) {
    && |b.chain| == |b.root| == |b.pos| == |freq| == |cs| == SYMBOLS
    && (forall s :: 0 <= s < SYMBOLS && b.root[s] != -1 ==> 0 <= b.root[s] < SYMBOLS && freq[b.root[s]] != 0)
    && b.root[256] != -1
    && (forall s :: 0 <= s < SYMBOLS && b.root[s] != -1 ==> cs[s] <= cs[256])
    && (forall s :: 0 <= s < SYMBOLS && b.root[s] != -1 && b.root[s] != b.root[256] && cs[s] == cs[256] ==>
          Before(freq, b.root[256], b.root[s]))
    && (forall x, y :: 0 <= x < SYMBOLS && 0 <= y < SYMBOLS && x != y && x != b.root[256] && y != b.root[256] ==>
          Heavier(freq, b.root[256], x, y))
  }

  predicate Heavier(freq: seq<nat>, r: nat, x: nat, y: nat)
    requires r < |freq| && x < |freq| && y < |freq|
  {
    freq[x] == 0 || freq[y] == 0 || freq[x] + freq[y] > freq[r] || (freq[x] + freq[y] == freq[r] && r > x && r > y)
  }

  lemma StartDeepest(freq: seq<nat>, cs: seq<nat>)
    requires |freq| == |cs| == SYMBOLS && freq[256] == 1 && forall s :: 0 <= s < SYMBOLS ==> cs[s] == 0
    ensures Deepest(Separated(freq), freq, cs)
  {
    var b := Separated(freq);
    assert b.root[256] == 256;
    forall x, y | 0 <= x < SYMBOLS && 0 <= y < SYMBOLS && x != y && x != 256 && y != 256 ensures Heavier(freq, 256, x, y) {}
    forall s | 0 <= s < SYMBOLS && b.root[s] != -1 && b.root[s] != 256 ensures Before(freq, 256, b.root[s]) {}
  }

  /** The two branches that are merged. */
  ghost predicate Taken(freq: seq<nat>, c1: nat, c2: nat) {
    && |freq| == SYMBOLS && c1 < SYMBOLS && c2 < SYMBOLS && c1 != c2 && freq[c1] != 0 && freq[c2] != 0 && Before(freq, c1, c2)
    && forall r :: 0 <= r < SYMBOLS && freq[r] != 0 && r != c1 && r != c2 ==> Before(freq, c1, r) && Before(freq, c2, r)
  }

  lemma LeastTaken(freq: seq<nat>, c1: int, c2: int)
    requires |freq| == SYMBOLS && c1 == Least(freq, -1, SYMBOLS) && c2 == Least(freq, c1, SYMBOLS) && c2 >= 0
    ensures c1 >= 0 && Taken(freq, c1, c2)
  {
    hide Least;
  }

  /** Symbol 256 is in one of them: its code gets longer than all others. */
  lemma MergedWith(b: Branches, freq: seq<nat>, cs: seq<nat>, c1: nat, c2: nat)
    requires Deepest(b, freq, cs) && Taken(freq, c1, c2) && (b.root[256] == c1 || b.root[256] == c2)
    ensures Deepest(Merged(b, c1, c2), MergedFreq(freq, c1, c2), Longer(cs, b, c1, c2))
  {
    var r, f, l := Merged(b, c1, c2), MergedFreq(freq, c1, c2), Longer(cs, b, c1, c2);
    assert r.root[256] == c1;
    forall x, y | 0 <= x < SYMBOLS && 0 <= y < SYMBOLS && x != y && x != c1 && y != c1 ensures Heavier(f, c1, x, y) {}
    forall s | 0 <= s < SYMBOLS && r.root[s] != -1 ensures l[s] <= l[256] && (r.root[s] != c1 ==> l[s] < l[256]) {
      assert b.root[s] != -1;
    }
  }

  /** It is in neither: codes as long as that of symbol 256 are not in them, and the merged branch
      comes behind its branch. */
  lemma MergedAside(b: Branches, freq: seq<nat>, cs: seq<nat>, c1: nat, c2: nat)
    requires Deepest(b, freq, cs) && Taken(freq, c1, c2) && b.root[256] != c1 && b.root[256] != c2
    ensures Deepest(Merged(b, c1, c2), MergedFreq(freq, c1, c2), Longer(cs, b, c1, c2))
  {
    var top, r, f, l := b.root[256], Merged(b, c1, c2), MergedFreq(freq, c1, c2), Longer(cs, b, c1, c2);
    assert r.root[256] == top;
    assert Heavier(freq, top, c1, c2);
    forall x, y | 0 <= x < SYMBOLS && 0 <= y < SYMBOLS && x != y && x != top && y != top ensures Heavier(f, top, x, y) {
      assert Heavier(freq, top, x, y);
    }
    forall s | 0 <= s < SYMBOLS && r.root[s] != -1 ensures l[s] <= l[256] { assert b.root[s] != -1; }
  }

  lemma MergedDeepest(b: Branches, freq: seq<nat>, cs: seq<nat>, c1: int, c2: int)
    requires Deepest(b, freq, cs) && c1 == Least(freq, -1, SYMBOLS) && c2 == Least(freq, c1, SYMBOLS) && c2 >= 0
    ensures c1 >= 0 && Deepest(Merged(b, c1, c2), MergedFreq(freq, c1, c2), Longer(cs, b, c1, c2))
  {
    hide Least, Deepest, Taken;
    Shape(b, freq, cs);
    LeastTaken(freq, c1, c2);
    if b.root[256] == c1 || b.root[256] == c2 {
      MergedWith(b, freq, cs, c1, c2);
    } else {
      MergedAside(b, freq, cs, c1, c2);
    }
  }

  lemma {:induction false} StaysDeepest(b: Branches, freq: seq<nat>, cs: seq<nat>, s: nat)
    requires |b.chain| == |b.root| == |b.pos| == |freq| == |cs| == SYMBOLS
    requires Deepest(b, freq, cs) && s < SYMBOLS && b.root[s] != -1
    ensures Lengths(b, freq, cs)[s] <= Lengths(b, freq, cs)[256]
    decreases Live(freq, SYMBOLS)
  {
    hide Deepest, Merged, Longer, Live, Least;
    AtLeast(b, freq, cs, s);
    var c1 := Least(freq, -1, SYMBOLS);
    var c2 := Least(freq, c1, SYMBOLS);
    if c2 >= 0 {
      MergedDeepest(b, freq, cs, c1, c2);
      MergedSums(freq, c1, c2);
      StillUsed(b, c1, c2, s);
      StaysDeepest(Merged(b, c1, c2), MergedFreq(freq, c1, c2), Longer(cs, b, c1, c2), s);
    }
  }

  lemma Shape(b: Branches, freq: seq<nat>, cs: seq<nat>)
    requires Deepest(b, freq, cs)
    ensures |b.chain| == |b.root| == |b.pos| == |freq| == |cs| == SYMBOLS
  {
  }

  lemma AtLeast(b: Branches, freq: seq<nat>, cs: seq<nat>, s: nat)
    requires Deepest(b, freq, cs) && s < |b.root| && b.root[s] != -1
    ensures |b.chain| == |b.root| == |b.pos| == |freq| == |cs| == SYMBOLS && cs[s] <= cs[256]
  {
  }

  lemma StillUsed(b: Branches, c1: nat, c2: nat, s: nat)
    requires |b.chain| == |b.root| == |b.pos| == SYMBOLS && c1 < SYMBOLS && c2 < SYMBOLS && s < SYMBOLS && b.root[s] != -1
    ensures Merged(b, c1, c2).root[s] != -1
  {
  }

  /** Symbol 256 is in the largest category of code lengths. */
  lemma LongestIsPseudo(freq: seq<nat>, s: nat)
    requires |freq| == SYMBOLS && freq[256] == 1 && s < SYMBOLS
    ensures CodeLengths(freq)[s] <= CodeLengths(freq)[256]
  {
    hide Lengths, Deepest;
    var none := seq(SYMBOLS, _ => 0);
    StartDeepest(freq, none);
    if freq[s] == 0 {
      LengthsUnused(Separated(freq), freq, none, s);
    } else {
      StaysDeepest(Separated(freq), freq, none, s);
    }
  }
}
