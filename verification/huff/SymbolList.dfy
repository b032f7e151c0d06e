/** The list of used symbols with the most frequent first, as jpeg_gen_optimal_table builds
    it: a linked list in the array others, starting at entry 256, from which the symbol with the
    greatest frequency is removed again and again. */
module SymbolList {
  import opened Radix
  import opened HuffmanSums

  /** The used symbols below n, in ascending order. */
  function UsedSymbols(freq: seq<nat>, n: nat): seq<nat>
    requires n <= |freq|
  {
    if n == 0 then [] else if freq[n - 1] != 0 then UsedSymbols(freq, n - 1) + [n - 1] else UsedSymbols(freq, n - 1)
  }

  lemma {:induction false} UsedFacts(freq: seq<nat>, n: nat)
    requires n <= |freq|
    ensures |UsedSymbols(freq, n)| <= n && Increasing(UsedSymbols(freq, n), n)
    ensures forall s: nat :: s in UsedSymbols(freq, n) <==> s < n && freq[s] != 0
  {
    if n > 0 { UsedFacts(freq, n - 1); }
  }

  predicate Increasing(list: seq<nat>, n: nat) {
    (forall k :: 0 <= k < |list| ==> list[k] < n) && (forall j, k :: 0 <= j < k < |list| ==> list[j] < list[k])
  }

  /** The entry that leads to element k of the list. */
  function Lead(list: seq<nat>, k: nat): nat
    requires k <= |list|
  {
    if k == 0 then 256 else list[k - 1]
  }

  predicate Link(list: seq<nat>, others: seq<int>, k: nat) {
    k <= |list| && Lead(list, k) < |others| && others[Lead(list, k)] == if k < |list| then list[k] else -1
  }

  /** Starting at entry 256, others runs through the list. */
  predicate Listed(list: seq<nat>, others: seq<int>) {
    |others| == SYMBOLS && Increasing(list, 256) && forall k: nat :: k <= |list| ==> Link(list, others, k)
  }

  /** The list so far, its end not marked yet. */
  predicate Open(list: seq<nat>, others: seq<int>) {
    |others| == SYMBOLS && Increasing(list, 256) && forall k: nat :: k < |list| ==> Link(list, others, k)
  }

  lemma Extend(list: seq<nat>, others: seq<int>, i: nat)
    requires Open(list, others) && i < 256 && forall k :: 0 <= k < |list| ==> list[k] < i
    ensures Open(list + [i], others[Lead(list, |list|) := i])
  {
    var l, o := list + [i], others[Lead(list, |list|) := i];
    forall k: nat | k < |l| ensures Link(l, o, k) {
      if k < |list| { assert Link(list, others, k); }
    }
  }

  lemma Close(list: seq<nat>, others: seq<int>)
    requires Open(list, others)
    ensures Listed(list, others[Lead(list, |list|) := -1])
  {
    var o := others[Lead(list, |list|) := -1];
    forall k: nat | k <= |list| ensures Link(list, o, k) {
      if k < |list| { assert Link(list, others, k); }
    }
  }

  method BuildList(freq: array<nat>, others: array<int>) returns (ghost list: seq<nat>)
    requires freq.Length == others.Length == SYMBOLS && freq as object != others as object && freq[256] != 0
    modifies others
    ensures list == UsedSymbols(freq[..], 256) && Listed(list, others[..])
  {
    hide UsedSymbols, Open, Increasing, Listed;
    var j, i := 256, 0;
    ghost var f := freq[..];
    list := UsedSymbols(f, 0);
    OpenEmpty(f, others[..]);
    while true
      invariant 0 <= i <= 256 && freq[..] == f && list == UsedSymbols(f, i) && j == Lead(list, |list|) < SYMBOLS
      invariant Open(list, others[..])
      decreases 257 - i
    {
      UsedStep(f, i);
      ghost var o := others[..];
      if freq[i] == 0 {
        i := i + 1;
        continue;
      }
      if i > 255 { break; }
      Extend(list, o, i);
      others[j] := i;
      assert others[..] == o[j := i];
      j := i;
      list := list + [i];
      i := i + 1;
    }
    Close(list, others[..]);
    ghost var o := others[..];
    others[j] := -1;
    assert others[..] == o[j := -1];
  }

  lemma OpenEmpty(freq: seq<nat>, others: seq<int>)
    requires |others| == SYMBOLS
    ensures UsedSymbols(freq, 0) == [] && Open([], others)
  {
  }

  lemma UsedStep(freq: seq<nat>, i: nat)
    requires |freq| == SYMBOLS && i <= 256
    ensures UsedSymbols(freq, i + 1) == if freq[i] != 0 then UsedSymbols(freq, i) + [i] else UsedSymbols(freq, i)
    ensures forall k :: 0 <= k < |UsedSymbols(freq, i)| ==> UsedSymbols(freq, i)[k] < i
  {
    UsedFacts(freq, i);
  }

  /** x comes before y in the final order. */
  predicate Precedes(freq: seq<nat>, x: nat, y: nat) {
    x < |freq| && y < |freq| && (freq[x] > freq[y] || (freq[x] == freq[y] && x < y))
  }

  /** The first of the symbols with the greatest frequency among the first n of the list. */
  predicate Greatest(freq: seq<nat>, list: seq<nat>, m: nat, n: nat) {
    m < n <= |list| && forall k :: 0 <= k < n && k != m ==> Precedes(freq, list[m], list[k])
  }

  lemma NextElement(list: seq<nat>, others: seq<int>, k: nat)
    requires Listed(list, others) && k <= |list|
    ensures Lead(list, k) < SYMBOLS == |others| && others[Lead(list, k)] == if k < |list| then list[k] else -1
    ensures k < |list| ==> list[k] < 256
  {
    assert Link(list, others, k);
  }

  lemma GreatestStep(freq: seq<nat>, list: seq<nat>, m: nat, t: nat)
    requires |freq| == SYMBOLS && Increasing(list, 256) && t + 1 < |list| && Greatest(freq, list, m, t + 1)
    ensures freq[list[t + 1]] > freq[list[m]] ==> Greatest(freq, list, t + 1, t + 2)
    ensures freq[list[t + 1]] <= freq[list[m]] ==> Greatest(freq, list, m, t + 2)
  {
    var x := list[t + 1];
    if freq[x] > freq[list[m]] {
      forall k | 0 <= k < t + 2 && k != t + 1 ensures Precedes(freq, x, list[k]) {
        if k != m { assert Precedes(freq, list[m], list[k]); }
      }
    }
  }

  /** Find the greatest element of the list and the entry that leads to it. */
  method FindGreatest(freq: array<nat>, others: array<int>, ghost list: seq<nat>) returns (i: nat, j: nat, ghost m: nat)
    requires freq.Length == others.Length == SYMBOLS && Listed(list, others[..]) && list != []
    ensures m < |list| && Greatest(freq[..], list, m, |list|) && i == list[m] && j == Lead(list, m)
  {
    ghost var f, o, t := freq[..], others[..], 0;
    m := 0;
    var c1 := others[256];
    NextElement(list, o, 0);
    NextElement(list, o, 1);
    var v := freq[c1];
    i, j := c1, 256;
    var c2 := others[c1];
    assert Greatest(f, list, 0, 1);
    hide Listed, Link, Greatest;
    while c2 >= 0
      invariant 0 <= t < |list| && m <= t && c1 == list[t] < SYMBOLS && i == list[m] < SYMBOLS && j == Lead(list, m) && v == f[i]
      invariant c2 == if t + 1 < |list| then list[t + 1] else -1
      invariant Greatest(f, list, m, t + 1)
      decreases |list| - t
    {
      NextElement(list, o, t + 1);
      IsIncreasing(list, o);
      GreatestStep(f, list, m, t);
      if freq[c2] > v {
        v := freq[c2];
        i, j := c2, c1;
        m := t + 1;
      }
      c1 := c2;
      t := t + 1;
      NextElement(list, o, t + 1);
      c2 := others[c1];
    }
  }

  lemma IsIncreasing(list: seq<nat>, others: seq<int>)
    requires Listed(list, others)
    ensures Increasing(list, 256)
  {
  }

  function Without(list: seq<nat>, m: nat): (l: seq<nat>)
    requires m < |list|
    ensures |l| == |list| - 1 && forall k :: 0 <= k < |l| ==> l[k] == list[if k < m then k else k + 1]
  {
    list[..m] + list[m + 1..]
  }

  lemma Unlinked(list: seq<nat>, others: seq<int>, m: nat)
    requires Listed(list, others) && m < |list|
    ensures Lead(list, m) < |others| && list[m] < |others|
    ensures Listed(Without(list, m), others[Lead(list, m) := others[list[m]]])
  {
    hide Without;
    NextElement(list, others, m);
    NextElement(list, others, m + 1);
    var l, o := Without(list, m), others[Lead(list, m) := others[list[m]]];
    forall k: nat | k <= |l| ensures Link(l, o, k) {
      if k < m {
        NextElement(list, others, k);
        assert k < m ==> Lead(list, k) != Lead(list, m);
      } else if k > m {
        NextElement(list, others, k + 1);
        assert Lead(l, k) == list[k] && Lead(list, m) != list[k];
      }
    }
  }

  /** The symbols taken out so far are sorted. */
  predicate Sorted(freq: seq<nat>, out: seq<nat>) {
    (forall k :: 0 <= k < |out| ==> out[k] < 256) && (forall j, k :: 0 <= j < k < |out| ==> Precedes(freq, out[j], out[k]))
  }

  /** The order leaves no choice. */
  lemma {:induction false} SameOrder(freq: seq<nat>, x: seq<nat>, y: seq<nat>)
    requires Sorted(freq, x) && Sorted(freq, y) && forall s :: s in x <==> s in y
    ensures x == y
    decreases x
  {
    if x != [] && y != [] {
      FirstIn(freq, x, y);
      FirstIn(freq, y, x);
      forall s ensures s in x[1..] <==> s in y[1..] {
        NotAgain(freq, x, s);
        NotAgain(freq, y, s);
      }
      SameOrder(freq, x[1..], y[1..]);
      assert x == [x[0]] + x[1..] && y == [y[0]] + y[1..];
    } else {
      SomeSymbol(x);
      SomeSymbol(y);
    }
  }

  lemma SomeSymbol(x: seq<nat>)
    ensures x == [] || exists s :: s in x
  {
    if x != [] { assert x[0] in x; }
  }

  lemma FirstIn(freq: seq<nat>, x: seq<nat>, y: seq<nat>)
    requires Sorted(freq, x) && Sorted(freq, y) && x != [] && y != [] && forall s :: s in x <==> s in y
    ensures x[0] == y[0]
  {
    assert x[0] in x && y[0] in y;
    var i :| 0 <= i < |y| && y[i] == x[0];
    var j :| 0 <= j < |x| && x[j] == y[0];
  }

  lemma NotAgain(freq: seq<nat>, x: seq<nat>, s: nat)
    requires Sorted(freq, x) && x != []
    ensures s in x[1..] <==> s in x && s != x[0]
  {
    if s in x[1..] {
      var k :| 0 <= k < |x| - 1 && x[1..][k] == s;
      assert x[k + 1] == s;
    }
    if s in x && s != x[0] {
      var k :| 0 <= k < |x| && x[k] == s;
      assert x[1..][k - 1] == s;
    }
  }

  /** They come before those left in the list, and together they are all the used symbols. */
  ghost predicate Split(freq: seq<nat>, out: seq<nat>, list: seq<nat>, all: seq<nat>) {
    && Sorted(freq, out) && (forall k :: 0 <= k < |list| ==> list[k] < 256)
    && (forall j, k :: 0 <= j < |out| && 0 <= k < |list| ==> Precedes(freq, out[j], list[k]))
    && |out| + |list| == |all|
    && (forall s: nat :: s in all <==> s in out || s in list)
  }

  lemma TakeGreatest(freq: seq<nat>, out: seq<nat>, list: seq<nat>, m: nat, all: seq<nat>)
    requires Split(freq, out, list, all) && Greatest(freq, list, m, |list|)
    ensures Split(freq, out + [list[m]], Without(list, m), all)
  {
    hide Precedes, Without;
    var x, l := list[m], Without(list, m);
    forall s: nat ensures s in list <==> s == x || s in l { WithoutHas(list, m, s); }
    forall s: nat ensures s in all <==> s in out + [x] || s in l {}
  }

  lemma WithoutHas(list: seq<nat>, m: nat, s: nat)
    requires m < |list|
    ensures s in list <==> s == list[m] || s in Without(list, m)
  {
    var l := Without(list, m);
    if s in list {
      var k :| 0 <= k < |list| && list[k] == s;
      if k < m { assert l[k] == s; } else if k > m { assert l[k - 1] == s; }
    }
  }

  /** Sort the symbols into huffval. */
  method SortList(freq: array<nat>, others: array<int>, huffval: array<byte>) returns (p: nat)
    requires freq.Length == others.Length == SYMBOLS && freq as object != others as object && freq[256] != 0
    requires huffval.Length == 256 && huffval as object != freq as object && huffval as object != others as object
    modifies others, huffval
    ensures p == |UsedSymbols(freq[..], 256)| <= 256 && Sorted(freq[..], huffval[..p])
    ensures forall s: byte :: s in huffval[..p] <==> freq[s] != 0
  {
    hide UsedSymbols, Listed, Split, Sorted, Increasing, Greatest, Link, Without;
    ghost var list := BuildList(freq, others);
    ghost var f, all, out: seq<nat> := freq[..], list, [];
    UsedFacts(f, 256);
    SplitStart(f, all);
    p := 0;
    NextElement(list, others[..], 0);
    while others[256] >= 0
      invariant freq[..] == f && |out| == p <= 256 && Listed(list, others[..]) && Split(f, out, list, all)
      invariant huffval[..p] == out && p + |list| == |all|
      invariant others[256] == if list != [] then list[0] else -1
      decreases |list|
    {
      var i, j;
      ghost var m;
      i, j, m := FindGreatest(freq, others, list);
      TakeGreatest(f, out, list, m, all);
      Unlinked(list, others[..], m);
      NextElement(list, others[..], m);
      ghost var o := others[..];
      others[j] := others[i];  // i leaves the list
      assert others[..] == o[j := o[i]];
      list := Without(list, m);
      NextElement(list, others[..], 0);
      huffval[p] := i;
      out := out + [i];
      p := p + 1;
      assert huffval[..p] == out;
    }
    SplitEnd(f, out, all);
  }

  lemma SplitStart(freq: seq<nat>, all: seq<nat>)
    requires Increasing(all, 256)
    ensures Split(freq, [], all, all)
  {
  }

  lemma SplitEnd(freq: seq<nat>, out: seq<nat>, all: seq<nat>)
    requires Split(freq, out, [], all)
    ensures Sorted(freq, out) && forall s: nat :: s in all <==> s in out
  {
  }
}
