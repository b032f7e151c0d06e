/** Huffman's algorithm as jpeg_gen_optimal_table runs it: the symbols of each branch of the tree
    are chained through the array others, the counts of the branches are kept at their first
    symbols, and merging two branches makes all their codes one bit longer. */
module HuffmanTree {
  import opened HuffmanOptimal
  import opened HuffmanSums

  // ---- Sums over the symbols of a branch ----

  /** The share of the code space that the symbols of branch c below n take up. */
  function Kraft(cs: seq<nat>, root: seq<int>, c: int, n: nat): (k: real)
    requires n <= |cs| == |root|
    ensures k >= 0.0
  {
    if n == 0 then 0.0 else Kraft(cs, root, c, n - 1) + (if root[n - 1] == c then Half(cs[n - 1]) else 0.0)
  }

  lemma {:induction false} KraftSame(cs: seq<nat>, root: seq<int>, cs': seq<nat>, root': seq<int>, c: int, n: nat)
    requires n <= |cs| == |root| == |cs'| == |root'|
    requires forall s :: 0 <= s < n ==> (root[s] == c <==> root'[s] == c) && (root[s] == c ==> cs'[s] == cs[s])
    ensures Kraft(cs', root', c, n) == Kraft(cs, root, c, n)
  {
    if n > 0 { KraftSame(cs, root, cs', root', c, n - 1); }
  }

  /** Merging two branches halves the share of every symbol in them. */
  lemma {:induction false} KraftMerge(cs: seq<nat>, root: seq<int>, cs': seq<nat>, root': seq<int>, c1: int, c2: int, n: nat)
    requires n <= |cs| == |root| == |cs'| == |root'| && c1 != c2
    requires forall s :: 0 <= s < n ==> (root'[s] == c1 <==> root[s] == c1 || root[s] == c2)
    requires forall s :: 0 <= s < n && (root[s] == c1 || root[s] == c2) ==> cs'[s] == cs[s] + 1
    ensures Kraft(cs', root', c1, n) * 2.0 == Kraft(cs, root, c1, n) + Kraft(cs, root, c2, n)
  {
    if n > 0 { KraftMerge(cs, root, cs', root', c1, c2, n - 1); }
  }

  lemma {:induction false} KraftOne(cs: seq<nat>, root: seq<int>, c: int, n: nat)
    requires n <= |cs| == |root| && 0 <= c < n && cs[c] == 0
    requires forall s :: 0 <= s < n ==> (root[s] == c <==> s == c)
    ensures Kraft(cs, root, c, n) == 1.0
    decreases n
  {
    if c < n - 1 {
      KraftOne(cs, root, c, n - 1);
    } else {
      KraftNone(cs, root, c, n - 1);
    }
  }

  lemma {:induction false} KraftNone(cs: seq<nat>, root: seq<int>, c: int, n: nat)
    requires n <= |cs| == |root| && forall s :: 0 <= s < n ==> root[s] != c
    ensures Kraft(cs, root, c, n) == 0.0
  {
    if n > 0 { KraftNone(cs, root, c, n - 1); }
  }

  /** The least total count of a branch with a code of length n. */
  function Fib(n: nat): nat {
    if n == 0 then 1 else if n == 1 then 2 else Fib(n - 1) + Fib(n - 2)
  }

  // ---- The forest ----

  /** The branches: chain[c] lists the symbols of the branch that starts with c; root[s] is the
      branch of symbol s (-1 if s is not used), and pos[s] its place there. */
  datatype Branches = Branches(chain: seq<seq<nat>>, root: seq<int>, pos: seq<nat>)

  function After(chain: seq<nat>, k: nat): int {
    if k + 1 < |chain| then chain[k + 1] else -1
  }

  /** Following others from symbol to symbol runs through the chain. */
  ghost predicate Linked(chain: seq<nat>, others: seq<int>)
    requires |others| == SYMBOLS
  {
    forall k: nat :: k < |chain| ==> chain[k] < SYMBOLS && others[chain[k]] == After(chain, k)
  }

  ghost predicate Chained(b: Branches, others: seq<int>, c: nat)
    requires |b.chain| == |others| == SYMBOLS && c < SYMBOLS
  {
    Linked(b.chain[c], others)
  }

  /** Every used symbol is in one place of one branch; the branches have no cycles. */
  ghost predicate Partition(b: Branches, used: seq<bool>) {
    && |b.chain| == |b.root| == |b.pos| == |used| == SYMBOLS
    && (forall c, k :: 0 <= c < SYMBOLS && 0 <= k < |b.chain[c]| ==>
          b.chain[c][k] < SYMBOLS && b.root[b.chain[c][k]] == c && b.pos[b.chain[c][k]] == k)
    && (forall s :: 0 <= s < SYMBOLS ==> (used[s] <==> b.root[s] != -1))
    && (forall s :: 0 <= s < SYMBOLS && used[s] ==>
          0 <= b.root[s] < SYMBOLS && b.pos[s] < |b.chain[b.root[s]]| && b.chain[b.root[s]][b.pos[s]] == s)
  }

  ghost predicate Forest(b: Branches, freq: seq<nat>, codesize: seq<nat>, others: seq<int>, used: seq<bool>) {
    && Partition(b, used) && |freq| == |codesize| == |others| == SYMBOLS
    && (forall c :: 0 <= c < SYMBOLS ==> Chained(b, others, c))
    && (forall c :: 0 <= c < SYMBOLS ==> (freq[c] != 0 <==> b.chain[c] != []) && (freq[c] != 0 ==> b.chain[c][0] == c))
    && (forall c :: 0 <= c < SYMBOLS && freq[c] != 0 ==> Kraft(codesize, b.root, c, SYMBOLS) == 1.0)
    && (forall s :: 0 <= s < SYMBOLS && codesize[s] == 0 && used[s] ==> |b.chain[b.root[s]]| == 1)
    && (forall s :: 0 <= s < SYMBOLS && !used[s] ==> codesize[s] == 0)
  }

  /** Long codes need large counts: m is the larger of the two counts merged last. */
  ghost predicate Heavy(b: Branches, freq: seq<nat>, codesize: seq<nat>, m: nat) {
    && |b.root| == |freq| == |codesize| == SYMBOLS
    && (forall c :: 0 <= c < SYMBOLS && freq[c] != 0 ==> m <= freq[c])
    && (forall s :: 0 <= s < SYMBOLS && 0 <= b.root[s] < SYMBOLS ==>
          Fib(codesize[s]) <= freq[b.root[s]] && (codesize[s] > 0 ==> Fib(codesize[s] - 1) <= m))
  }

  // ---- One merge ----

  /** The symbol below n with the smallest nonzero frequency, apart from symbol c1; the largest of
      those with the same one, and -1 if there is none. */
  function Least(freq: seq<nat>, c1: int, n: nat): (c: int)
    requires n <= |freq|
    ensures -1 <= c < n && (c >= 0 ==> c != c1 && freq[c] != 0)
    ensures c == -1 ==> forall i :: 0 <= i < n && i != c1 ==> freq[i] == 0
    ensures c >= 0 ==> forall i :: 0 <= i < n && i != c1 && freq[i] != 0 ==> freq[c] <= freq[i]
    ensures c >= 0 ==> forall i :: c < i < n && i != c1 && freq[i] != 0 ==> freq[c] < freq[i]
  {
    if n == 0 then -1
    else
      var c := Least(freq, c1, n - 1);
      if freq[n - 1] != 0 && n - 1 != c1 && (c < 0 || freq[n - 1] <= freq[c]) then n - 1 else c
  }

  /** Least, searched for with a start value of 10^9. */
  method FindSmallest(freq: array<nat>, c1: int) returns (c: int)
    requires freq.Length == SYMBOLS && forall i :: 0 <= i < SYMBOLS ==> freq[i] <= 1000000000
    ensures c == Least(freq[..], c1, SYMBOLS)
  {
    c := -1;
    var v := 1000000000;
    for i := 0 to 257
      invariant c == Least(freq[..], c1, i) && v == if c >= 0 then freq[c] else 1000000000
    {
      if freq[i] != 0 && freq[i] <= v && i != c1 {
        v := freq[i];
        c := i;
      }
    }
  }

  lemma InBranch(b: Branches, c: nat, used: seq<bool>)
    requires Partition(b, used) && c < SYMBOLS
    ensures |b.chain| == |b.root| == |b.pos| == SYMBOLS
    ensures forall k: nat :: k < |b.chain[c]| ==> b.chain[c][k] < SYMBOLS && b.root[b.chain[c][k]] == c && b.pos[b.chain[c][k]] == k
    ensures forall s :: 0 <= s < SYMBOLS && b.root[s] == c ==> b.pos[s] < |b.chain[c]| && b.chain[c][b.pos[s]] == s
  {
  }

  /** Make every code of branch c0 one bit longer, and find the last symbol of its chain. */
  method Bump(codesize: array<nat>, others: array<int>, c0: nat, ghost b: Branches, ghost used: seq<bool>) returns (c: nat)
    requires codesize.Length == others.Length == SYMBOLS && codesize as object != others as object && c0 < SYMBOLS
    requires Partition(b, used) && Linked(b.chain[c0], others[..]) && b.chain[c0] != [] && b.chain[c0][0] == c0
    modifies codesize
    ensures c == b.chain[c0][|b.chain[c0]| - 1]
    ensures forall s :: 0 <= s < SYMBOLS ==> codesize[s] == old(codesize[s]) + if b.root[s] == c0 then 1 else 0
  {
    ghost var chain, o, cs, k := b.chain[c0], others[..], codesize[..], 0;
    InBranch(b, c0, used);
    hide Partition, Bumped;
    c := c0;
    BumpStart(cs, b, c0, used);
    assert o[chain[0]] == After(chain, 0);
    BumpOne(codesize, c, cs, b, c0, 0, used);
    while others[c] >= 0
      invariant 0 <= k < |chain| && c == chain[k] < SYMBOLS && others[..] == o && o[c] == After(chain, k)
      invariant Bumped(codesize[..], cs, b, c0, k + 1)
      decreases |chain| - k
    {
      c := others[c];
      k := k + 1;
      assert o[chain[k]] == After(chain, k);
      BumpOne(codesize, c, cs, b, c0, k, used);
    }
    BumpEnd(codesize[..], cs, b, c0, used);
  }

  /** The codesize of the first k symbols of the branch is one more than before. */
  predicate Bumped(now: seq<nat>, before: seq<nat>, b: Branches, c0: nat, k: nat) {
    && |now| == |before| == |b.root| == |b.pos| == SYMBOLS
    && forall s :: 0 <= s < SYMBOLS ==> now[s] == before[s] + if b.root[s] == c0 && b.pos[s] < k then 1 else 0
  }

  lemma BumpStart(cs: seq<nat>, b: Branches, c0: nat, used: seq<bool>)
    requires |cs| == SYMBOLS && Partition(b, used)
    ensures Bumped(cs, cs, b, c0, 0)
  {
  }

  method BumpOne(codesize: array<nat>, c: nat, ghost before: seq<nat>, ghost b: Branches, ghost c0: nat, ghost k: nat, ghost used: seq<bool>)
    requires codesize.Length == SYMBOLS && Partition(b, used) && c0 < SYMBOLS && k < |b.chain[c0]| && c == b.chain[c0][k]
    requires Bumped(codesize[..], before, b, c0, k)
    modifies codesize
    ensures Bumped(codesize[..], before, b, c0, k + 1)
  {
    InBranch(b, c0, used);
    hide Partition;
    codesize[c] := codesize[c] + 1;
  }

  lemma BumpEnd(now: seq<nat>, before: seq<nat>, b: Branches, c0: nat, used: seq<bool>)
    requires Partition(b, used) && c0 < SYMBOLS && Bumped(now, before, b, c0, |b.chain[c0]|)
    ensures forall s :: 0 <= s < SYMBOLS ==> now[s] == before[s] + if b.root[s] == c0 then 1 else 0
  {
  }

  function Merged(b: Branches, c1: nat, c2: nat): (r: Branches)
    requires |b.chain| == |b.root| == |b.pos| == SYMBOLS && c1 < SYMBOLS && c2 < SYMBOLS
    ensures |r.chain| == |r.root| == |r.pos| == SYMBOLS
  {
    Branches(
      b.chain[c1 := b.chain[c1] + b.chain[c2]][c2 := []],
      seq(SYMBOLS, s requires 0 <= s < SYMBOLS => if b.root[s] == c2 then c1 else b.root[s]),
      seq(SYMBOLS, s requires 0 <= s < SYMBOLS => if b.root[s] == c2 then b.pos[s] + |b.chain[c1]| else b.pos[s]))
  }

  lemma MergedPartition(b: Branches, c1: nat, c2: nat, used: seq<bool>)
    requires Partition(b, used) && c1 < SYMBOLS && c2 < SYMBOLS && c1 != c2
    ensures Partition(Merged(b, c1, c2), used)
  {
  }

  /** The links of the merged branch: the end of the first chain leads to the second. */
  lemma JoinedLinks(x: seq<nat>, y: seq<nat>, o: seq<int>)
    requires |o| == SYMBOLS && x != [] && y != [] && Linked(x, o) && Linked(y, o)
    requires forall i :: 0 <= i < |x| - 1 ==> x[i] != x[|x| - 1]
    requires forall i :: 0 <= i < |y| ==> y[i] != x[|x| - 1]
    ensures Linked(x + y, o[x[|x| - 1] := y[0]])
  {
    var z, o' := x + y, o[x[|x| - 1] := y[0]];
    forall k: nat | k < |z| ensures z[k] < SYMBOLS && o'[z[k]] == After(z, k) {
      if k < |x| {
        assert o[x[k]] == After(x, k);
      } else {
        assert o[y[k - |x|]] == After(y, k - |x|);
      }
    }
  }

  lemma MergedChained(b: Branches, c1: nat, c2: nat, used: seq<bool>, o: seq<int>, o': seq<int>, c: nat)
    requires Partition(b, used) && c1 < SYMBOLS && c2 < SYMBOLS && c1 != c2 && |o| == |o'| == SYMBOLS && c < SYMBOLS
    requires Chained(b, o, c) && Chained(b, o, c1) && Chained(b, o, c2)
    requires b.chain[c1] != [] && b.chain[c2] != [] && b.chain[c2][0] == c2
    requires o' == o[b.chain[c1][|b.chain[c1]| - 1] := c2]
    ensures Chained(Merged(b, c1, c2), o', c)
  {
    Separate(b, c1, c2, used);
    if c == c1 {
      JoinedLinks(b.chain[c1], b.chain[c2], o);
    } else if c != c2 {
      Separate(b, c1, c, used);
      StillLinked(b.chain[c], o, b.chain[c1][|b.chain[c1]| - 1], c2);
    }
  }

  lemma StillLinked(x: seq<nat>, o: seq<int>, i: nat, v: int)
    requires |o| == SYMBOLS && Linked(x, o) && i < SYMBOLS && forall k :: 0 <= k < |x| ==> x[k] != i
    ensures Linked(x, o[i := v])
  {
  }

  /** The last symbol of a chain is nowhere else. */
  lemma Separate(b: Branches, c: nat, d: nat, used: seq<bool>)
    requires Partition(b, used) && c < SYMBOLS && d < SYMBOLS && d != c && b.chain[c] != []
    ensures var x := b.chain[c]; forall i :: 0 <= i < |x| - 1 ==> x[i] != x[|x| - 1]
    ensures var x := b.chain[c]; forall i :: 0 <= i < |b.chain[d]| ==> b.chain[d][i] != x[|x| - 1]
  {
    var x := b.chain[c];
    assert b.root[x[|x| - 1]] == c && b.pos[x[|x| - 1]] == |x| - 1;
  }

  /** The code lengths after that. */
  ghost predicate MergedSizes(cs: seq<nat>, cs': seq<nat>, b: Branches, c1: nat, c2: nat) {
    && |cs| == |cs'| == |b.root| == SYMBOLS
    && forall s :: 0 <= s < SYMBOLS ==> cs'[s] == cs[s] + if b.root[s] == c1 || b.root[s] == c2 then 1 else 0
  }

  lemma MergedKraft(b: Branches, cs: seq<nat>, cs': seq<nat>, c1: nat, c2: nat, c: nat)
    requires |b.chain| == |b.pos| == SYMBOLS && MergedSizes(cs, cs', b, c1, c2) && c1 < SYMBOLS && c2 < SYMBOLS && c1 != c2 && c < SYMBOLS
    requires Kraft(cs, b.root, c1, SYMBOLS) == 1.0 && Kraft(cs, b.root, c2, SYMBOLS) == 1.0
    ensures var r := Merged(b, c1, c2);
      Kraft(cs', r.root, c, SYMBOLS) == if c == c1 then 1.0 else if c == c2 then 0.0 else Kraft(cs, b.root, c, SYMBOLS)
  {
    var r := Merged(b, c1, c2);
    if c == c1 {
      KraftMerge(cs, b.root, cs', r.root, c1, c2, SYMBOLS);
    } else if c == c2 {
      KraftNone(cs', r.root, c2, SYMBOLS);
    } else {
      KraftSame(cs, b.root, cs', r.root, c, SYMBOLS);
    }
  }

  /** A merge keeps the forest in order. */
  lemma MergedForest(b: Branches, freq: seq<nat>, cs: seq<nat>, o: seq<int>, used: seq<bool>, c1: nat, c2: nat, cs': seq<nat>, o': seq<int>)
    requires Forest(b, freq, cs, o, used) && c1 < SYMBOLS && c2 < SYMBOLS && c1 != c2 && freq[c1] != 0 && freq[c2] != 0
    requires MergedSizes(cs, cs', b, c1, c2) && |o'| == SYMBOLS && o' == o[b.chain[c1][|b.chain[c1]| - 1] := c2]
    ensures Forest(Merged(b, c1, c2), MergedFreq(freq, c1, c2), cs', o', used)
  {
    hide Linked, Kraft, Chained;
    var r, f := Merged(b, c1, c2), MergedFreq(freq, c1, c2);
    MergedPartition(b, c1, c2, used);
    forall c | 0 <= c < SYMBOLS ensures Chained(r, o', c) { MergedChained(b, c1, c2, used, o, o', c); }
    forall c | 0 <= c < SYMBOLS && f[c] != 0 ensures Kraft(cs', r.root, c, SYMBOLS) == 1.0 {
      MergedKraft(b, cs, cs', c1, c2, c);
    }
    MergedShape(b, freq, cs, used, c1, c2, cs');
  }

  lemma MergedShape(b: Branches, freq: seq<nat>, cs: seq<nat>, used: seq<bool>, c1: nat, c2: nat, cs': seq<nat>)
    requires Partition(b, used) && |freq| == SYMBOLS && c1 < SYMBOLS && c2 < SYMBOLS && c1 != c2 && MergedSizes(cs, cs', b, c1, c2)
    requires forall c :: 0 <= c < SYMBOLS ==> (freq[c] != 0 <==> b.chain[c] != []) && (freq[c] != 0 ==> b.chain[c][0] == c)
    requires forall s :: 0 <= s < SYMBOLS && cs[s] == 0 && used[s] ==> |b.chain[b.root[s]]| == 1
    requires forall s :: 0 <= s < SYMBOLS && !used[s] ==> cs[s] == 0
    requires freq[c1] != 0 && freq[c2] != 0
    ensures var r, f := Merged(b, c1, c2), MergedFreq(freq, c1, c2);
      && (forall c :: 0 <= c < SYMBOLS ==> (f[c] != 0 <==> r.chain[c] != []) && (f[c] != 0 ==> r.chain[c][0] == c))
      && (forall s :: 0 <= s < SYMBOLS && cs'[s] == 0 && used[s] ==> 0 <= r.root[s] < SYMBOLS && |r.chain[r.root[s]]| == 1)
      && (forall s :: 0 <= s < SYMBOLS && !used[s] ==> cs'[s] == 0)
  {
    var r, f := Merged(b, c1, c2), MergedFreq(freq, c1, c2);
    forall c | 0 <= c < SYMBOLS ensures (f[c] != 0 <==> r.chain[c] != []) && (f[c] != 0 ==> r.chain[c][0] == c) {
      assert c != c1 && c != c2 ==> r.chain[c] == b.chain[c];
    }
    forall s | 0 <= s < SYMBOLS && cs'[s] == 0 && used[s] ensures 0 <= r.root[s] < SYMBOLS && |r.chain[r.root[s]]| == 1 {
      assert b.root[s] != c1 && b.root[s] != c2 && r.chain[b.root[s]] == b.chain[b.root[s]];
    }
  }

  /** A code gets one bit longer only when the other branch weighs at least as much as the
      branches merged before. */
  lemma MergedHeavy(b: Branches, freq: seq<nat>, cs: seq<nat>, cs': seq<nat>, c1: nat, c2: nat, m: nat)
    requires |b.chain| == |b.pos| == SYMBOLS && Heavy(b, freq, cs, m) && MergedSizes(cs, cs', b, c1, c2)
    requires c1 < SYMBOLS && c2 < SYMBOLS && c1 != c2 && 0 < freq[c1] <= freq[c2]
    requires forall i :: 0 <= i < SYMBOLS && i != c1 && freq[i] != 0 ==> freq[c2] <= freq[i]
    ensures Heavy(Merged(b, c1, c2), MergedFreq(freq, c1, c2), cs', freq[c2])
  {
    hide Fib;
    var r, f := Merged(b, c1, c2), MergedFreq(freq, c1, c2);
    forall s | 0 <= s < SYMBOLS && 0 <= r.root[s] < SYMBOLS
      ensures Fib(cs'[s]) <= f[r.root[s]] && (cs'[s] > 0 ==> Fib(cs'[s] - 1) <= freq[c2])
    {
      FibStep(cs[s]);
      assert 0 <= b.root[s] < SYMBOLS;
    }
  }

  lemma FibStep(n: nat)
    ensures Fib(n + 1) == if n == 0 then 2 else Fib(n) + Fib(n - 1)
    ensures Fib(0) == 1
  {
  }

  // ---- The code as a whole has the least cost ----

  /** The count of all symbols of branch c below n. */
  function Weight(first: seq<nat>, root: seq<int>, c: int, n: nat): nat
    requires n <= |first| == |root|
  {
    if n == 0 then 0 else Weight(first, root, c, n - 1) + (if root[n - 1] == c then first[n - 1] else 0)
  }

  lemma {:induction false} WeightSame(first: seq<nat>, root: seq<int>, root': seq<int>, c: int, n: nat)
    requires n <= |first| == |root| == |root'| && forall s :: 0 <= s < n ==> (root'[s] == c <==> root[s] == c)
    ensures Weight(first, root', c, n) == Weight(first, root, c, n)
  {
    if n > 0 { WeightSame(first, root, root', c, n - 1); }
  }

  lemma {:induction false} WeightNone(first: seq<nat>, root: seq<int>, c: int, n: nat)
    requires n <= |first| == |root| && forall s :: 0 <= s < n ==> root[s] != c
    ensures Weight(first, root, c, n) == 0
  {
    if n > 0 { WeightNone(first, root, c, n - 1); }
  }

  lemma {:induction false} WeightOne(first: seq<nat>, root: seq<int>, c: nat, n: nat)
    requires n <= |first| == |root| && c < |root|
    requires forall s :: 0 <= s < n ==> root[s] == if first[s] != 0 then s else -1
    ensures Weight(first, root, c, n) == if c < n then first[c] else 0
  {
    if n > 0 { WeightOne(first, root, c, n - 1); }
  }

  lemma {:induction false} WeightMerge(first: seq<nat>, root: seq<int>, root': seq<int>, c1: int, c2: int, n: nat)
    requires n <= |first| == |root| == |root'| && c1 != c2
    requires forall s :: 0 <= s < n ==> (root'[s] == c1 <==> root[s] == c1 || root[s] == c2)
    ensures Weight(first, root', c1, n) == Weight(first, root, c1, n) + Weight(first, root, c2, n)
  {
    if n > 0 { WeightMerge(first, root, root', c1, c2, n - 1); }
  }

  /** One more bit for all symbols of two branches costs the weight of the two. */
  lemma {:induction false} CostMerge(first: seq<nat>, root: seq<int>, cs: seq<nat>, cs': seq<nat>, c1: int, c2: int, n: nat)
    requires n <= |first| == |root| == |cs| == |cs'| && c1 != c2
    requires forall s :: 0 <= s < n ==> cs'[s] == cs[s] + if root[s] == c1 || root[s] == c2 then 1 else 0
    ensures Cost(first, cs', n) == Cost(first, cs, n) + Weight(first, root, c1, n) + Weight(first, root, c2, n)
  {
    if n > 0 {
      CostMerge(first, root, cs, cs', c1, c2, n - 1);
      var f, l := first[n - 1], cs[n - 1];
      assert f * (l + 1) == f * l + f;
    }
  }

  lemma {:induction false} CostNone(first: seq<nat>, cs: seq<nat>, n: nat)
    requires n <= |first| == |cs| && forall s :: 0 <= s < n ==> cs[s] == 0
    ensures Cost(first, cs, n) == 0
  {
    if n > 0 { CostNone(first, cs, n - 1); }
  }

  /** The branches weigh what freq says, and whatever cost their own code must have, a code for
      the symbols must cost that much and what has been spent on the symbols so far. */
  ghost predicate Thrifty(b: Branches, first: seq<nat>, freq: seq<nat>, cs: seq<nat>) {
    && |b.root| == |first| == |freq| == |cs| == SYMBOLS
    && (forall c :: 0 <= c < SYMBOLS ==> freq[c] == Weight(first, b.root, c, SYMBOLS))
    && Reduces(freq, first, Cost(first, cs, SYMBOLS))
  }

  lemma StartThrifty(freq: seq<nat>, cs: seq<nat>)
    requires |freq| == |cs| == SYMBOLS && forall s :: 0 <= s < SYMBOLS ==> cs[s] == 0
    ensures Thrifty(Separated(freq), freq, freq, cs)
  {
    hide Cost, Weight, Reduces;
    var b := Separated(freq);
    forall c | 0 <= c < SYMBOLS ensures freq[c] == Weight(freq, b.root, c, SYMBOLS) { WeightOne(freq, b.root, c, SYMBOLS); }
    CostNone(freq, cs, SYMBOLS);
    ReducesStart(freq);
  }

  lemma MergedWeight(b: Branches, first: seq<nat>, freq: seq<nat>, c1: nat, c2: nat, c: nat)
    requires |b.chain| == |b.root| == |b.pos| == |first| == |freq| == SYMBOLS && c1 < SYMBOLS && c2 < SYMBOLS && c1 != c2 && c < SYMBOLS
    requires forall c :: 0 <= c < SYMBOLS ==> freq[c] == Weight(first, b.root, c, SYMBOLS)
    ensures MergedFreq(freq, c1, c2)[c] == Weight(first, Merged(b, c1, c2).root, c, SYMBOLS)
  {
    hide Weight;
    var root := Merged(b, c1, c2).root;
    if c == c1 {
      WeightMerge(first, b.root, root, c1, c2, SYMBOLS);
    } else if c == c2 {
      WeightNone(first, root, c2, SYMBOLS);
    } else {
      WeightSame(first, b.root, root, c, SYMBOLS);
    }
  }

  lemma MergedThrifty(b: Branches, first: seq<nat>, freq: seq<nat>, cs: seq<nat>, cs': seq<nat>, c1: nat, c2: nat)
    requires |b.chain| == |b.pos| == SYMBOLS && Thrifty(b, first, freq, cs) && Lightest(freq, c1, c2) && MergedSizes(cs, cs', b, c1, c2)
    ensures Thrifty(Merged(b, c1, c2), first, MergedFreq(freq, c1, c2), cs')
  {
    hide Cost, Weight, Reduces, Merged;
    forall c | 0 <= c < SYMBOLS ensures MergedFreq(freq, c1, c2)[c] == Weight(first, Merged(b, c1, c2).root, c, SYMBOLS) {
      MergedWeight(b, first, freq, c1, c2, c);
    }
    CostMerge(first, b.root, cs, cs', c1, c2, SYMBOLS);
    ReducesMerged(freq, first, Cost(first, cs, SYMBOLS), c1, c2);
  }

  // ---- The whole algorithm ----

  /** Exactly the used symbols have codes, the codes fill the code space, and a code of n bits
      needs a total count of at least the n'th Fibonacci number. */
  ghost predicate CodeOk(cs: seq<nat>, used: seq<bool>, total: nat) {
    && |cs| == |used| == SYMBOLS
    && (forall s :: 0 <= s < SYMBOLS ==> (used[s] <==> cs[s] > 0))
    && KraftUsed(cs, used, SYMBOLS) == 1.0
    && (forall s :: 0 <= s < SYMBOLS && used[s] ==> Fib(cs[s]) <= total)
  }

  function Separated(freq: seq<nat>): (b: Branches)
    requires |freq| == SYMBOLS
    ensures |b.chain| == |b.root| == |b.pos| == SYMBOLS
  {
    Branches(
      seq(SYMBOLS, c requires 0 <= c < SYMBOLS => if freq[c] != 0 then [c] else []),
      seq(SYMBOLS, s requires 0 <= s < SYMBOLS => if freq[s] != 0 then s else -1),
      seq(SYMBOLS, _ => 0))
  }

  lemma StartForest(freq: seq<nat>, cs: seq<nat>, o: seq<int>)
    requires |freq| == |cs| == |o| == SYMBOLS
    requires forall s :: 0 <= s < SYMBOLS ==> cs[s] == 0 && o[s] == -1
    ensures Forest(Separated(freq), freq, cs, o, Used(freq))
    ensures Heavy(Separated(freq), freq, cs, 1)
  {
    var b := Separated(freq);
    FibStep(0);
    forall c | 0 <= c < SYMBOLS && freq[c] != 0 ensures Kraft(cs, b.root, c, SYMBOLS) == 1.0 { KraftOne(cs, b.root, c, SYMBOLS); }
    assert Partition(b, Used(freq));
    forall c | 0 <= c < SYMBOLS ensures Chained(b, o, c) {}
  }

  function Live(freq: seq<nat>, n: nat): nat
    requires n <= |freq|
  {
    if n == 0 then 0 else Live(freq, n - 1) + (if freq[n - 1] != 0 then 1 else 0)
  }

  lemma {:induction false} LiveUpdate(f: seq<nat>, i: nat, v: nat, n: nat)
    requires n <= |f| && i < |f|
    ensures Live(f[i := v], n) == if i < n then Live(f, n) - (if f[i] != 0 then 1 else 0) + (if v != 0 then 1 else 0) else Live(f, n)
    decreases n
  {
    if n > 0 { LiveUpdate(f, i, v, n - 1); }
  }

  /** A merge keeps the total and takes one branch away. */
  lemma MergedSums(freq: seq<nat>, c1: nat, c2: nat)
    requires |freq| == SYMBOLS && c1 < SYMBOLS && c2 < SYMBOLS && c1 != c2 && freq[c1] != 0 && freq[c2] != 0
    ensures var f := MergedFreq(freq, c1, c2); Sum(f, SYMBOLS) == Sum(freq, SYMBOLS) && Live(f, SYMBOLS) < Live(freq, SYMBOLS)
  {
    hide Sum, Live;
    var x := freq[c1] + freq[c2];
    SumUpdate(freq, c1, x, SYMBOLS);
    SumUpdate(freq[c1 := x], c2, 0, SYMBOLS);
    LiveUpdate(freq, c1, x, SYMBOLS);
    LiveUpdate(freq[c1 := x], c2, 0, SYMBOLS);
  }

  lemma EachAtMost(freq: seq<nat>, bound: nat)
    requires |freq| == SYMBOLS && Sum(freq, SYMBOLS) <= bound
    ensures forall i :: 0 <= i < SYMBOLS ==> freq[i] <= bound
  {
    hide Sum;
    forall i | 0 <= i < SYMBOLS ensures freq[i] <= bound { SumUpdate(freq, i, 0, SYMBOLS); }
  }

  // ---- The code lengths as a function of the counts ----

  function Longer(cs: seq<nat>, b: Branches, c1: nat, c2: nat): (r: seq<nat>)
    requires |cs| == |b.root| == SYMBOLS
    ensures MergedSizes(cs, r, b, c1, c2)
  {
    seq(SYMBOLS, s requires 0 <= s < SYMBOLS => cs[s] + if b.root[s] == c1 || b.root[s] == c2 then 1 else 0)
  }

  /** The lengths when branches b with these counts, whose codes are cs so far, have been merged. */
  function Lengths(b: Branches, freq: seq<nat>, cs: seq<nat>): (r: seq<nat>)
    requires |b.chain| == |b.root| == |b.pos| == |freq| == |cs| == SYMBOLS
    ensures |r| == SYMBOLS
    decreases Live(freq, SYMBOLS)
  {
    hide Merged, MergedFreq, Longer, Live, Least;
    var c1 := Least(freq, -1, SYMBOLS);
    var c2 := Least(freq, c1, SYMBOLS);
    if c2 < 0 then cs
    else
      MergedSums(freq, c1, c2);
      Lengths(Merged(b, c1, c2), MergedFreq(freq, c1, c2), Longer(cs, b, c1, c2))
  }

  /** The code length of every symbol, for these counts. */
  function CodeLengths(freq: seq<nat>): (r: seq<nat>)
    requires |freq| == SYMBOLS
    ensures |r| == SYMBOLS
  {
    Lengths(Separated(freq), freq, seq(SYMBOLS, _ => 0))
  }

  lemma LengthsStep(b: Branches, freq: seq<nat>, cs: seq<nat>, c1: nat, c2: nat, freq': seq<nat>, cs': seq<nat>)
    requires |b.chain| == |b.root| == |b.pos| == |freq| == |cs| == SYMBOLS
    requires c1 == Least(freq, -1, SYMBOLS) && c2 == Least(freq, c1, SYMBOLS)
    requires freq' == MergedFreq(freq, c1, c2) && MergedSizes(cs, cs', b, c1, c2)
    ensures Lengths(Merged(b, c1, c2), freq', cs') == Lengths(b, freq, cs)
  {
    hide Merged, MergedFreq, Least, Live;
    assert cs' == Longer(cs, b, c1, c2);
  }

  lemma LengthsEnd(b: Branches, freq: seq<nat>, cs: seq<nat>)
    requires |b.chain| == |b.root| == |b.pos| == |freq| == |cs| == SYMBOLS
    requires Least(freq, Least(freq, -1, SYMBOLS), SYMBOLS) < 0
    ensures Lengths(b, freq, cs) == cs
  {
    hide Least;
  }

  /** Merge the two lightest branches. */
  method MergeStep(freq: array<nat>, codesize: array<nat>, others: array<int>, c1: nat, c2: nat, ghost b: Branches, ghost used: seq<bool>)
    requires freq.Length == codesize.Length == others.Length == SYMBOLS
    requires freq != codesize && codesize as object != others as object && freq as object != others as object
    requires Forest(b, freq[..], codesize[..], others[..], used) && c1 < SYMBOLS && c2 < SYMBOLS && c1 != c2 && freq[c1] != 0 && freq[c2] != 0
    modifies freq, codesize, others
    ensures freq[..] == MergedFreq(old(freq[..]), c1, c2) && MergedSizes(old(codesize[..]), codesize[..], b, c1, c2)
    ensures Forest(Merged(b, c1, c2), freq[..], codesize[..], others[..], used)
  {
    hide Kraft;
    ghost var f0, cs0, o := freq[..], codesize[..], others[..];
    freq[c1] := freq[c1] + freq[c2];
    freq[c2] := 0;
    assert freq[..] == MergedFreq(f0, c1, c2);
    assert Chained(b, o, c1) && Chained(b, o, c2);
    var last := Bump(codesize, others, c1, b, used);
    ghost var cs1 := codesize[..];
    InBranch(b, c1, used);
    others[last] := c2;
    assert others[..] == o[last := c2];
    Separate(b, c1, c2, used);
    StillLinked(b.chain[c2], o, last, c2);
    var _ := Bump(codesize, others, c2, b, used);
    MergedForest(b, f0, cs0, o, used, c1, c2, codesize[..], others[..]);
  }

  /** Merge branches until one is left: its code has exactly the used symbols, fills the code space,
      and takes no more bits for these counts than any other prefix code. */
  method CodeSizes(freq: array<nat>, codesize: array<nat>, others: array<int>)
    requires freq.Length == codesize.Length == others.Length == SYMBOLS
    requires freq != codesize && codesize as object != others as object && freq as object != others as object
    requires forall s :: 0 <= s < SYMBOLS ==> codesize[s] == 0 && others[s] == -1
    requires Sum(freq[..], SYMBOLS) <= 1000000000 && UsedBelow(Used(freq[..]), SYMBOLS) >= 2
    modifies freq, codesize, others
    ensures CodeOk(codesize[..], old(Used(freq[..])), old(Sum(freq[..], SYMBOLS)))
    ensures Minimum(old(freq[..]), codesize[..])
    ensures codesize[..] == CodeLengths(old(freq[..]))
  {
    hide Lengths, Least, Forest, Heavy, Thrifty, Merged, MergedSizes, MergedFreq, Sum, Live, UsedBelow, CodeOk, Minimum;
    ghost var first, used, total, m := freq[..], Used(freq[..]), Sum(freq[..], SYMBOLS), 1;
    ghost var b := Separated(first);
    StartForest(first, codesize[..], others[..]);
    StartThrifty(first, codesize[..]);
    assert codesize[..] == seq(SYMBOLS, _ => 0);
    var c1: int;
    while true
      invariant Forest(b, freq[..], codesize[..], others[..], used) && Heavy(b, freq[..], codesize[..], m)
      invariant Sum(freq[..], SYMBOLS) == total && Thrifty(b, first, freq[..], codesize[..])
      invariant |b.chain| == |b.root| == |b.pos| == SYMBOLS && Lengths(b, freq[..], codesize[..]) == CodeLengths(first)
      decreases Live(freq[..], SYMBOLS)
    {
      ghost var f, cs := freq[..], codesize[..];
      EachAtMost(f, 1000000000);
      c1 := FindSmallest(freq, -1);
      var c2 := FindSmallest(freq, c1);
      if c2 < 0 { break; }
      MergedSums(f, c1, c2);
      MergeStep(freq, codesize, others, c1, c2, b, used);
      MergedHeavy(b, f, cs, codesize[..], c1, c2, m);
      MergedThrifty(b, first, f, cs, codesize[..], c1, c2);
      LengthsStep(b, f, cs, c1, c2, freq[..], codesize[..]);
      b, m := Merged(b, c1, c2), f[c2];
    }
    OneTree(b, freq[..], codesize[..], others[..], used, m, total, c1);
    LastThrifty(b, first, freq[..], codesize[..]);
    LengthsEnd(b, freq[..], codesize[..]);
  }

  lemma LastThrifty(b: Branches, first: seq<nat>, freq: seq<nat>, cs: seq<nat>)
    requires Thrifty(b, first, freq, cs)
    ensures Minimum(first, cs)
  {
    hide Reduces, Minimum, Weight, Cost;
    NoneBetter(freq, first, Cost(first, cs, SYMBOLS), cs);
  }

  lemma {:induction false} TwoUsed(used: seq<bool>, n: nat) returns (s: nat, t: nat)
    requires n <= |used| && UsedBelow(used, n) >= 2
    ensures s < t < n && used[s] && used[t]
  {
    if UsedBelow(used, n - 1) >= 2 {
      s, t := TwoUsed(used, n - 1);
    } else {
      s := SomeUsed(used, n - 1);
      t := n - 1;
    }
  }

  lemma {:induction false} SomeUsed(used: seq<bool>, n: nat) returns (s: nat)
    requires n <= |used| && UsedBelow(used, n) >= 1
    ensures s < n && used[s]
  {
    if used[n - 1] { s := n - 1; } else { s := SomeUsed(used, n - 1); }
  }

  lemma {:induction false} KraftIsUsed(cs: seq<nat>, root: seq<int>, c: int, used: seq<bool>, n: nat)
    requires n <= |cs| == |root| == |used| && forall s :: 0 <= s < n ==> (used[s] <==> root[s] == c)
    ensures KraftUsed(cs, used, n) == Kraft(cs, root, c, n)
  {
    if n > 0 { KraftIsUsed(cs, root, c, used, n - 1); }
  }

  /** When only one branch is left, it is the code. */
  lemma OneTree(b: Branches, freq: seq<nat>, cs: seq<nat>, o: seq<int>, used: seq<bool>, m: nat, total: nat, c: int)
    requires Forest(b, freq, cs, o, used) && Heavy(b, freq, cs, m) && Sum(freq, SYMBOLS) == total && UsedBelow(used, SYMBOLS) >= 2
    requires forall i :: 0 <= i < SYMBOLS && i != c ==> freq[i] == 0
    ensures CodeOk(cs, used, total)
  {
    hide Sum, Kraft, KraftUsed, UsedBelow, Fib, Chained;
    var s, t := TwoUsed(used, SYMBOLS);
    forall x | 0 <= x < SYMBOLS && used[x] ensures b.root[x] == c { assert b.chain[b.root[x]] != []; }
    KraftIsUsed(cs, b.root, c, used, SYMBOLS);
    EachAtMost(freq, total);
    assert b.pos[s] != b.pos[t] && |b.chain[c]| > 1;
  }
}
