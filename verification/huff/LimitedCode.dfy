/** Which code lengths the limiting to 16 bits leads to, without the order of its steps. */
module LimitedCode {
  import opened Radix
  import opened HuffmanSums
  import opened CodeSpace

  /** The number of codes longer than l. */
  function Beyond(bits: seq<nat>, l: nat): int
    requires |bits| == MAX_CLEN + 1 && l <= MAX_CLEN
  {
    Sum(bits, MAX_CLEN + 1) - Sum(bits, l + 1)
  }

  /** The code space that the codes of at most l bits leave, in units of codes of 16 bits. */
  function Room(bits: seq<nat>, l: nat): int
    requires |bits| == MAX_CLEN + 1 && l <= 16
  {
    Pow2(16) - Space(bits, 16, l + 1)
  }

  /** The codes of at most l bits take up no more code space than before; and if they take up less,
      it is because one more of them would not leave room for 16 bits for each of the others. */
  predicate LimitedAt(was: seq<nat>, bits: seq<nat>, l: nat)
    requires |was| == |bits| == MAX_CLEN + 1 && l <= 15
  {
    && Room(bits, l) >= Room(was, l)
    && (Room(bits, l) > Room(was, l) ==> Beyond(bits, l) - 1 > Room(bits, l) - Pow2(16 - l))
  }

  predicate Limited(was: seq<nat>, bits: seq<nat>) {
    |was| == |bits| == MAX_CLEN + 1 && forall l :: 0 <= l <= 15 ==> LimitedAt(was, bits, l)
  }

  lemma NotYet(bits: seq<nat>)
    requires |bits| == MAX_CLEN + 1
    ensures Limited(bits, bits)
  {
  }

  // ---- A rewriting step ----

  lemma {:induction false} SumSame(x: seq<nat>, y: seq<nat>, n: nat)
    requires n <= |x| && n <= |y| && forall k :: 0 <= k < n ==> x[k] == y[k]
    ensures Sum(x, n) == Sum(y, n)
  {
    if n > 0 { SumSame(x, y, n - 1); }
  }

  /** Codes of at least 16 bits take up at most the space of one of 16 bits each; less, if one of
      them is longer. */
  lemma {:induction false} LongCodes(bits: seq<nat>, l: nat, i: nat, n: nat)
    requires |bits| == MAX_CLEN + 1 && l < n <= MAX_CLEN + 1 && forall k :: l < k < n && k < 16 ==> bits[k] == 0
    requires 16 < i && i <= MAX_CLEN && bits[i] > 0
    ensures var space, count := Space(bits, MAX_CLEN, n) - Space(bits, MAX_CLEN, l + 1), Sum(bits, n) - Sum(bits, l + 1);
      count >= 0 && space <= count * Pow2(16) && (l < i < n ==> space < count * Pow2(16))
    decreases n
  {
    hide Pow2;
    if n > l + 1 {
      var k := n - 1;
      LongCodes(bits, l, i, k);
      var count := Sum(bits, k) - Sum(bits, l + 1);
      if k >= 16 {
        Shrinks(k);
        MulOrder(Pow2(MAX_CLEN - k), Pow2(16), bits[k]);
      }
      Factor(count, bits[k], Pow2(16));
    }
  }

  lemma Shrinks(k: nat)
    requires 16 <= k <= MAX_CLEN
    ensures 0 < Pow2(MAX_CLEN - k) <= Pow2(16) && (k > 16 ==> Pow2(MAX_CLEN - k) < Pow2(16))
  {
    hide Pow2;
    if k > 16 { Pow2Grows(MAX_CLEN - k, 16); }
    Positive(MAX_CLEN - k);
  }

  lemma Positive(n: nat)
    ensures 0 < Pow2(n)
  {
  }

  /** While a code is longer than 16 bits and none lies between l and 16, the others do not fit. */
  lemma Crowded(bits: seq<nat>, n: nat, l: nat, i: nat)
    requires Full(bits, n) && l <= 16 < i <= MAX_CLEN && bits[i] > 0 && forall k :: l < k < 16 ==> bits[k] == 0
    ensures Beyond(bits, l) > Room(bits, l)
  {
    hide Pow2, Sum, Space;
    LongCodes(bits, l, i, MAX_CLEN + 1);
    SpaceScale(bits, l + 1);
    Pow2Add(16, 16);
    var room := Room(bits, l);
    assert Space(bits, MAX_CLEN, l + 1) == Space(bits, 16, l + 1) * Pow2(16);
    assert Pow2(MAX_CLEN) == Pow2(16) * Pow2(16);
    if Beyond(bits, l) <= room {
      MulOrder(Beyond(bits, l), room, Pow2(16));
      Factor(room, Space(bits, 16, l + 1), Pow2(16));
    }
  }

  /** What a step changes among the codes of at most l bits. */
  lemma StepAt(b: seq<nat>, n: nat, i: nat, j: nat, l: nat)
    requires Full(b, n) && 16 < i <= MAX_CLEN && 1 <= j <= i - 2 && b[i] >= 2 && b[j] >= 1 && l <= 15
    requires Full(Rewritten(b, i, j), n)
    ensures var r := Rewritten(b, i, j);
      if l < j then Room(r, l) == Room(b, l) && Beyond(r, l) == Beyond(b, l)
      else if l == j then Room(r, l) == Room(b, l) + Pow2(16 - l) && Beyond(r, l) == Beyond(b, l) + 1
      else Room(r, l) == Room(b, l) && Beyond(r, l) == Beyond(b, l) - 1
  {
    hide Pow2, Sum, Space;
    var r := Rewritten(b, i, j);
    if l < j {
      SpaceSame(b, r, 16, l + 1);
      SumSame(b, r, l + 1);
    } else {
      var b0 := b[j := b[j] - 1];
      SumUpdate(b, j, b[j] - 1, l + 1);
      SpaceUpdate(b, 16, j, b[j] - 1, l + 1);
      Factor(b[j] - 1, 1, Pow2(16 - j));
      if l == j {
        SpaceSame(b0, r, 16, l + 1);
        SumSame(b0, r, l + 1);
      } else {
        var b1 := b0[j + 1 := b0[j + 1] + 2];
        SumUpdate(b0, j + 1, b0[j + 1] + 2, l + 1);
        SpaceUpdate(b0, 16, j + 1, b0[j + 1] + 2, l + 1);
        Factor(b0[j + 1], 2, Pow2(16 - (j + 1)));
        Pow2Step(16 - (j + 1));
        SpaceSame(b1, r, 16, l + 1);
        SumSame(b1, r, l + 1);
      }
    }
  }

  /** A step that splits the longest code that can be split keeps to it. */
  lemma StepLimited(was: seq<nat>, b: seq<nat>, n: nat, i: nat, j: nat)
    requires Full(b, n) && 16 < i <= MAX_CLEN && 1 <= j <= i - 2 && b[i] >= 2 && b[j] >= 1 && Limited(was, b)
    requires Full(Rewritten(b, i, j), n) && forall k :: j < k <= i - 2 ==> b[k] == 0
    ensures Limited(was, Rewritten(b, i, j))
  {
    hide Pow2, Room, Beyond, Rewritten;
    var r := Rewritten(b, i, j);
    forall l | 0 <= l <= 15 ensures LimitedAt(was, r, l) {
      StepAt(b, n, i, j, l);
      assert LimitedAt(was, b, l);
      Pow2Step(15 - l);
      Positive(15 - l);
      if l >= j { Crowded(b, n, l, i); }
    }
  }

  // ---- The result is determined ----

  /** A code of n symbols with lengths of at most 16 bits. */
  predicate Short(bits: seq<nat>, n: nat) { Full(bits, n) && forall k :: 16 < k <= MAX_CLEN ==> bits[k] == 0 }

  /** The codes longer than l would fit, with 16 bits each. */
  predicate Roomy(bits: seq<nat>, l: nat)
    requires |bits| == MAX_CLEN + 1 && l <= 16
  {
    Beyond(bits, l) <= Room(bits, l)
  }

  lemma ShortRoom(bits: seq<nat>, n: nat)
    requires Short(bits, n)
    ensures Beyond(bits, 16) == 0 == Room(bits, 16)
  {
    hide Pow2, Sum, Space;
    SumAbove(bits, 17, MAX_CLEN + 1);
    SpaceAbove(bits, MAX_CLEN, 17, MAX_CLEN + 1);
    SpaceScale(bits, 17);
    Pow2Add(16, 16);
    Positive(16);
    Cancel(Space(bits, 16, 17), Pow2(16), Pow2(16));
  }

  /** One length less. */
  lemma OneLess(bits: seq<nat>, l: nat)
    requires |bits| == MAX_CLEN + 1 && 1 <= l <= 16
    ensures Beyond(bits, l - 1) == Beyond(bits, l) + bits[l] && Room(bits, l - 1) == Room(bits, l) + bits[l] * Pow2(16 - l)
    ensures Roomy(bits, l) ==> Roomy(bits, l - 1)
  {
    hide Pow2;
    Positive(16 - l);
    MulOrder(1, Pow2(16 - l), bits[l]);
  }

  lemma {:induction false} RoomyBelow(bits: seq<nat>, l: nat, m: nat)
    requires |bits| == MAX_CLEN + 1 && l <= m <= 16 && Roomy(bits, m)
    ensures Roomy(bits, l)
    decreases m
  {
    hide Roomy;
    if l < m {
      OneLess(bits, m);
      RoomyBelow(bits, l, m - 1);
    }
  }

  /** Where the shorter lengths agree, the result has as many codes of length l as any that fits. */
  lemma AtLeast(was: seq<nat>, r: seq<nat>, q: seq<nat>, n: nat, l: nat)
    requires Full(r, n) && Full(q, n) && |was| == MAX_CLEN + 1 && l <= 15 && forall k :: 0 <= k < l ==> r[k] == q[k]
    requires LimitedAt(was, r, l) && Room(q, l) >= Room(was, l) && Roomy(q, l)
    ensures q[l] <= r[l]
  {
    hide Pow2, Sum, Space;
    SpaceSame(r, q, 16, l);
    SumSame(r, q, l);
    LastLength(r, l);
    LastLength(q, l);
    Positive(16 - l);
    if q[l] > r[l] {
      var d := q[l] - r[l];
      Factor(r[l], d, Pow2(16 - l));
      MulOrder(1, d, Pow2(16 - l));
      Factor(1, d - 1, Pow2(16 - l));
      MulOrder(1, Pow2(16 - l), d - 1);
    }
  }

  lemma LastLength(bits: seq<nat>, l: nat)
    requires |bits| == MAX_CLEN + 1 && l <= 16
    ensures Sum(bits, l + 1) == Sum(bits, l) + bits[l] && Space(bits, 16, l + 1) == Space(bits, 16, l) + bits[l] * Pow2(16 - l)
  {
  }

  lemma {:induction false} SameTo(was: seq<nat>, r: seq<nat>, q: seq<nat>, n: nat, l: nat)
    requires Short(r, n) && Short(q, n) && Limited(was, r) && Limited(was, q) && l <= 16
    ensures forall k :: 0 <= k < l ==> r[k] == q[k]
  {
    hide Full, LimitedAt, Roomy, Beyond, Room;
    if l > 0 {
      SameTo(was, r, q, n, l - 1);
      ShortRoomy(r, n, l - 1);
      ShortRoomy(q, n, l - 1);
      RoomOf(was, r, l - 1);
      RoomOf(was, q, l - 1);
      AtLeast(was, r, q, n, l - 1);
      AtLeast(was, q, r, n, l - 1);
    }
  }

  lemma ShortRoomy(bits: seq<nat>, n: nat, l: nat)
    requires Short(bits, n) && l <= 16
    ensures Roomy(bits, l)
  {
    hide Pow2, Sum, Space, Beyond, Room;
    ShortRoom(bits, n);
    RoomyBelow(bits, l, 16);
  }

  lemma RoomOf(was: seq<nat>, bits: seq<nat>, l: nat)
    requires Limited(was, bits) && l <= 15
    ensures LimitedAt(was, bits, l) && Room(bits, l) >= Room(was, l)
  {
    hide Room, Beyond;
  }

  /** There is only one result. */
  lemma OnlyOne(was: seq<nat>, r: seq<nat>, q: seq<nat>, n: nat)
    requires Short(r, n) && Short(q, n) && Limited(was, r) && Limited(was, q)
    ensures r == q
  {
    hide Pow2, Sum, Space, LimitedAt;
    SameTo(was, r, q, n, 16);
    SumSame(r, q, 16);
    LastLength(r, 16);
    LastLength(q, 16);
    SumAbove(r, 17, MAX_CLEN + 1);
    SumAbove(q, 17, MAX_CLEN + 1);
  }

  /** As long as the longer codes still fit behind them, the shorter codes keep their lengths. */
  lemma {:induction false} Kept(was: seq<nat>, r: seq<nat>, n: nat, l: nat)
    requires Full(was, n) && Short(r, n) && Limited(was, r) && l <= 16 && Roomy(was, l)
    ensures forall k :: 0 <= k <= l ==> r[k] == was[k]
  {
    hide Full, Roomy, Beyond, Room, LimitedAt;
    if l > 0 {
      RoomyBelow(was, l - 1, l);
      Kept(was, r, n, l - 1);
    }
    if l <= 15 { KeptAt(was, r, n, l); } else { AllKept(was, r, n); }
  }

  lemma KeptAt(was: seq<nat>, r: seq<nat>, n: nat, l: nat)
    requires Full(was, n) && Short(r, n) && Limited(was, r) && l <= 15 && Roomy(was, l) && forall k :: 0 <= k < l ==> r[k] == was[k]
    ensures r[l] == was[l]
  {
    hide Pow2, Sum, Space, Roomy;
    RoomOf(was, r, l);
    AtLeast(was, r, was, n, l);
    SpaceSame(r, was, 16, l);
    LastLength(r, l);
    LastLength(was, l);
    Positive(16 - l);
    MulOrder(was[l], r[l], Pow2(16 - l));
  }

  lemma AllKept(was: seq<nat>, r: seq<nat>, n: nat)
    requires Full(was, n) && Short(r, n) && Roomy(was, 16) && forall k :: 0 <= k < 16 ==> r[k] == was[k]
    ensures r[16] == was[16]
  {
    hide Pow2, Sum, Space;
    if exists i :: 16 < i <= MAX_CLEN && was[i] > 0 {
      var i :| 16 < i <= MAX_CLEN && was[i] > 0;
      Crowded(was, n, 16, i);
    } else {
      SumSame(r, was, 16);
      LastLength(r, 16);
      LastLength(was, 16);
      SumAbove(r, 17, MAX_CLEN + 1);
      SumAbove(was, 17, MAX_CLEN + 1);
    }
  }

  // ---- An example ----

  /** One code of each length up to m. */
  lemma {:induction false} Ones(bits: seq<nat>, top: nat, m: nat)
    requires m < |bits| && m <= top && bits[0] == 0 && forall k :: 1 <= k <= m ==> bits[k] == 1
    ensures Sum(bits, m + 1) == m && Space(bits, top, m + 1) == Pow2(top) - Pow2(top - m)
  {
    hide Pow2;
    if m > 0 {
      Ones(bits, top, m - 1);
      Pow2Step(top - m);
    } else {
      assert Sum(bits, 1) == Sum(bits, 0) + bits[0] && Space(bits, top, 1) == Space(bits, top, 0) + bits[0] * Pow2(top);
    }
  }

  /** One code of each length up to 16 bits, and two of 17, as Fibonacci numbers make them. */
  predicate Seventeen(bits: seq<nat>) {
    && |bits| == MAX_CLEN + 1 && bits[0] == 0 && (forall k :: 1 <= k <= 16 ==> bits[k] == 1) && bits[17] == 2
    && forall k :: 17 < k <= MAX_CLEN ==> bits[k] == 0
  }

  lemma SeventeenFull(bits: seq<nat>)
    requires Seventeen(bits)
    ensures Full(bits, 18) && Roomy(bits, 14)
  {
    assert Sum(bits, 18) == Sum(bits, 17) + bits[17] && Space(bits, MAX_CLEN, 18) == Space(bits, MAX_CLEN, 17) + bits[17] * Pow2(15);
    assert Pow2(16) == 2 * Pow2(15) && Pow2(2) == 4;
    hide Sum, Space, Pow2;
    SumAbove(bits, 18, MAX_CLEN + 1);
    SpaceAbove(bits, MAX_CLEN, 18, MAX_CLEN + 1);
    Ones(bits, MAX_CLEN, 16);
    Ones(bits, 16, 14);
  }

  /** The two longest codes, and those of 15 and 16 bits, become four of 16 bits. */
  lemma SeventeenLimited(was: seq<nat>, r: seq<nat>)
    requires Seventeen(was) && Short(r, 18) && Limited(was, r)
    ensures (forall l :: 1 <= l <= 14 ==> r[l] == 1) && r[15] == 0 && r[16] == 4
  {
    hide Sum, Space, Limited, Roomy;
    assert r[0] == 0 && |r| == MAX_CLEN + 1 && Pow2(0) == 1 && Pow2(1) == 2 && Pow2(2) == 4;
    SeventeenFull(was);
    Kept(was, r, 18, 14);
    ShortRoom(r, 18);
    hide Full, Short, Pow2, Seventeen;
    Ones(r, 16, 14);
    LastLength(r, 15);
    LastLength(r, 16);
    assert Room(r, 16) == 0 && Beyond(r, 16) == 0;
  }
}
