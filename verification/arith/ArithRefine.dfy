/** AC refinement scans with arithmetic coding: section G.1.3.3 of ITU-T T.81, as
    encode_mcu_AC_refine of jcarith.c and decode_mcu_AC_refine of jdarith.c walk it. */
module ArithRefine {
  import opened Radix
  import opened ArithModel
  import opened Blocks
  import opened ArithBlock
  import opened ArithEncoder
  import opened ArithDecoder
  import opened ArithMcuEncoder
  import opened ArithMcuDecoder

  // ---- Decisions ----

  /** A coefficient that was nonzero before has one more bit; one that was not has a sign. */
  function RefineValue(tbl: nat, k: nat, v: int): seq<Decision>
    requires 0 < k && v != 0
  {
    if Abs(v) > 1 then [Decision(Ac(tbl, 3 * (k - 1) + 2), Abs(v) % 2 == 1)]
    else [Decision(Ac(tbl, 3 * (k - 1) + 1), true), Decision(Fixed, v < 0)]
  }

  /** Figure G.10, from after position k on.  In front of position kx, the last one that was
      nonzero before, no end-of-band decision is needed. */
  function RefineBand(tbl: nat, z: seq<int>, k: nat, ke: nat, kx: nat, se: nat, eob: bool): seq<Decision>
    requires ke <= se < |z| && (ke == 0 || z[ke] != 0)
    decreases se - k
  {
    if k >= ke then
      (if k < se then [Decision(Ac(tbl, 3 * k), true)] else [])
    else
      var run :=
        if z[k + 1] == 0 then [Decision(Ac(tbl, 3 * k + 1), false)] + RefineBand(tbl, z, k + 1, ke, kx, se, false)
        else RefineValue(tbl, k + 1, z[k + 1]) + RefineBand(tbl, z, k + 1, ke, kx, se, true);
      if eob && k >= kx then [Decision(Ac(tbl, 3 * k), false)] + run else run
  }

  /** The band of a block; only what is inside the band matters for kx. */
  function RefineBlock(tbl: nat, block: Block, order: Order, al: nat, ss: nat, se: nat): seq<Decision>
    requires 1 <= ss <= se < 64
  {
    var z, w := ZigZag(block, order, al), ZigZag(block, order, al + 1);
    RefineBand(tbl, z, ss - 1, LastNonzero(z, se), Within(LastNonzero(w, se), ss), se, true)
  }

  function Within(k: nat, ss: nat): nat
    requires 1 <= ss
  {
    if k < ss then ss - 1 else k
  }

  // ---- Encoder ----

  /** The previous stage's end-of-band index, searched for only below this stage's. */
  method FindPrevious(block: Block, order: Order, al: nat, ke: nat, ghost se: nat) returns (kex: nat)
    requires ke <= se < 64 && ke == LastNonzero(ZigZag(block, order, al), se)
    ensures kex == LastNonzero(ZigZag(block, order, al + 1), se)
  {
    hide Pow2, Shrink;
    ghost var w := ZigZag(block, order, al + 1);
    NoneAbove(block, order, al, ke, se);
    kex := ke;
    while kex > 0 && Shrink(block[order[kex]], al + 1) == 0
      invariant kex <= ke && LastNonzero(w, kex) == LastNonzero(w, se)
    {
      kex := kex - 1;
    }
  }

  lemma {:induction false} NoneAbove(block: Block, order: Order, al: nat, ke: nat, se: nat)
    requires ke <= se < 64 && ke == LastNonzero(ZigZag(block, order, al), se)
    ensures LastNonzero(ZigZag(block, order, al + 1), ke) == LastNonzero(ZigZag(block, order, al + 1), se)
  {
    hide Shrink;
    if ke < se {
      var z := ZigZag(block, order, al);
      assert z[se] == 0;
      LessPrecise(block[order[se]], al);
      assert LastNonzero(z, se - 1) == ke;
      NoneAbove(block, order, al, ke, se - 1);
    }
  }

  /** What is one bit coarser. */
  lemma LessPrecise(v: int, al: nat)
    ensures Abs(Shrink(v, al + 1)) == Abs(Shrink(v, al)) / 2
    ensures Abs(Shrink(v, al)) == Shr(Abs(v), al) && (Shrink(v, al) != 0 ==> (Shrink(v, al) < 0 <==> v < 0))
  {
    hide Pow2, Shr;
    ShrIsDiv(Abs(v), al);
    ShrIsDiv(Abs(v), al + 1);
    HalfShr(Abs(v), al);
  }

  method EncodeRefineRun(e: Encoder, tbl: nat, block: Block, order: Order, al: nat, k0: nat, ke: nat, ghost kx: nat, se: nat,
                         ghost c0: Coder, ghost done: seq<Decision>) returns (k: nat, ghost sofar: seq<Decision>)
    requires Coded(e, c0, done) && tbl < NUM_ARITH_TBLS
    requires k0 < ke <= se < 64 && ZigZag(block, order, al)[ke] != 0
    modifies e
    ensures var z := ZigZag(block, order, al);
      && Coded(e, c0, sofar) && k0 <= k < ke && z[k + 1] != 0
      && done + RefineBand(tbl, z, k0, ke, kx, se, false) == sofar + RefineBand(tbl, z, k, ke, kx, se, false)
  {
    hide Coded, Pow2, Run, RefineValue, Shrink;
    ghost var z := ZigZag(block, order, al);
    ghost var goal := done + RefineBand(tbl, z, k0, ke, kx, se, false);
    k, sofar := k0, done;
    while Shrink(block[order[k + 1]], al) == 0
      invariant k0 <= k < ke && Coded(e, c0, sofar)
      invariant sofar + RefineBand(tbl, z, k, ke, kx, se, false) == goal
      decreases ke - k
    {
      ghost var d := Decision(Ac(tbl, 3 * k + 1), false);
      assert z[k + 1] == 0;
      Emit(e, Ac(tbl, 3 * k + 1), false, c0, sofar);
      Cons(sofar, d, RefineBand(tbl, z, k + 1, ke, kx, se, false));
      sofar := sofar + [d];
      k := k + 1;
    }
  }

  method EncodeRefineValue(e: Encoder, tbl: nat, k: nat, v: int, ghost c0: Coder, ghost done: seq<Decision>)
    requires Coded(e, c0, done) && tbl < NUM_ARITH_TBLS && 0 < k < 64 && v != 0
    modifies e
    ensures Coded(e, c0, done + RefineValue(tbl, k, v))
  {
    hide Coded, Run;
    var st := 3 * (k - 1);
    if Abs(v) / 2 != 0 {
      Emit(e, Ac(tbl, st + 2), Abs(v) % 2 == 1, c0, done);
    } else {
      Emit(e, Ac(tbl, st + 1), true, c0, done);
      Emit(e, Fixed, v < 0, c0, done + [Decision(Ac(tbl, st + 1), true)]);
      assert done + [Decision(Ac(tbl, st + 1), true)] + [Decision(Fixed, v < 0)] == done + RefineValue(tbl, k, v);
    }
  }

  /** encode_mcu_AC_refine. */
  method EncodeAcRefine(e: Encoder, tbl: nat, block: Block, order: Order, al: nat, ss: nat, se: nat,
                        ghost c0: Coder, ghost done: seq<Decision>)
    requires Coded(e, c0, done) && tbl < NUM_ARITH_TBLS && 1 <= ss <= se < 64
    modifies e
    ensures Coded(e, c0, done + RefineBlock(tbl, block, order, al, ss, se))
  {
    hide Coded, Pow2, Run, RefineValue, Shrink;
    ghost var z := ZigZag(block, order, al);
    var ke := FindEob(block, order, al, se);
    var kex := FindPrevious(block, order, al, ke, se);
    var k := ss - 1;
    ghost var kx := Within(kex, ss);
    ghost var sofar, goal := done, done + RefineBand(tbl, z, k, ke, kx, se, true);
    while k < ke
      invariant Coded(e, c0, sofar) && ss - 1 <= k <= se && ke == LastNonzero(z, se)
      invariant sofar + RefineBand(tbl, z, k, ke, kx, se, true) == goal
      decreases se - k
    {
      if k >= kex {
        ghost var eob := Decision(Ac(tbl, 3 * k), false);
        Emit(e, Ac(tbl, 3 * k), false, c0, sofar);
        Cons(sofar, eob, RefineBand(tbl, z, k, ke, kx, se, false));
        sofar := sofar + [eob];
      }
      EobOnce(tbl, z, k, ke, kx, se);
      k, sofar := EncodeRefineRun(e, tbl, block, order, al, k, ke, kx, se, c0, sofar);
      k := k + 1;
      var v := Shrink(block[order[k]], al);
      EncodeRefineValue(e, tbl, k, v, c0, sofar);
      Join(sofar, RefineValue(tbl, k, v), RefineBand(tbl, z, k, ke, kx, se, true));
      sofar := sofar + RefineValue(tbl, k, v);
    }
    Join(sofar, [], []);
    // a block whose last coefficient is coded needs no end decision
    if k < se {
      Emit(e, Ac(tbl, 3 * k), true, c0, sofar);
    }
  }

  lemma EobOnce(tbl: nat, z: seq<int>, k: nat, ke: nat, kx: nat, se: nat)
    requires k < ke <= se < |z| && z[ke] != 0
    ensures RefineBand(tbl, z, k, ke, kx, se, true) ==
      (if k >= kx then [Decision(Ac(tbl, 3 * k), false)] else []) + RefineBand(tbl, z, k, ke, kx, se, false)
  {
    hide RefineValue;
    if k < kx { Join([], RefineBand(tbl, z, k, ke, kx, se, false), []); }
  }

  // ---- Decoder ----

  /** What one more bit does to a coefficient. */
  function Refined(c: int, z: int, p: nat): int {
    if z == 0 then c
    else if Abs(z) == 1 then (if z < 0 then 0 - p else p)
    else if Abs(z) % 2 == 1 then (if c < 0 then c - p else c + p)
    else c
  }

  lemma OneBitMore(v: int, al: nat)
    requires -0x8000 <= v < 0x8000
    ensures var c, z := Coarse(v, al + 1), Shrink(v, al);
      && (c != 0 <==> Abs(z) > 1) && Refined(c, z, Pow2(al)) == Coarse(v, al)
      && -0x8000 <= Coarse(v, al) < 0x8000 && (c != 0 <==> Shrink(v, al + 1) != 0)
  {
    hide Pow2, Shr, Shrink;
    var n, p := Abs(v), Pow2(al);
    LessPrecise(v, al);
    LessPrecise(v, al + 1);
    HalfShr(n, al);
    Pow2Step(al);
    ShrinkIsShr(v, al);
    Halves(Shr(n, al), p);
    var h := Shr(n, al) / 2;
    Positive(h, 2 * p);
  }

  lemma Halves(n: nat, p: nat)
    ensures n * p == n / 2 * (2 * p) + n % 2 * p
  {
    assert n == n / 2 * 2 + n % 2;
    Distribute(n / 2, 2, n % 2, p);
  }

  lemma Positive(h: nat, p: nat)
    requires 0 < p
    ensures 0 < h <==> 0 < h * p
  {
  }

  /** The positions from lo to hi - 1 at precision al. */
  function Finer(was: seq<int>, src: Block, order: Order, al: nat, lo: nat, hi: nat): (r: seq<int>)
    requires |was| == 64
  {
    seq(64, k requires 0 <= k < 64 => if lo <= k < hi then Coarse(src[order[k]], al) else was[k])
  }

  /** The band is known to one bit less. */
  predicate OneBitLess(was: seq<int>, src: Block, order: Order, al: nat, ss: nat, se: nat)
    requires |was| == 64 && se < 64
  {
    forall k :: ss <= k <= se ==> was[k] == Coarse(src[order[k]], al + 1)
  }

  lemma RefineHead(tbl: nat, z: seq<int>, k: nat, ke: nat, kx: nat, se: nat)
    requires k < ke <= se < |z| && z[ke] != 0
    ensures RefineBand(tbl, z, k, ke, kx, se, false) ==
      (if z[k + 1] == 0 then [Decision(Ac(tbl, 3 * k + 1), false)] else RefineValue(tbl, k + 1, z[k + 1]))
        + RefineBand(tbl, z, k + 1, ke, kx, se, z[k + 1] != 0)
  {
    hide RefineValue;
  }

  /** The decisions for one position. */
  function One(tbl: nat, k: nat, v: int): seq<Decision>
    requires 0 < k
  {
    if v == 0 then [Decision(Ac(tbl, 3 * (k - 1) + 1), false)] else RefineValue(tbl, k, v)
  }

  /** The coefficient c at position k: with its next bit, or newly nonzero, or still zero. */
  method DecodeOne(d: Decoder, tbl: nat, k: nat, c: int, p1: nat, ghost v: int, ghost rest: seq<Decision>, ghost last: Coder)
      returns (status: Status, hit: bool, r: int)
    requires Usable(d) && tbl < NUM_ARITH_TBLS && 0 < k < 64
    modifies d
    ensures status != BadCode && (status == Fine ==> Usable(d))
    ensures old(Follows(d, One(tbl, k, v) + rest, last)) && (c != 0 <==> Abs(v) > 1) ==>
      status == Fine && hit == (v != 0) && r == Refined(c, v, p1) && Follows(d, rest, last)
  {
    hide Follows, Usable;
    var st := 3 * (k - 1);
    ghost var expected := Follows(d, One(tbl, k, v) + rest, last) && (c != 0 <==> Abs(v) > 1);
    hit, r := true, c;
    var bit;
    if c != 0 {
      status, bit := Next(d, Ac(tbl, st + 2), Decision(Ac(tbl, st + 2), Abs(v) % 2 == 1), rest, last);
      if status == Fine && bit { r := if c < 0 then c - p1 else c + p1; }
      return;
    }
    ghost var sign := if v == 0 then [] else [Decision(Fixed, v < 0)];
    if expected { assert One(tbl, k, v) + rest == [Decision(Ac(tbl, st + 1), v != 0)] + (sign + rest); }
    status, bit := Next(d, Ac(tbl, st + 1), Decision(Ac(tbl, st + 1), v != 0), sign + rest, last);
    if status != Fine { return; }
    if bit {
      status, bit := Next(d, Fixed, Decision(Fixed, v < 0), rest, last);
      r := if bit then 0 - p1 else p1;
    } else {
      hit := false;
      assert v == 0 ==> sign + rest == rest;
    }
  }

  /** Positions after k0 up to the next nonzero one. */
  method DecodeRefineRun(d: Decoder, tbl: nat, block: array<int>, order: Order, al: nat, k0: nat, se: nat, ghost ss: nat, ghost was: seq<int>,
                         ghost src: Block, ghost ke: nat, ghost kx: nat, ghost rest: seq<Decision>, ghost last: Coder)
      returns (status: Status, k: nat)
    requires Usable(d) && tbl < NUM_ARITH_TBLS && 1 <= ss <= k0 + 1 <= se < 64 && block.Length == 64
    requires ke <= se && (ke == 0 || ZigZag(src, order, al)[ke] != 0) && |was| == 64
    modifies d, block
    ensures status == Fine ==> Usable(d) && k0 < k <= se
    ensures var z := ZigZag(src, order, al);
      (k0 < ke && OneBitLess(was, src, order, al, ss, se) && old(Zag(block, order)) == Finer(was, src, order, al, ss, k0 + 1)
        && old(Follows(d, RefineBand(tbl, z, k0, ke, kx, se, false) + rest, last))) ==>
      && status == Fine && k <= ke && Zag(block, order) == Finer(was, src, order, al, ss, k + 1)
      && Follows(d, RefineBand(tbl, z, k, ke, kx, se, true) + rest, last)
  {
    hide Follows, Usable, RefineBand, RefineValue, Shrink, Coarse, Refined, Pow2, One;
    ghost var z := ZigZag(src, order, al);
    ghost var expected := k0 < ke && OneBitLess(was, src, order, al, ss, se) && Zag(block, order) == Finer(was, src, order, al, ss, k0 + 1)
        && Follows(d, RefineBand(tbl, z, k0, ke, kx, se, false) + rest, last);
    k, status := k0, Fine;
    var p1 := Pow2(al);
    while true
      invariant status == Fine && Usable(d) && k0 <= k < se
      invariant expected ==> k < ke && Zag(block, order) == Finer(was, src, order, al, ss, k + 1)
      invariant expected ==> Follows(d, RefineBand(tbl, z, k, ke, kx, se, false) + rest, last)
      decreases se - k
    {
      k := k + 1;
      ghost var tail := RefineBand(tbl, z, k, ke, kx, se, z[k] != 0);
      ghost var before := Zag(block, order);
      if expected {
        RefineStep(d, tbl, z, k, ke, kx, se, rest, last);
        OneBitMore(src[order[k]], al);
        assert before[k] == Coarse(src[order[k]], al + 1);
      }
      var hit, c;
      status, hit, c := DecodeOne(d, tbl, k, block[order[k]], p1, z[k], tail + rest, last);
      if status != Fine { return; }
      block[order[k]] := Jcoef(c);
      if expected { FinerStep(before, Zag(block, order), was, src, order, al, ss, k); }
      if hit { return; }
      if k >= se {
        status := BadCode;  // the run leads past the band
        return;
      }
    }
  }

  lemma RefineStep(d: Decoder, tbl: nat, z: seq<int>, k: nat, ke: nat, kx: nat, se: nat, rest: seq<Decision>, last: Coder)
    requires 0 < k <= ke <= se < |z| && z[ke] != 0 && Follows(d, RefineBand(tbl, z, k - 1, ke, kx, se, false) + rest, last)
    ensures Follows(d, One(tbl, k, z[k]) + (RefineBand(tbl, z, k, ke, kx, se, z[k] != 0) + rest), last)
  {
    hide Follows, RefineValue;
    RefineHead(tbl, z, k - 1, ke, kx, se);
    JoinFollows(d, One(tbl, k, z[k]), RefineBand(tbl, z, k, ke, kx, se, z[k] != 0), rest, last);
  }

  lemma FinerStep(before: seq<int>, after: seq<int>, was: seq<int>, src: Block, order: Order, al: nat, ss: nat, k: nat)
    requires |was| == |before| == |after| == 64 && ss <= k < 64 && before == Finer(was, src, order, al, ss, k)
    requires after == before[k := Coarse(src[order[k]], al)]
    ensures after == Finer(was, src, order, al, ss, k + 1)
  {
    hide Coarse;
  }

  /** The last position up to se where the block is not zero, or 0. */
  method FindLast(block: array<int>, order: Order, se: nat) returns (kex: nat)
    requires 1 <= se < 64 && block.Length == 64
    ensures kex == LastNonzero(Zag(block, order), se)
  {
    ghost var z := Zag(block, order);
    kex := se;
    while kex > 0 && block[order[kex]] == 0
      invariant kex <= se && LastNonzero(z, kex) == LastNonzero(z, se)
    {
      kex := kex - 1;
    }
  }

  /** Both sides find the same index, as far as the band goes. */
  lemma {:induction false} SameLast(was: seq<int>, src: Block, order: Order, al: nat, ss: nat, se: nat)
    requires |was| == 64 && 1 <= ss && se < 64 && OneBitLess(was, src, order, al, ss, se)
    ensures Within(LastNonzero(was, se), ss) == Within(LastNonzero(ZigZag(src, order, al + 1), se), ss)
  {
    hide Coarse, Shrink;
    if ss <= se {
      OneBitMore(src[order[se]], al);
      if was[se] == 0 { SameLast(was, src, order, al, ss, se - 1); }
    }
  }

  /** decode_mcu_AC_refine: from a band known to one bit less, to the precision of the scan. */
  method DecodeAcRefine(d: Decoder, tbl: nat, block: array<int>, order: Order, al: nat, ss: nat, se: nat,
                        ghost src: Block, ghost rest: seq<Decision>, ghost last: Coder)
      returns (status: Status)
    requires Usable(d) && tbl < NUM_ARITH_TBLS && 1 <= ss <= se < 64 && block.Length == 64
    modifies d, block
    ensures status == Fine ==> Usable(d)
    ensures old(OneBitLess(Zag(block, order), src, order, al, ss, se)
        && Follows(d, RefineBlock(tbl, src, order, al, ss, se) + rest, last)) ==>
      status == Fine && Zag(block, order) == Finer(old(Zag(block, order)), src, order, al, ss, se + 1) && Follows(d, rest, last)
  {
    hide Follows, Usable, RefineBand, RefineValue, Shrink, Coarse, Pow2, OneBitLess, Finer;
    ghost var was := Zag(block, order);
    ghost var z := ZigZag(src, order, al);
    ghost var ke, kx := LastNonzero(z, se), Within(LastNonzero(ZigZag(src, order, al + 1), se), ss);
    ghost var expected := OneBitLess(was, src, order, al, ss, se) && Follows(d, RefineBlock(tbl, src, order, al, ss, se) + rest, last);
    var kex := FindLast(block, order, se);
    if expected { SameLast(was, src, order, al, ss, se); }
    var k := ss - 1;
    status := Fine;
    NoneFiner(was, src, order, al, ss);
    while k < se
      invariant status == Fine && Usable(d) && ss - 1 <= k <= se && k >= 0
      invariant expected ==> Zag(block, order) == Finer(was, src, order, al, ss, k + 1)
      invariant expected ==> Follows(d, RefineBand(tbl, z, k, ke, kx, se, true) + rest, last)
      decreases se - k
    {
      if k >= kex {
        ghost var tail := if k >= ke then [] else RefineBand(tbl, z, k, ke, kx, se, false);
        ghost var want := Decision(Ac(tbl, 3 * k), k >= ke);
        if expected { EobStep(d, tbl, z, k, ke, kx, se, rest, last); }
        var bit;
        status, bit := Next(d, Ac(tbl, 3 * k), want, tail + rest, last);
        if status != Fine { return; }
        if bit {
          // does the block end here?
          if expected {
            assert tail + rest == rest;
            NothingLeft(was, src, order, al, ss, k, se);
          }
          return;
        }
      } else if expected {
        BelowLast(src, order, al, ss, k, ke, kx, se);
        NoEob(tbl, z, k, ke, kx, se);
      }
      status, k := DecodeRefineRun(d, tbl, block, order, al, k, se, ss, was, src, ke, kx, rest, last);
      if status != Fine { return; }
    }
    if expected { AtEnd(tbl, z, k, ke, kx, se, rest); }
  }

  lemma NoneFiner(was: seq<int>, src: Block, order: Order, al: nat, ss: nat)
    requires |was| == 64
    ensures Finer(was, src, order, al, ss, ss) == was
  {
    hide Coarse;
  }

  lemma AtEnd(tbl: nat, z: seq<int>, k: nat, ke: nat, kx: nat, se: nat, rest: seq<Decision>)
    requires ke <= se < |z| && (ke == 0 || z[ke] != 0) && k == se
    ensures RefineBand(tbl, z, k, ke, kx, se, true) + rest == rest
  {
    hide RefineValue;
  }

  lemma EobStep(d: Decoder, tbl: nat, z: seq<int>, k: nat, ke: nat, kx: nat, se: nat, rest: seq<Decision>, last: Coder)
    requires kx <= k < se < |z| && ke <= se && (ke == 0 || z[ke] != 0)
    requires Follows(d, RefineBand(tbl, z, k, ke, kx, se, true) + rest, last)
    ensures var tail := if k >= ke then [] else RefineBand(tbl, z, k, ke, kx, se, false);
      Follows(d, [Decision(Ac(tbl, 3 * k), k >= ke)] + (tail + rest), last)
  {
    hide Follows, RefineValue;
    var tail := if k >= ke then [] else RefineBand(tbl, z, k, ke, kx, se, false);
    if k < ke {
      EobOnce(tbl, z, k, ke, kx, se);
    } else {
      assert [Decision(Ac(tbl, 3 * k), true)] + [] == [Decision(Ac(tbl, 3 * k), true)];
    }
    FollowsCons(d, Decision(Ac(tbl, 3 * k), k >= ke), tail, rest, last);
  }

  lemma NoEob(tbl: nat, z: seq<int>, k: nat, ke: nat, kx: nat, se: nat)
    requires k < kx && k < ke <= se < |z| && z[ke] != 0
    ensures RefineBand(tbl, z, k, ke, kx, se, true) == RefineBand(tbl, z, k, ke, kx, se, false)
  {
    hide RefineValue;
  }

  /** In front of a coefficient that was nonzero before there is more to come. */
  lemma BelowLast(src: Block, order: Order, al: nat, ss: nat, k: nat, ke: nat, kx: nat, se: nat)
    requires 1 <= ss <= k + 1 && se < 64 && ke == LastNonzero(ZigZag(src, order, al), se)
    requires kx == Within(LastNonzero(ZigZag(src, order, al + 1), se), ss) && k < kx
    ensures k < ke
  {
    hide Shrink;
    var z, w := ZigZag(src, order, al), ZigZag(src, order, al + 1);
    assert kx == LastNonzero(w, se) && w[kx] != 0;
    LessPrecise(src[order[kx]], al);
    assert z[kx] != 0;
  }

  /** Behind the last nonzero coefficient one more bit changes nothing. */
  lemma NothingLeft(was: seq<int>, src: Block, order: Order, al: nat, ss: nat, k: nat, se: nat)
    requires |was| == 64 && se < 64 && ss <= k + 1 && k <= se && LastNonzero(ZigZag(src, order, al), se) <= k
    requires OneBitLess(was, src, order, al, ss, se)
    ensures Finer(was, src, order, al, ss, k + 1) == Finer(was, src, order, al, ss, se + 1)
  {
    hide Coarse, Shrink;
    var z := ZigZag(src, order, al);
    forall i | k < i <= se
      ensures was[i] == Coarse(src[order[i]], al)
    {
      OneBitMore(src[order[i]], al);
      assert z[i] == 0;
    }
  }
}
