/** MCU encoding of jcarith.c: every routine is proved to emit exactly the decisions that
    ArithBlock lists, and to touch no bin outside the statistics areas. */
module ArithMcuEncoder {
  import opened Radix
  import opened ArithModel
  import opened Blocks
  import opened ArithBlock
  import opened ArithEncoder

  /** The encoder has coded these decisions since it was in state c0. */
  ghost predicate Coded(e: Encoder, c0: Coder, done: seq<Decision>)
    reads e
  {
    e.Valid() && Areas(e.stats) && Ready(c0) && Known(c0, done) && e.View() == Run(e.tab, c0, done)
  }

  method Emit(e: Encoder, st: Stat, val: bool, ghost c0: Coder, ghost done: seq<Decision>)
    requires Coded(e, c0, done) && Inside(st)
    modifies e
    ensures Coded(e, c0, done + [Decision(st, val)])
  {
    RunAppend(e.tab, c0, done, [Decision(st, val)]);
    RunOne(e.tab, e.View(), Decision(st, val));
    e.Encode(st, val);
  }

  lemma Cons(done: seq<Decision>, d: Decision, rest: seq<Decision>)
    ensures done + ([d] + rest) == done + [d] + rest
  {
  }

  method EncodePattern(e: Encoder, ac: bool, tbl: nat, off: nat, m0: nat, v: nat,
                       ghost c0: Coder, ghost done: seq<Decision>)
    requires Coded(e, c0, done) && Inside(At(ac, tbl, off))
    modifies e
    ensures Coded(e, c0, done + Pattern(ac, tbl, off, m0, v))
  {
    var m := m0;
    ghost var sofar, goal := done, done + Pattern(ac, tbl, off, m0, v);
    while m >= 2
      invariant Coded(e, c0, sofar) && sofar + Pattern(ac, tbl, off, m, v) == goal
    {
      m := m / 2;
      ghost var d := Decision(At(ac, tbl, off), v / m % 2 == 1);
      Cons(sofar, d, Pattern(ac, tbl, off, m, v));
      Emit(e, At(ac, tbl, off), v / m % 2 == 1, c0, sofar);
      sofar := sofar + [d];
    }
    assert sofar == sofar + Pattern(ac, tbl, off, m, v);
  }

  /** Magnitude category and bit pattern; returns the category. */
  method EncodeClimb(e: Encoder, ac: bool, tbl: nat, off0: nat, v: nat, half: nat, m0: nat, ghost bits: nat,
                     ghost c0: Coder, ghost done: seq<Decision>) returns (m: nat)
    requires Coded(e, c0, done) && half < Pow2(bits + 1) && Inside(At(ac, tbl, off0 + bits + 14))
    modifies e
    ensures Coded(e, c0, done + Climb(ac, tbl, off0, v, half, m0))
    ensures m == Category(half, m0)
  {
    hide Coded;
    var off: nat;
    ghost var sofar;
    m, off, sofar := EncodeCategory(e, ac, tbl, off0, v, half, m0, bits, c0, done);
    Cons(sofar, Decision(At(ac, tbl, off), false), Pattern(ac, tbl, off + 14, m, v));
    Emit(e, At(ac, tbl, off), false, c0, sofar);
    EncodePattern(e, ac, tbl, off + 14, m, v, c0, sofar + [Decision(At(ac, tbl, off), false)]);
  }

  lemma Halve(v2: nat, bits: nat)
    requires 2 <= v2 < Pow2(bits + 1)
    ensures bits > 0 && v2 / 2 < Pow2(bits)
  {
    assert Pow2(1) == 2;
  }

  method EncodeCategory(e: Encoder, ac: bool, tbl: nat, off0: nat, v: nat, half: nat, m0: nat, ghost bits: nat,
                        ghost c0: Coder, ghost done: seq<Decision>) returns (m: nat, off: nat, ghost sofar: seq<Decision>)
    requires Coded(e, c0, done) && half < Pow2(bits + 1) && Inside(At(ac, tbl, off0 + bits))
    modifies e
    ensures Coded(e, c0, sofar) && m == Category(half, m0) && off <= off0 + bits
    ensures done + Climb(ac, tbl, off0, v, half, m0)
         == sofar + ([Decision(At(ac, tbl, off), false)] + Pattern(ac, tbl, off + 14, m, v))
  {
    hide Coded, Pow2, Run, Climb, Category, Pattern;
    var v2: nat := half;
    m, off, sofar := m0, off0, done;
    ghost var left: nat := bits;
    ghost var goal := done + Climb(ac, tbl, off0, v, half, m0);
    while v2 / 2 != 0
      invariant Coded(e, c0, sofar) && sofar + Climb(ac, tbl, off, v, v2, m) == goal
      invariant v2 < Pow2(left + 1) && off + left == off0 + bits
      invariant Category(v2, m) == Category(half, m0)
      decreases v2
    {
      Halve(v2, left);
      ClimbStep(ac, tbl, off, v, v2, m);
      ghost var d := Decision(At(ac, tbl, off), true);
      v2 := v2 / 2;
      Cons(sofar, d, Climb(ac, tbl, off + 1, v, v2, 2 * m));
      Emit(e, At(ac, tbl, off), true, c0, sofar);
      sofar := sofar + [d];
      m := m * 2;
      off := off + 1;
      left := left - 1;
    }
    ClimbStep(ac, tbl, off, v, v2, m);
  }

  lemma ClimbStep(ac: bool, tbl: nat, off: nat, v: nat, v2: nat, m: nat)
    ensures v2 >= 2 ==> Climb(ac, tbl, off, v, v2, m) == [Decision(At(ac, tbl, off), true)] + Climb(ac, tbl, off + 1, v, v2 / 2, 2 * m)
    ensures v2 < 2 ==> Climb(ac, tbl, off, v, v2, m) == [Decision(At(ac, tbl, off), false)] + Pattern(ac, tbl, off + 14, m, v)
    ensures Category(v2, m) == if v2 < 2 then m else Category(v2 / 2, 2 * m)
  {
  }

  lemma Two(done: seq<Decision>, x: Decision, y: Decision, rest: seq<Decision>)
    ensures done + ([x, y] + rest) == done + [x] + [y] + rest
  {
  }

  /** Figures F.4 to F.9 for a DC difference; returns the context for the next one. */
  method EncodeDc(e: Encoder, comp: Component, ctx: nat, diff: int, ghost c0: Coder, ghost done: seq<Decision>)
      returns (next: nat)
    requires Coded(e, c0, done) && comp.dcTbl < NUM_ARITH_TBLS && ctx <= 16 && -0x10000 < diff < 0x10000
    modifies e
    ensures Coded(e, c0, done + DcDecisions(comp.dcTbl, ctx, diff))
    ensures next == DcContext(comp.l, comp.u, diff)
  {
    hide Coded, Pow2, Run, Climb, Category, DcSize;
    var tbl, st := comp.dcTbl, ctx;
    if diff == 0 {
      Emit(e, Dc(tbl, st), false, c0, done);
      next := 0;
    } else {
      var v := diff;
      Emit(e, Dc(tbl, st), true, c0, done);
      ghost var sofar := done + [Decision(Dc(tbl, ctx), true)] + [Decision(Dc(tbl, ctx + 1), diff < 0)];
      if v > 0 {
        Emit(e, Dc(tbl, st + 1), false, c0, done + [Decision(Dc(tbl, ctx), true)]);
        st := st + 2;
        next := 4;
      } else {
        v := -v;
        Emit(e, Dc(tbl, st + 1), true, c0, done + [Decision(Dc(tbl, ctx), true)]);
        st := st + 3;
        next := 8;
      }
      v := v - 1;
      var m := EncodeDcSize(e, tbl, st, v, c0, sofar);
      Two(done, Decision(Dc(tbl, ctx), true), Decision(Dc(tbl, ctx + 1), diff < 0), DcSize(tbl, st, v));
      if m < Pow2(comp.l) / 2 {
        next := 0;
      } else if m > Pow2(comp.u) / 2 {
        next := next + 8;
      }
    }
  }

  method EncodeDcSize(e: Encoder, tbl: nat, st: nat, v: nat, ghost c0: Coder, ghost done: seq<Decision>) returns (m: nat)
    requires Coded(e, c0, done) && tbl < NUM_ARITH_TBLS && st <= 19 && v < 0xFFFF
    modifies e
    ensures Coded(e, c0, done + DcSize(tbl, st, v))
    ensures m == if v == 0 then 0 else Category(v, 1)
  {
    hide Coded, Pow2, Run, Climb, Category;
    m := 0;
    if v != 0 {
      Pow2Values();
      Emit(e, Dc(tbl, st), true, c0, done);
      Cons(done, Decision(Dc(tbl, st), true), Climb(false, tbl, 20, v, v, 1));
      m := EncodeClimb(e, false, tbl, 20, v, v, 1, 15, c0, done + [Decision(Dc(tbl, st), true)]);
    } else {
      Emit(e, Dc(tbl, st), false, c0, done);
    }
  }

  /** Figures F.6 to F.9 for a nonzero AC coefficient at position k. */
  method EncodeAcNonzero(e: Encoder, tbl: nat, kx: nat, k: nat, v0: int, ghost c0: Coder, ghost done: seq<Decision>)
    requires Coded(e, c0, done) && tbl < NUM_ARITH_TBLS && 0 < k < 64 && v0 != 0 && Abs(v0) <= 0x8000
    modifies e
    ensures Coded(e, c0, done + AcNonzero(tbl, kx, k, v0))
  {
    hide Coded, Pow2, Run, Climb, Category, AcSize;
    var st := 3 * (k - 1);
    var v := v0;
    ghost var d1, d2 := Decision(Ac(tbl, st + 1), true), Decision(Fixed, v0 < 0);
    Emit(e, Ac(tbl, st + 1), true, c0, done);
    if v > 0 {
      Emit(e, Fixed, false, c0, done + [d1]);
    } else {
      v := -v;
      Emit(e, Fixed, true, c0, done + [d1]);
    }
    EncodeAcSize(e, tbl, st + 2, X2(k, kx), v - 1, c0, done + [d1] + [d2]);
    Two(done, d1, d2, AcSize(tbl, st + 2, X2(k, kx), v - 1));
  }

  method EncodeAcSize(e: Encoder, tbl: nat, st: nat, x2: nat, v: nat, ghost c0: Coder, ghost done: seq<Decision>)
    requires Coded(e, c0, done) && tbl < NUM_ARITH_TBLS && st <= 188 && x2 <= 217 && v < 0x8000
    modifies e
    ensures Coded(e, c0, done + AcSize(tbl, st, x2, v))
  {
    hide Coded, Pow2, Run, Climb, Category;
    ghost var yes := Decision(Ac(tbl, st), true);
    if v != 0 {
      Emit(e, Ac(tbl, st), true, c0, done);
      var v2 := v / 2;
      if v2 != 0 {
        Emit(e, Ac(tbl, st), true, c0, done + [yes]);
        HalfBits(v);
        var m := EncodeClimb(e, true, tbl, x2, v, v2, 2, 13, c0, done + [yes] + [yes]);
        assert done + AcSize(tbl, st, x2, v) == done + [yes] + [yes] + Climb(true, tbl, x2, v, v2, 2);
        return;
      }
      Emit(e, Ac(tbl, st), false, c0, done + [yes]);
      assert done + AcSize(tbl, st, x2, v) == done + [yes] + [Decision(Ac(tbl, st), false)];
    } else {
      Emit(e, Ac(tbl, st), false, c0, done);
    }
  }

  lemma HalfBits(v: nat)
    requires v < 0x8000
    ensures v / 2 < Pow2(14)
  {
    Pow2Add(6, 8);
    Pow2Values();
    assert Pow2(6) == 64;
  }

  /** The index of the last coefficient that is not zero at this precision. */
  method FindEob(block: Block, order: Order, al: nat, se: nat) returns (ke: nat)
    requires 1 <= se < 64
    ensures ke == LastNonzero(ZigZag(block, order, al), se)
  {
    hide Pow2, Shrink;
    ghost var z := ZigZag(block, order, al);
    ke := se;
    while ke > 0 && Shrink(block[order[ke]], al) == 0
      invariant ke <= se && LastNonzero(z, ke) == LastNonzero(z, se)
    {
      ke := ke - 1;
    }
  }

  /** A run of zeros in front of a nonzero coefficient. */
  method EncodeRun(e: Encoder, comp: Component, block: Block, order: Order, al: nat, k0: nat, ke: nat, se: nat,
                   ghost c0: Coder, ghost done: seq<Decision>) returns (k: nat, ghost sofar: seq<Decision>)
    requires Coded(e, c0, done) && comp.acTbl < NUM_ARITH_TBLS
    requires k0 < ke <= se < 64 && ZigZag(block, order, al)[ke] != 0
    modifies e
    ensures var z := ZigZag(block, order, al);
      && Coded(e, c0, sofar) && k0 <= k < ke && z[k + 1] != 0
      && done + AcBand(comp.acTbl, comp.kx, z, k0, ke, se, false) ==
         sofar + AcBand(comp.acTbl, comp.kx, z, k, ke, se, false)
  {
    hide Coded, Pow2, Run, AcNonzero, Shrink;
    ghost var z := ZigZag(block, order, al);
    ghost var goal := done + AcBand(comp.acTbl, comp.kx, z, k0, ke, se, false);
    k, sofar := k0, done;
    while Shrink(block[order[k + 1]], al) == 0
      invariant k0 <= k < ke && Coded(e, c0, sofar)
      invariant sofar + AcBand(comp.acTbl, comp.kx, z, k, ke, se, false) == goal
      decreases ke - k
    {
      ghost var d := Decision(Ac(comp.acTbl, 3 * k + 1), false);
      assert z[k + 1] == 0;
      Emit(e, Ac(comp.acTbl, 3 * k + 1), false, c0, sofar);
      Cons(sofar, d, AcBand(comp.acTbl, comp.kx, z, k + 1, ke, se, false));
      sofar := sofar + [d];
      k := k + 1;
    }
  }

  lemma Join(done: seq<Decision>, x: seq<Decision>, rest: seq<Decision>)
    ensures done + (x + rest) == done + x + rest
    ensures done + [] == done
  {
  }

  /** Figure F.5 for the band from ss to se of one block. */
  method EncodeAc(e: Encoder, comp: Component, block: Block, order: Order, al: nat, ss: nat, se: nat,
                  ghost c0: Coder, ghost done: seq<Decision>)
    requires Coded(e, c0, done) && comp.acTbl < NUM_ARITH_TBLS && 1 <= ss <= se < 64
    modifies e
    ensures var z := ZigZag(block, order, al);
      Coded(e, c0, done + AcBand(comp.acTbl, comp.kx, z, ss - 1, LastNonzero(z, se), se, true))
  {
    hide Coded, Pow2, Run, AcNonzero, Shrink;
    var tbl, kx := comp.acTbl, comp.kx;
    ghost var z := ZigZag(block, order, al);
    var ke := FindEob(block, order, al, se);
    var k := ss - 1;
    ghost var sofar, goal := done, done + AcBand(tbl, kx, z, k, ke, se, true);
    while k < ke
      invariant Coded(e, c0, sofar) && k <= se && ke == LastNonzero(z, se)
      invariant sofar + AcBand(tbl, kx, z, k, ke, se, true) == goal
      decreases se - k
    {
      ghost var eob := Decision(Ac(tbl, 3 * k), false);
      Emit(e, Ac(tbl, 3 * k), false, c0, sofar);  // the block goes on
      Cons(sofar, eob, AcBand(tbl, kx, z, k, ke, se, false));
      assert sofar + [eob] + AcBand(tbl, kx, z, k, ke, se, false) == goal;
      k, sofar := EncodeRun(e, comp, block, order, al, k, ke, se, c0, sofar + [eob]);
      k := k + 1;
      var v := Shrink(block[order[k]], al);
      ShrinkRange(block[order[k]], al);
      EncodeAcNonzero(e, tbl, kx, k, v, c0, sofar);
      Join(sofar, AcNonzero(tbl, kx, k, v), AcBand(tbl, kx, z, k, ke, se, true));
      sofar := sofar + AcNonzero(tbl, kx, k, v);
    }
    Join(sofar, [], []);
    // a block whose last coefficient is coded needs no end decision
    if k < se {
      Emit(e, Ac(tbl, 3 * k), true, c0, sofar);
    }
  }

  /** One MCU of a sequential scan (al = 0), or of a first DC scan (se = 0). */
  method EncodeMcu(e: Encoder, scan: Scan, mcu: seq<Block>, dcs: DcState, ghost c0: Coder, ghost done: seq<Decision>)
    requires ScanOk(scan) && |mcu| == |scan.membership| && DcsOk(scan, dcs.View())
    requires Coded(e, c0, done)
    modifies e, dcs
    ensures Coded(e, c0, done + McuDecisions(scan, 0, mcu, old(dcs.View())))
    ensures dcs.View() == McuNext(scan, 0, mcu, old(dcs.View()))
  {
    hide Coded, Run, BlockDecisions, DcNext;
    ghost var sofar, goal := done, done + McuDecisions(scan, 0, mcu, dcs.View());
    for blkn := 0 to |mcu|
      invariant Coded(e, c0, sofar) && DcsOk(scan, dcs.View())
      invariant sofar + McuDecisions(scan, blkn, mcu, dcs.View()) == goal
      invariant McuNext(scan, blkn, mcu, dcs.View()) == McuNext(scan, 0, mcu, old(dcs.View()))
    {
      ghost var p := dcs.View();
      EncodeBlock(e, scan, blkn, mcu[blkn], dcs, c0, sofar);
      ghost var ds := BlockDecisions(scan, blkn, mcu[blkn], p);
      Join(sofar, ds, McuDecisions(scan, blkn + 1, mcu, dcs.View()));
      sofar := sofar + ds;
    }
    Join(sofar, [], []);
  }

  method EncodeBlock(e: Encoder, scan: Scan, blkn: nat, block: Block, dcs: DcState,
                     ghost c0: Coder, ghost done: seq<Decision>)
    requires ScanOk(scan) && blkn < |scan.membership| && DcsOk(scan, dcs.View())
    requires Coded(e, c0, done)
    modifies e, dcs
    ensures Coded(e, c0, done + BlockDecisions(scan, blkn, block, old(dcs.View())))
    ensures dcs.View() == DcNext(scan, blkn, block, old(dcs.View()))
  {
    hide Coded, Run, AcBand, DcDecisions, DcContext, ShiftRight, ZigZag, LastNonzero;
    ghost var p := dcs.View();
    var ci := scan.membership[blkn];
    var comp := scan.comps[ci];
    var m := ShiftRight(block[0], scan.al);
    ShiftRightRange(block[0], scan.al);
    var v := m - dcs.lastDcVal[ci];
    var next := EncodeDc(e, comp, dcs.dcContext[ci], v, c0, done);
    if v != 0 {
      dcs.lastDcVal := dcs.lastDcVal[ci := m];
    }
    dcs.dcContext := dcs.dcContext[ci := next];
    assert dcs.lastDcVal == p.last[ci := m];
    ghost var dc := DcDecisions(comp.dcTbl, p.ctx[ci], v);
    Join(dc, [], []);
    if scan.se != 0 {
      EncodeAc(e, comp, block, scan.order, scan.al, 1, scan.se, c0, done + dc);
      ghost var z := ZigZag(block, scan.order, scan.al);
      Join(done, dc, AcBand(comp.acTbl, comp.kx, z, 0, LastNonzero(z, scan.se), scan.se, true));
    }
  }
}
