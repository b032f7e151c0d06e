/** MCU decoding of jdarith.c.  The routines take any input; whenever the input holds the
    decisions of some block, they return that block. */
module ArithMcuDecoder {
  import opened Radix
  import opened ArithModel
  import opened Blocks
  import opened ArithBlock
  import opened ArithDecoder

  /** Fine, a bad code (a warning, and no more decoding in this segment), or an input source
      that ran out without a marker (a fatal error). */
  datatype Status = Fine | BadCode | CantSuspend

  /** The input goes on with these decisions and ends in the state last. */
  ghost predicate Follows(d: Decoder, ds: seq<Decision>, last: Coder)
    reads d
  {
    && d.Valid() && d.Supplied() && Areas(d.stats) && Known(d.View(), ds)
    && Run(d.tab, d.View(), ds) == last && Contains(d.data, last.i)
  }

  ghost predicate Usable(d: Decoder)
    reads d
  {
    d.Valid() && Areas(d.stats)
  }

  method Next(d: Decoder, st: Stat, ghost want: Decision, ghost rest: seq<Decision>, ghost last: Coder)
      returns (status: Status, bit: bool)
    requires Usable(d) && Inside(st)
    modifies d
    ensures status != BadCode && (status == Fine ==> Usable(d))
    ensures old(Follows(d, [want] + rest, last)) && want.st == st ==>
      status == Fine && bit == want.bit && Follows(d, rest, last)
  {
    ghost var c, ds := d.View(), [want] + rest;
    ghost var expected := Follows(d, ds, last) && want.st == st;
    if expected {
      assert ds[0] == want && ds[1..] == rest;
      FirstDecision(d.tab, d.data, c, ds);
    }
    var ok;
    ok, bit := d.Decode(st);
    status := if ok then Fine else CantSuspend;
  }

  lemma FollowsCons(d: Decoder, x: Decision, xs: seq<Decision>, rest: seq<Decision>, last: Coder)
    ensures Follows(d, [x] + xs + rest, last) == Follows(d, [x] + (xs + rest), last)
  {
    assert [x] + xs + rest == [x] + (xs + rest);
  }

  /** w is v with the bits below m still missing. */
  lemma BitStep(v: nat, h: nat, w: nat)
    requires 0 < h && w == v - v % (2 * h)
    ensures (if v / h % 2 == 1 then w + h else w) == v - v % h
  {
    var q, r := v / (2 * h), v % (2 * h);
    assert v == 2 * h * q + r;
    if r >= h {
      DivideBy(v, h, 2 * q + 1, r - h);
    } else {
      DivideBy(v, h, 2 * q, r);
    }
  }

  lemma DivideBy(v: nat, h: nat, q: nat, r: nat)
    requires 0 < h && r < h && v == h * q + r
    ensures v / h == q && v % h == r
  {
    var q', r' := v / h, v % h;
    assert h * q' + r' == h * q + r;
    if q' < q { MulOrder(q' + 1, q, h); }
    if q < q' { MulOrder(q + 1, q', h); }
  }

  /** Figure F.24: the bits of v below the bit m0. */
  method DecodePattern(d: Decoder, ac: bool, tbl: nat, off: nat, m0: nat, ghost j: nat,
                       ghost want: nat, ghost rest: seq<Decision>, ghost last: Coder)
      returns (status: Status, v: nat)
    requires Usable(d) && Inside(At(ac, tbl, off)) && m0 == Pow2(j)
    modifies d
    ensures status != BadCode && (status == Fine ==> Usable(d))
    ensures old(Follows(d, Pattern(ac, tbl, off, m0, want) + rest, last)) && m0 <= want < 2 * m0 ==>
      status == Fine && v == want && Follows(d, rest, last)
  {
    hide Follows, Usable;
    ghost var expected := Follows(d, Pattern(ac, tbl, off, m0, want) + rest, last) && m0 <= want < 2 * m0;
    if expected { DivideBy(want, m0, 1, want - m0); }
    var m := m0;
    v := m;
    status := Fine;
    while m / 2 != 0
      invariant status == Fine && Usable(d)
      invariant exists i: nat :: m == Pow2(i)
      invariant expected ==> Follows(d, Pattern(ac, tbl, off, m, want) + rest, last) && v == want - want % m
    {
      var bit;
      m := m / 2;
      if expected {
        FollowsCons(d, Decision(At(ac, tbl, off), want / m % 2 == 1), Pattern(ac, tbl, off, m, want), rest, last);
        BitStep(want, m, v);
      }
      status, bit := Next(d, At(ac, tbl, off), Decision(At(ac, tbl, off), want / m % 2 == 1),
                          Pattern(ac, tbl, off, m, want) + rest, last);
      if status != Fine { return; }
      if bit { v := v + m; }  // no bit of v at or below m is set yet
    }
    assert [] + rest == rest;
  }

  /** v2 is v without its last bits, as many as m has. */
  predicate Halved(v: nat, v2: nat, m: nat) { v2 * m <= v < v2 * m + m }

  lemma HalveAgain(v: nat, v2: nat, m: nat)
    requires Halved(v, v2, m)
    ensures Halved(v, v2 / 2, 2 * m)
  {
    var h := v2 / 2;
    MulOrder(2 * h, v2, m);
    MulOrder(v2 + 1, 2 * h + 2, m);
    Distribute(h, 2, 0, m);
  }

  /** Figure F.23: the magnitude category, one decoded yes for every doubling.  It is a bad
      code exactly when the magnitude does not fit in 15 bits. */
  method DecodeCategory(d: Decoder, ac: bool, tbl: nat, off0: nat, j0: nat,
                        ghost v: nat, ghost half: nat, ghost rest: seq<Decision>, ghost last: Coder)
      returns (status: Status, m: nat, off: nat, ghost j: nat)
    requires Usable(d) && j0 < 15 && Inside(At(ac, tbl, off0 + 14))
    modifies d
    ensures status == Fine ==> Usable(d) && off <= off0 + 14 - j0 && m == Pow2(j)
    ensures (old(Follows(d, Climb(ac, tbl, off0, v, half, Pow2(j0)) + rest, last)) && half > 0 && Halved(v, half, Pow2(j0))) ==>
      && status != CantSuspend && (status == BadCode <==> v >= 0x8000)
      && (status == Fine ==>
            m == Category(half, Pow2(j0)) && m <= v < 2 * m && Follows(d, Pattern(ac, tbl, off + 14, m, v) + rest, last))
  {
    hide Follows, Usable, Pow2;
    j, m, off, status := j0, Pow2(j0), off0, Fine;
    ghost var v2 := half;
    ghost var expected := Follows(d, Climb(ac, tbl, off0, v, half, m) + rest, last) && half > 0 && Halved(v, half, m);
    while true
      invariant status == Fine && Usable(d) && j0 <= j < 15 && m == Pow2(j) && off == off0 + (j - j0)
      invariant expected ==> Follows(d, Climb(ac, tbl, off, v, v2, m) + rest, last)
      invariant expected ==> v2 > 0 && Halved(v, v2, m) && Category(v2, m) == Category(half, Pow2(j0))
      decreases 15 - j
    {
      ghost var tail := if v2 >= 2 then Climb(ac, tbl, off + 1, v, v2 / 2, 2 * m) else Pattern(ac, tbl, off + 14, m, v);
      if expected {
        FollowsCons(d, Decision(At(ac, tbl, off), v2 >= 2), tail, rest, last);
        HalveAgain(v, v2, m);
        CategoryRange(v, v2, m, j);
      }
      var more;
      status, more := Next(d, At(ac, tbl, off), Decision(At(ac, tbl, off), v2 >= 2), tail + rest, last);
      if status != Fine || !more { return; }
      m := m * 2;
      DoubleCategory(j);
      if m == 0x8000 {
        status := BadCode;  // no difference is this large
        return;
      }
      j := j + 1;
      off := off + 1;
      v2 := v2 / 2;
    }
  }

  lemma DoubleCategory(j: nat)
    requires j < 15
    ensures Pow2(j + 1) == 2 * Pow2(j) && (2 * Pow2(j) == 0x8000 <==> j == 14)
  {
    Pow2Values();
    if j < 14 { Pow2Grows(j + 1, 15); }
  }

  lemma CategoryRange(v: nat, v2: nat, m: nat, j: nat)
    requires Halved(v, v2, m) && m == Pow2(j) && v2 > 0 && j < 15
    ensures v2 < 2 ==> m <= v < 2 * m && v < 0x8000
    ensures v2 >= 2 && j == 14 ==> v >= 0x8000
  {
    hide Pow2;
    Pow2Values();
    DoubleCategory(j);
    Pow2Grows(j, 15);
    MulOrder(if v2 < 2 then 1 else 2, v2, m);
  }

  /** Figures F.19 to F.24 for a DC difference.  A difference comes back exactly when its
      magnitude is at most 0x8000; the encoder sends larger ones too. */
  method DecodeDc(d: Decoder, comp: Component, ctx: nat, ghost diff: int, ghost rest: seq<Decision>, ghost last: Coder)
      returns (status: Status, v: int, next: nat)
    requires Usable(d) && comp.dcTbl < NUM_ARITH_TBLS && ctx <= 16
    modifies d
    ensures status == Fine ==> Usable(d) && next <= 16
    ensures old(Follows(d, DcDecisions(comp.dcTbl, ctx, diff) + rest, last)) ==>
      && status != CantSuspend && (status == BadCode <==> Abs(diff) > 0x8000)
      && (status == Fine ==> v == diff && next == DcContext(comp.l, comp.u, diff) && Follows(d, rest, last))
  {
    hide Follows, Usable, Pow2, Climb, Category, Pattern;
    var tbl, st, bit := comp.dcTbl, ctx, false;
    v, next := 0, 0;
    ghost var zero := DcDecisions(tbl, ctx, 0);
    ghost var size := if diff == 0 then [] else DcSize(tbl, ctx + DcSign(diff), Abs(diff) - 1);
    ghost var tail := if diff == 0 then [] else [Decision(Dc(tbl, ctx + 1), diff < 0)] + size;
    assert DcDecisions(tbl, ctx, diff) + rest == [Decision(Dc(tbl, ctx), diff != 0)] + (tail + rest);
    status, bit := Next(d, Dc(tbl, st), Decision(Dc(tbl, ctx), diff != 0), tail + rest, last);
    if status != Fine { return; }
    if !bit {
      assert diff == 0 ==> tail + rest == rest;
      return;
    }
    assert diff != 0 ==> tail + rest == [Decision(Dc(tbl, ctx + 1), diff < 0)] + (size + rest);
    var sign;
    status, sign := Next(d, Dc(tbl, st + 1), Decision(Dc(tbl, ctx + 1), diff < 0), size + rest, last);
    if status != Fine { return; }
    st := st + 2 + (if sign then 1 else 0);
    var m;
    status, m, v := DecodeDcSize(d, tbl, st, if diff == 0 then 0 else Abs(diff) - 1, rest, last);
    if status != Fine { return; }
    if m < Pow2(comp.l) / 2 {
      next := 0;
    } else if m > Pow2(comp.u) / 2 {
      next := 12 + (if sign then 4 else 0);
    } else {
      next := 4 + (if sign then 4 else 0);
    }
    v := v + 1;
    if sign { v := -v; }
  }

  method DecodeDcSize(d: Decoder, tbl: nat, st: nat, ghost want: nat, ghost rest: seq<Decision>, ghost last: Coder)
      returns (status: Status, m: nat, v: nat)
    requires Usable(d) && tbl < NUM_ARITH_TBLS && st <= 19
    modifies d
    ensures status == Fine ==> Usable(d)
    ensures old(Follows(d, DcSize(tbl, st, want) + rest, last)) ==>
      && status != CantSuspend && (status == BadCode <==> want >= 0x8000)
      && (status == Fine ==> v == want && m == (if want == 0 then 0 else Category(want, 1)) && Follows(d, rest, last))
  {
    hide Follows, Usable, Climb, Category, Pattern, Pow2;
    Pow2Values();
    ghost var tail := if want == 0 then [] else Climb(false, tbl, 20, want, want, 1);
    assert DcSize(tbl, st, want) + rest == [Decision(Dc(tbl, st), want != 0)] + (tail + rest);
    var bit;
    m, v := 0, 0;
    status, bit := Next(d, Dc(tbl, st), Decision(Dc(tbl, st), want != 0), tail + rest, last);
    if status != Fine { return; }
    var off := st;
    if bit {
      ghost var j;
      status, m, off, j := DecodeCategory(d, false, tbl, 20, 0, want, want, rest, last);
      if status != Fine { return; }
      status, v := DecodePattern(d, false, tbl, off + 14, m, j, want, rest, last);
    } else {
      assert want == 0 ==> tail + rest == rest;
    }
  }

  /** Figures F.23 and F.24 for an AC coefficient. */
  method DecodeAcSize(d: Decoder, tbl: nat, st: nat, x2: nat, ghost want: nat, ghost rest: seq<Decision>, ghost last: Coder)
      returns (status: Status, v: nat)
    requires Usable(d) && tbl < NUM_ARITH_TBLS && st <= 188 && x2 <= 217
    modifies d
    ensures status == Fine ==> Usable(d)
    ensures old(Follows(d, AcSize(tbl, st, x2, want) + rest, last)) && want < 0x8000 ==>
      status == Fine && v == want && Follows(d, rest, last)
  {
    hide Follows, Usable, Climb, Category, Pattern, Pow2;
    Pow2Values();
    DoubleCategory(0);
    var yes := Ac(tbl, st);
    v := 0;
    ghost var more := if want < 2 then [] else Climb(true, tbl, x2, want, want / 2, 2);
    ghost var tail := if want == 0 then [] else [Decision(yes, want >= 2)] + more;
    assert AcSize(tbl, st, x2, want) + rest == [Decision(yes, want != 0)] + (tail + rest);
    var bit;
    status, bit := Next(d, yes, Decision(yes, want != 0), tail + rest, last);
    if status != Fine { return; }
    if !bit {
      assert want == 0 ==> tail + rest == rest;
      return;
    }
    assert want != 0 ==> tail + rest == [Decision(yes, want >= 2)] + (more + rest);
    status, bit := Next(d, yes, Decision(yes, want >= 2), more + rest, last);
    if status != Fine { return; }
    if bit {
      var m, off;
      ghost var j;
      status, m, off, j := DecodeCategory(d, true, tbl, x2, 1, want, want / 2, rest, last);
      if status != Fine { return; }
      status, v := DecodePattern(d, true, tbl, off + 14, m, j, want, rest, last);
    } else {
      v := 1;
      assert want < 2 ==> more + rest == rest;
    }
  }

  /** Figures F.22 to F.24 for the coefficient at position k. */
  method DecodeAcValue(d: Decoder, comp: Component, k: nat, ghost want: int, ghost rest: seq<Decision>, ghost last: Coder)
      returns (status: Status, v: int)
    requires Usable(d) && comp.acTbl < NUM_ARITH_TBLS && 0 < k < 64
    modifies d
    ensures status == Fine ==> Usable(d)
    ensures want != 0 && Abs(want) <= 0x8000 && old(Follows(d, AcTail(comp.acTbl, comp.kx, k, want) + rest, last)) ==>
      status == Fine && v == want && Follows(d, rest, last)
  {
    hide Follows, Usable, AcSize, Pow2;
    var tbl, x2 := comp.acTbl, X2(k, comp.kx);
    ghost var mag := if want == 0 then 0 else Abs(want) - 1;
    ghost var size := AcSize(tbl, 3 * (k - 1) + 2, x2, mag);
    assert want != 0 ==> AcTail(tbl, comp.kx, k, want) + rest == [Decision(Fixed, want < 0)] + (size + rest);
    var sign;
    v := 0;
    status, sign := Next(d, Fixed, Decision(Fixed, want < 0), size + rest, last);
    if status != Fine { return; }
    status, v := DecodeAcSize(d, tbl, 3 * (k - 1) + 2, x2, mag, rest, last);
    v := v + 1;
    if sign { v := -v; }
  }

  /** What follows the decision that position k is not zero. */
  function AcTail(tbl: nat, kx: nat, k: nat, v: int): seq<Decision>
    requires 0 < k
  {
    if v == 0 then []
    else [Decision(Fixed, v < 0)] + AcSize(tbl, 3 * (k - 1) + 2, X2(k, kx), Abs(v) - 1)
  }

  /** The zeros up to the next nonzero coefficient; it is a bad code to run past the band. */
  method DecodeRun(d: Decoder, comp: Component, k0: nat, se: nat,
                   ghost z: seq<int>, ghost ke: nat, ghost rest: seq<Decision>, ghost last: Coder)
      returns (status: Status, k: nat)
    requires Usable(d) && comp.acTbl < NUM_ARITH_TBLS && k0 < se < 64
    requires ke <= se < |z| && (ke == 0 || z[ke] != 0)
    modifies d
    ensures status == Fine ==> Usable(d) && k0 < k <= se
    ensures (k0 < ke && old(Follows(d, AcBand(comp.acTbl, comp.kx, z, k0, ke, se, false) + rest, last))) ==>
      && status == Fine && k <= ke && z[k] != 0 && (forall i :: k0 < i < k ==> z[i] == 0)
      && Follows(d, AcTail(comp.acTbl, comp.kx, k, z[k]) + (AcBand(comp.acTbl, comp.kx, z, k, ke, se, true) + rest), last)
  {
    hide Follows, Usable, AcNonzero, AcTail, AcBand;
    var tbl, kx := comp.acTbl, comp.kx;
    ghost var expected := k0 < ke && Follows(d, AcBand(tbl, kx, z, k0, ke, se, false) + rest, last);
    k, status := k0, Fine;
    while true
      invariant status == Fine && Usable(d) && k0 <= k < se
      invariant expected ==> k < ke && (forall i :: k0 < i <= k ==> z[i] == 0)
      invariant expected ==> Follows(d, AcBand(tbl, kx, z, k, ke, se, false) + rest, last)
      decreases se - k
    {
      k := k + 1;
      ghost var tail := if z[k] == 0 then AcBand(tbl, kx, z, k, ke, se, false)
                        else AcTail(tbl, kx, k, z[k]) + AcBand(tbl, kx, z, k, ke, se, true);
      ghost var want := Decision(Ac(tbl, 3 * (k - 1) + 1), z[k] != 0);
      if expected {
        RunHead(tbl, kx, z, k - 1, ke, se);
        FollowsCons(d, want, tail, rest, last);
      }
      var bit;
      status, bit := Next(d, Ac(tbl, 3 * (k - 1) + 1), want, tail + rest, last);
      if status != Fine { return; }
      if bit {
        if expected { JoinFollows(d, AcTail(tbl, kx, k, z[k]), AcBand(tbl, kx, z, k, ke, se, true), rest, last); }
        return;
      }
      if k >= se {
        status := BadCode;  // the run leads past the band
        return;
      }
    }
  }

  lemma RunHead(tbl: nat, kx: nat, z: seq<int>, k: nat, ke: nat, se: nat)
    requires k < ke <= se < |z| && z[ke] != 0
    ensures AcBand(tbl, kx, z, k, ke, se, false) == [Decision(Ac(tbl, 3 * k + 1), z[k + 1] != 0)] +
      (if z[k + 1] == 0 then AcBand(tbl, kx, z, k + 1, ke, se, false)
       else AcTail(tbl, kx, k + 1, z[k + 1]) + AcBand(tbl, kx, z, k + 1, ke, se, true))
  {
    hide AcNonzero, AcTail;
    if z[k + 1] != 0 {
      NonzeroHead(tbl, kx, k + 1, z[k + 1]);
      var d, x, y := Decision(Ac(tbl, 3 * k + 1), true), AcTail(tbl, kx, k + 1, z[k + 1]), AcBand(tbl, kx, z, k + 1, ke, se, true);
      assert [d] + x + y == [d] + (x + y);
    }
  }

  lemma NonzeroHead(tbl: nat, kx: nat, k: nat, v: int)
    requires 0 < k && v != 0
    ensures AcNonzero(tbl, kx, k, v) == [Decision(Ac(tbl, 3 * (k - 1) + 1), true)] + AcTail(tbl, kx, k, v)
  {
    hide AcSize;
  }

  lemma JoinFollows(d: Decoder, xs: seq<Decision>, ys: seq<Decision>, rest: seq<Decision>, last: Coder)
    ensures Follows(d, xs + ys + rest, last) == Follows(d, xs + (ys + rest), last)
  {
    assert xs + ys + rest == xs + (ys + rest);
  }

  /** Figure F.20 for the band from ss to se of one block. */
  method DecodeAc(d: Decoder, comp: Component, block: array<int>, order: Order, al: nat, ss: nat, se: nat,
                  ghost z: seq<int>, ghost rest: seq<Decision>, ghost last: Coder)
      returns (status: Status)
    requires Usable(d) && comp.acTbl < NUM_ARITH_TBLS && 1 <= ss <= se < 64 && block.Length == 64
    requires |z| == 64 && forall i :: 0 <= i < 64 ==> Abs(z[i]) <= 0x8000
    modifies d, block
    ensures status == Fine ==> Usable(d)
    ensures old(Follows(d, AcBand(comp.acTbl, comp.kx, z, ss - 1, LastNonzero(z, se), se, true) + rest, last)) ==>
      status == Fine && Follows(d, rest, last) && Zag(block, order) == Grown(old(Zag(block, order)), z, al, ss, se + 1)
  {
    hide Follows, Usable, AcSize, Pow2, Jcoef, AcTail;
    var tbl, kx, k := comp.acTbl, comp.kx, ss - 1;
    ghost var ke, was := LastNonzero(z, se), Zag(block, order);
    ghost var expected := Follows(d, AcBand(tbl, kx, z, k, ke, se, true) + rest, last);
    status := Fine;
    while k < se
      invariant status == Fine && Usable(d) && ss - 1 <= k <= se && k >= 0
      invariant expected ==> Follows(d, AcBand(tbl, kx, z, k, ke, se, true) + rest, last)
      invariant expected ==> Zag(block, order) == Grown(was, z, al, ss, k + 1)
      decreases se - k
    {
      ghost var tail := if k >= ke then [] else AcBand(tbl, kx, z, k, ke, se, false);
      ghost var want := Decision(Ac(tbl, 3 * k), k >= ke);
      if expected {
        BandHead(tbl, kx, z, k, ke, se);
        FollowsCons(d, want, tail, rest, last);
      }
      var bit, v;
      status, bit := Next(d, Ac(tbl, 3 * k), want, tail + rest, last);
      if status != Fine { return; }
      if bit {
        // does the block end here?
        if expected {
          assert tail + rest == rest;
          assert Grown(was, z, al, ss, k + 1) == Grown(was, z, al, ss, se + 1);
        }
        return;
      }
      ghost var k0 := k;
      status, k := DecodeRun(d, comp, k, se, z, ke, rest, last);
      if status != Fine { return; }
      status, v := DecodeAcValue(d, comp, k, z[k], AcBand(tbl, kx, z, k, ke, se, true) + rest, last);
      if status != Fine { return; }
      block[order[k]] := Jcoef(v * Pow2(al));
      if expected {
        assert forall i :: 0 <= i < 64 && i != k ==> Zag(block, order)[i] == Grown(was, z, al, ss, k0 + 1)[i];
        assert Zag(block, order) == Grown(was, z, al, ss, k + 1);
      }
    }
    assert [] + rest == rest;
  }

  lemma BandHead(tbl: nat, kx: nat, z: seq<int>, k: nat, ke: nat, se: nat)
    requires k < se < |z| && ke <= se && (ke == 0 || z[ke] != 0)
    ensures AcBand(tbl, kx, z, k, ke, se, true) ==
      [Decision(Ac(tbl, 3 * k), k >= ke)] + (if k >= ke then [] else AcBand(tbl, kx, z, k, ke, se, false))
  {
    hide AcNonzero;
  }

  /** The block a decoder builds, in zigzag order, over a block that was zero. */
  function Rebuilt(s: Scan, before: seq<int>, block: Block): (r: seq<int>)
    requires |before| == 64 && s.se < 64
  {
    Grown(before[0 := Jcoef(DcValue(s, block) * Pow2(s.al))], ZigZag(block, s.order, s.al), s.al, 1, s.se + 1)
  }

  predicate ContextsOk(s: Scan, p: Dcs) {
    |p.last| == |p.ctx| == |s.comps| && forall c :: 0 <= c < |s.comps| ==> p.ctx[c] <= 16
  }

  method DecodeBlock(d: Decoder, scan: Scan, blkn: nat, block: array<int>, dcs: DcState,
                     ghost want: Block, ghost rest: seq<Decision>, ghost last: Coder)
      returns (status: Status)
    requires Usable(d) && ScanOk(scan) && blkn < |scan.membership| && block.Length == 64 && ContextsOk(scan, dcs.View())
    modifies d, block, dcs
    ensures status == Fine ==> Usable(d) && ContextsOk(scan, dcs.View())
    ensures DcsOk(scan, old(dcs.View())) ==>
      old(Follows(d, BlockDecisions(scan, blkn, want, dcs.View()) + rest, last)) ==>
      && status != CantSuspend
      && (status == BadCode <==> Abs(DcValue(scan, want) - old(dcs.View()).last[scan.membership[blkn]]) > 0x8000)
      && (status == Fine ==>
            && Follows(d, rest, last) && dcs.View() == DcNext(scan, blkn, want, old(dcs.View()))
            && Zag(block, scan.order) == Rebuilt(scan, old(Zag(block, scan.order)), want))
  {
    hide Follows, Usable, AcBand, DcDecisions, DcContext, ShiftRight, Pow2, Jcoef, LastNonzero, Shrink;
    ghost var p, was := dcs.View(), Zag(block, scan.order);
    ghost var z := ZigZag(want, scan.order, scan.al);
    var ci := scan.membership[blkn];
    var comp := scan.comps[ci];
    ghost var diff := DcValue(scan, want) - p.last[ci];
    ghost var band := if scan.se == 0 then []
                      else AcBand(comp.acTbl, comp.kx, z, 0, LastNonzero(z, scan.se), scan.se, true);
    ghost var expected := DcsOk(scan, p) && Follows(d, BlockDecisions(scan, blkn, want, p) + rest, last);
    if expected { JoinFollows(d, DcDecisions(comp.dcTbl, p.ctx[ci], diff), band, rest, last); }
    var v, next;
    status, v, next := DecodeDc(d, comp, dcs.dcContext[ci], diff, band + rest, last);
    if status != Fine { return; }
    dcs.dcContext := dcs.dcContext[ci := next];
    dcs.lastDcVal := dcs.lastDcVal[ci := dcs.lastDcVal[ci] + v];
    block[0] := Jcoef(dcs.lastDcVal[ci] * Pow2(scan.al));
    ghost var mid := Zag(block, scan.order);
    assert expected ==> mid == was[0 := Jcoef(DcValue(scan, want) * Pow2(scan.al))];
    ZigZagRange(want, scan.order, scan.al);
    if scan.se == 0 {
      assert band + rest == rest;
      assert Grown(mid, z, scan.al, 1, 1) == mid;
      return;
    }
    status := DecodeAc(d, comp, block, scan.order, scan.al, 1, scan.se, z, rest, last);
  }

  lemma ZigZagRange(block: Block, order: Order, al: nat)
    ensures forall i :: 0 <= i < 64 ==> Abs(ZigZag(block, order, al)[i]) <= 0x8000
  {
    forall i | 0 <= i < 64 ensures Abs(ZigZag(block, order, al)[i]) <= 0x8000 {
      Small(block[order[i]], al);
    }
  }

  lemma Small(v: int, al: nat)
    requires -0x8000 <= v < 0x8000
    ensures Abs(Shrink(v, al)) <= 0x8000
  {
    hide Pow2;
    var w, p := Abs(v), Pow2(al);
    MulOrder(1, p, w / p);
    assert w == p * (w / p) + w % p;
  }

  /** One MCU of a sequential scan (al = 0), or of a first DC scan (se = 0). */
  method DecodeMcu(d: Decoder, scan: Scan, mcuData: seq<array<int>>, dcs: DcState,
                   ghost mcu: seq<Block>, ghost rest: seq<Decision>, ghost last: Coder)
      returns (status: Status)
    requires Usable(d) && ScanOk(scan) && ContextsOk(scan, dcs.View())
    requires Distinct(mcuData) && |mcuData| == |mcu| == |scan.membership|
    modifies d, dcs, mcuData
    ensures status == Fine ==> Usable(d) && ContextsOk(scan, dcs.View())
    ensures DcsOk(scan, old(dcs.View())) ==>
      old(Follows(d, McuDecisions(scan, 0, mcu, dcs.View()) + rest, last)) ==>
      && status != CantSuspend
      && (status == Fine <==> DiffsOk(scan, 0, mcu, old(dcs.View())))
      && (status == Fine ==>
            && Follows(d, rest, last) && dcs.View() == McuNext(scan, 0, mcu, old(dcs.View()))
            && forall b :: 0 <= b < |mcu| ==>
                 Zag(mcuData[b], scan.order) == Rebuilt(scan, old(Zag(mcuData[b], scan.order)), mcu[b]))
  {
    hide Follows, Usable, BlockDecisions, DcNext, Rebuilt, Jcoef, DcValue;
    ghost var p := dcs.View();
    ghost var expected := DcsOk(scan, p) && Follows(d, McuDecisions(scan, 0, mcu, p) + rest, last);
    status := Fine;
    for blkn := 0 to |mcuData|
      invariant status == Fine && Usable(d) && ContextsOk(scan, dcs.View())
      invariant expected ==> DcsOk(scan, dcs.View()) && Follows(d, McuDecisions(scan, blkn, mcu, dcs.View()) + rest, last)
      invariant expected ==> McuNext(scan, blkn, mcu, dcs.View()) == McuNext(scan, 0, mcu, p)
      invariant expected ==> DiffsOk(scan, blkn, mcu, dcs.View()) == DiffsOk(scan, 0, mcu, p)
      invariant forall b :: blkn <= b < |mcu| ==> Zag(mcuData[b], scan.order) == old(Zag(mcuData[b], scan.order))
      invariant expected ==> forall b :: 0 <= b < blkn ==>
        Zag(mcuData[b], scan.order) == Rebuilt(scan, old(Zag(mcuData[b], scan.order)), mcu[b])
    {
      ghost var q := dcs.View();
      ghost var tail := if expected then McuDecisions(scan, blkn + 1, mcu, DcNext(scan, blkn, mcu[blkn], q)) else [];
      if expected { JoinFollows(d, BlockDecisions(scan, blkn, mcu[blkn], q), tail, rest, last); }
      status := DecodeBlock(d, scan, blkn, mcuData[blkn], dcs, mcu[blkn], tail + rest, last);
      if status != Fine { return; }
    }
    assert [] + rest == rest;
  }
}
