/** Which decisions a block of coefficients turns into: the binary decision trees of
    sections F.1.4 and G.1.3 of ITU-T T.81, as jcarith.c walks them. */
module ArithBlock {
  import opened Radix
  import opened Blocks
  import opened ArithModel

  const NUM_ARITH_TBLS := 16
  const DC_STAT_BINS := 64
  const AC_STAT_BINS := 256

  /** All statistics areas are there, at their allocated sizes. */
  predicate Areas(stats: Stats) {
    && Fixed in stats
    && (forall tbl, off :: 0 <= tbl < NUM_ARITH_TBLS && 0 <= off < DC_STAT_BINS ==> Dc(tbl, off) in stats)
    && (forall tbl, off :: 0 <= tbl < NUM_ARITH_TBLS && 0 <= off < AC_STAT_BINS ==> Ac(tbl, off) in stats)
  }

  predicate Inside(st: Stat) {
    match st
    case Dc(tbl, off) => tbl < NUM_ARITH_TBLS && off < DC_STAT_BINS
    case Ac(tbl, off) => tbl < NUM_ARITH_TBLS && off < AC_STAT_BINS
    case Fixed => true
  }

  function At(ac: bool, tbl: nat, off: nat): Stat {
    if ac then Ac(tbl, off) else Dc(tbl, off)
  }

  // ---- Magnitudes ----

  /** Figure F.9: the bits of v below bit m, most significant first. */
  function Pattern(ac: bool, tbl: nat, off: nat, m: nat, v: nat): seq<Decision>
    decreases m
  {
    if m < 2 then []
    else [Decision(At(ac, tbl, off), v / (m / 2) % 2 == 1)] + Pattern(ac, tbl, off, m / 2, v)
  }

  /** Figure F.8: one yes for every doubling of the category, a no, then the bit pattern.
      v2 is what is left of v after as many halvings as there were doublings of m. */
  function Climb(ac: bool, tbl: nat, off: nat, v: nat, v2: nat, m: nat): seq<Decision>
    decreases v2
  {
    if v2 >= 2 then [Decision(At(ac, tbl, off), true)] + Climb(ac, tbl, off + 1, v, v2 / 2, 2 * m)
    else [Decision(At(ac, tbl, off), false)] + Pattern(ac, tbl, off + 14, m, v)
  }

  /** The category that m has become when v2 cannot be halved any more. */
  function Category(v2: nat, m: nat): nat
    decreases v2
  {
    if v2 < 2 then m else Category(v2 / 2, 2 * m)
  }

  // ---- DC differences ----

  function DcSign(diff: int): nat { if diff > 0 then 2 else 3 }

  /** Figures F.4, F.6 and F.7, for a nonzero difference, from bin S0 = ctx. */
  function DcDecisions(tbl: nat, ctx: nat, diff: int): seq<Decision> {
    if diff == 0 then [Decision(Dc(tbl, ctx), false)]
    else
      [Decision(Dc(tbl, ctx), true), Decision(Dc(tbl, ctx + 1), diff < 0)] + DcSize(tbl, ctx + DcSign(diff), Abs(diff) - 1)
  }

  function DcSize(tbl: nat, off: nat, v: nat): seq<Decision> {
    if v == 0 then [Decision(Dc(tbl, off), false)]
    else [Decision(Dc(tbl, off), true)] + Climb(false, tbl, 20, v, v, 1)
  }

  /** Section F.1.4.4.1.2: the conditioning category of the next difference. */
  function DcContext(l: nat, u: nat, diff: int): nat {
    if diff == 0 then 0
    else
      var v := Abs(diff) - 1;
      var m := if v == 0 then 0 else Category(v, 1);
      if m < Pow2(l) / 2 then 0
      else (if m > Pow2(u) / 2 then 8 else 0) + (if diff > 0 then 4 else 8)
  }

  // ---- AC bands ----

  /** Figures F.6 to F.9 for a nonzero coefficient; off is the bin SP = SN = SE + 2. */
  function AcSize(tbl: nat, off: nat, x2: nat, v: nat): seq<Decision> {
    if v == 0 then [Decision(Ac(tbl, off), false)]
    else if v == 1 then [Decision(Ac(tbl, off), true), Decision(Ac(tbl, off), false)]
    else [Decision(Ac(tbl, off), true), Decision(Ac(tbl, off), true)] + Climb(true, tbl, x2, v, v / 2, 2)
  }

  function X2(k: nat, kx: nat): nat { if k <= kx then 189 else 217 }

  function AcNonzero(tbl: nat, kx: nat, k: nat, v: int): seq<Decision>
    requires 0 < k && v != 0
  {
    [Decision(Ac(tbl, 3 * (k - 1) + 1), true), Decision(Fixed, v < 0)]
      + AcSize(tbl, 3 * (k - 1) + 2, X2(k, kx), Abs(v) - 1)
  }

  /** The last position up to k where z is not zero, or 0. */
  function LastNonzero(z: seq<int>, k: nat): (r: nat)
    requires k < |z|
    ensures r <= k && (r == 0 || z[r] != 0)
    ensures forall i :: r < i <= k ==> z[i] == 0
  {
    if k == 0 || z[k] != 0 then k else LastNonzero(z, k - 1)
  }

  /** Figure F.5, from after position k on: an end-of-block decision before every run of
      zeros, one decision for every zero in the run, and the coefficient that ends it. */
  function AcBand(tbl: nat, kx: nat, z: seq<int>, k: nat, ke: nat, se: nat, eob: bool): seq<Decision>
    requires ke <= se < |z|
    requires ke == 0 || z[ke] != 0
    decreases se - k
  {
    if k >= ke then
      (if k < se then [Decision(Ac(tbl, 3 * k), true)] else [])
    else
      var run :=
        if z[k + 1] == 0 then [Decision(Ac(tbl, 3 * k + 1), false)] + AcBand(tbl, kx, z, k + 1, ke, se, false)
        else AcNonzero(tbl, kx, k + 1, z[k + 1]) + AcBand(tbl, kx, z, k + 1, ke, se, true);
      if eob then [Decision(Ac(tbl, 3 * k), false)] + run else run
  }

  // ---- Blocks and MCUs ----

  datatype Component = Component(dcTbl: nat, acTbl: nat, l: nat, u: nat, kx: nat)

  /** One scan: which component each block of an MCU belongs to, the last coefficient coded
      (0 when only DC coefficients are), and the low bit position.  A sequential scan has
      al = 0; a first DC scan of a progressive file has se = 0. */
  datatype Scan = Scan(membership: seq<nat>, comps: seq<Component>, se: nat, al: nat, order: Order)

  predicate ScanOk(s: Scan) {
    && s.se < 64 && |s.comps| <= 4
    && (forall b :: 0 <= b < |s.membership| ==> s.membership[b] < |s.comps|)
    && (forall c :: 0 <= c < |s.comps| ==> s.comps[c].dcTbl < NUM_ARITH_TBLS && s.comps[c].acTbl < NUM_ARITH_TBLS)
  }

  /** The DC predictions and conditioning contexts, by component of the scan. */
  datatype Dcs = Dcs(last: seq<int>, ctx: seq<nat>)

  predicate DcsOk(s: Scan, p: Dcs) {
    && |p.last| == |p.ctx| == |s.comps|
    && (forall c :: 0 <= c < |s.comps| ==> -0x8000 <= p.last[c] < 0x8000 && p.ctx[c] <= 16)
  }

  /** The fields last_dc_val and dc_context of both coders. */
  class DcState {
    var lastDcVal: seq<int>
    var dcContext: seq<nat>

    constructor (n: nat)
      ensures View() == Dcs(seq(n, _ => 0), seq(n, _ => 0))
    {
      lastDcVal := seq(n, _ => 0);
      dcContext := seq(n, _ => 0);
    }

    function View(): Dcs
      reads this
    {
      Dcs(lastDcVal, dcContext)
    }
  }

  function DcValue(s: Scan, block: Block): int { ShiftRight(block[0], s.al) }

  function DcNext(s: Scan, b: nat, block: Block, p: Dcs): (r: Dcs)
    requires ScanOk(s) && DcsOk(s, p) && b < |s.membership|
    ensures DcsOk(s, r)
  {
    var c := s.membership[b];
    var m := DcValue(s, block);
    ShiftRightRange(block[0], s.al);
    Dcs(p.last[c := m], p.ctx[c := DcContext(s.comps[c].l, s.comps[c].u, m - p.last[c])])
  }

  function BlockDecisions(s: Scan, b: nat, block: Block, p: Dcs): seq<Decision>
    requires ScanOk(s) && DcsOk(s, p) && b < |s.membership|
  {
    var c := s.membership[b];
    var z := ZigZag(block, s.order, s.al);
    DcDecisions(s.comps[c].dcTbl, p.ctx[c], DcValue(s, block) - p.last[c]) +
    (if s.se == 0 then [] else AcBand(s.comps[c].acTbl, s.comps[c].kx, z, 0, LastNonzero(z, s.se), s.se, true))
  }

  /** The decisions of blocks b, b + 1, ... of an MCU. */
  function McuDecisions(s: Scan, b: nat, mcu: seq<Block>, p: Dcs): seq<Decision>
    requires ScanOk(s) && DcsOk(s, p) && b <= |s.membership| == |mcu|
    decreases |mcu| - b
  {
    if b == |mcu| then []
    else BlockDecisions(s, b, mcu[b], p) + McuDecisions(s, b + 1, mcu, DcNext(s, b, mcu[b], p))
  }

  function McuNext(s: Scan, b: nat, mcu: seq<Block>, p: Dcs): (r: Dcs)
    requires ScanOk(s) && DcsOk(s, p) && b <= |s.membership| == |mcu|
    ensures DcsOk(s, r)
    decreases |mcu| - b
  {
    if b == |mcu| then p else McuNext(s, b + 1, mcu, DcNext(s, b, mcu[b], p))
  }

  /** Every DC difference from block b on has a magnitude of at most 0x8000. */
  predicate DiffsOk(s: Scan, b: nat, mcu: seq<Block>, p: Dcs)
    requires ScanOk(s) && DcsOk(s, p) && b <= |s.membership| == |mcu|
    decreases |mcu| - b
  {
    b == |mcu| ||
    (Abs(DcValue(s, mcu[b]) - p.last[s.membership[b]]) <= 0x8000 && DiffsOk(s, b + 1, mcu, DcNext(s, b, mcu[b], p)))
  }
}
