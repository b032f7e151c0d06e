/** What a block of coefficients turns into in a sequential scan, or in a first scan of a
    progressive file (sections F.1.2, G.1.2.1 and G.1.2.2 of ITU-T T.81). */
module HuffBlock {
  import opened Radix
  import opened Bits
  import opened Blocks
  import opened HuffTokens
  import opened EobRuns

  const MAX_COEF_BITS := 10

  // ---- Values ----

  /** The size category of a value. */
  function NBits(v: int): nat { if v == 0 then 0 else Log2(Abs(v)) + 1 }

  /** What follows the size category: NBits(v) bits that tell v from the others of that size. */
  function Low(v: int): nat {
    (if v < 0 then v - 1 else v) % Pow2(NBits(v))
  }

  /** EXTEND of Figure F.12: the value of size s that the bits x stand for. */
  function HuffExtend(x: nat, s: nat): int
    requires 0 < s
  {
    if x <= Pow2(s - 1) - 1 then x - (Pow2(s) - 1) else x
  }

  /** The category and the low bits determine the value. */
  lemma ExtendLow(v: int)
    requires v != 0
    ensures Low(v) < Pow2(NBits(v)) && HuffExtend(Low(v), NBits(v)) == v
  {
    hide Pow2, Log2;
    Log2Bounds(Abs(v));
    Pow2Step(NBits(v) - 1);
    if v > 0 { Remainder(v, 0, v, Pow2(NBits(v))); } else { Remainder(v - 1, -1, v - 1 + Pow2(NBits(v)), Pow2(NBits(v))); }
  }

  lemma Remainder(v: int, q: int, r: nat, p: nat)
    requires r < p && v == q * p + r && -1 <= q <= 0
    ensures v % p == r
  {
  }

  /** A value needs at most n bits if its magnitude is below 2^n. */
  lemma InRange(v: int, n: nat)
    ensures NBits(v) <= n <==> Abs(v) < Pow2(n)
  {
    hide Pow2, Log2;
    if v != 0 {
      Log2Bounds(Abs(v));
      Pow2Step(NBits(v) - 1);
      if NBits(v) < n { Pow2Grows(NBits(v), n); }
      if n < NBits(v) - 1 { Pow2Grows(n, NBits(v) - 1); }
    } else {
      Positive(n);
    }
  }

  lemma Positive(n: nat)
    ensures 0 < Pow2(n)
  {
  }

  /** A run of r zeros and a value. */
  function ValueTokens(tab: nat, r: nat, v: int): seq<Token> {
    [Sym(tab, (r * 16 + NBits(v)) % 256)] + Raws(BitsOf(Low(v), NBits(v)))
  }

  // ---- Bands ----

  /** The first nonzero position from k on, or se + 1. */
  function NextNonzero(z: seq<int>, k: nat, se: nat): (p: nat)
    requires k <= se + 1 && se < |z|
    ensures k <= p <= se + 1 && (p <= se ==> z[p] != 0)
    ensures forall j :: k <= j < p ==> z[j] == 0
    decreases se + 1 - k
  {
    if k > se || z[k] != 0 then k else NextNonzero(z, k + 1, se)
  }

  /** Figures F.2 and G.3 from position k on: zero run codes and values, up to the last nonzero
      coefficient of the band. */
  function BandHead(tab: nat, z: seq<int>, k: nat, se: nat): (t: seq<Token>)
    requires k <= se + 1 && se < |z|
    ensures k <= se && t == [] ==> z[se] == 0
    decreases se + 1 - k
  {
    var p := NextNonzero(z, k, se);
    if p > se then []
    else if p - k > 15 then [Sym(tab, 0xF0)] + BandHead(tab, z, k + 16, se)
    else ValueTokens(tab, p - k, z[p]) + BandHead(tab, z, p + 1, se)
  }

  /** Every value has a magnitude of at most 1023. */
  predicate BandInRange(z: seq<int>, k: nat, se: nat)
    requires se < |z|
  {
    forall j :: k <= j <= se ==> -1023 <= z[j] <= 1023
  }

  /** The checks of the encoder, in numbers. */
  lemma InLimits(v: int)
    ensures NBits(v) <= MAX_COEF_BITS <==> -1023 <= v <= 1023
    ensures NBits(v) <= MAX_COEF_BITS + 1 <==> -2047 <= v <= 2047
  {
    hide NBits;
    InRange(v, MAX_COEF_BITS);
    InRange(v, MAX_COEF_BITS + 1);
    assert Pow2(10) == 1024;
  }

  /** A first AC scan: an end-of-band code if the band ends with zeros. */
  function ItemOf(tab: nat, z: seq<int>, ss: nat, se: nat): (x: Item)
    requires ss <= se < |z|
    ensures ItemOk(x)
  {
    Item(BandHead(tab, z, ss, se), z[se] == 0, [])
  }

  // ---- Blocks of a sequential scan or a first DC scan ----

  /** One scan: the component of each block of an MCU, the numbers of the DC and AC tables of
      each component among the tables of the scan, the last coefficient coded, and the low bit
      position.  A sequential scan has al = 0; a first DC scan of a progressive file has se = 0. */
  datatype Scan = Scan(membership: seq<nat>, dcTab: seq<nat>, acTab: seq<nat>, se: nat, al: nat, order: Order)

  predicate ScanOk(s: Scan, tables: nat) {
    && s.se < 64 && |s.dcTab| == |s.acTab| <= 4 && s.al <= 13 && (s.se > 0 ==> s.al == 0)
    && (forall b :: 0 <= b < |s.membership| ==> s.membership[b] < |s.dcTab|)
    && (forall c :: 0 <= c < |s.dcTab| ==> s.dcTab[c] < tables && s.acTab[c] < tables)
    && (forall c, e :: 0 <= c < |s.dcTab| && 0 <= e < |s.acTab| ==> s.dcTab[c] != s.acTab[e])
  }

  /** The end-of-block code. */
  function Eob(tab: nat, z: seq<int>, se: nat): seq<Token>
    requires se < |z|
  {
    if z[se] == 0 then [Sym(tab, 0)] else []
  }

  function AcTokens(tab: nat, z: seq<int>, se: nat): seq<Token>
    requires se < |z|
  {
    if se == 0 then [] else BandHead(tab, z, 1, se) + Eob(tab, z, se)
  }

  function DcValue(s: Scan, block: Block): int { ShiftRight(block[0], s.al) }

  predicate LastOk(s: Scan, last: seq<int>) { |last| == |s.dcTab| }

  function BlockTokens(s: Scan, tables: nat, b: nat, block: Block, last: seq<int>): seq<Token>
    requires ScanOk(s, tables) && LastOk(s, last) && b < |s.membership|
  {
    var c := s.membership[b];
    ValueTokens(s.dcTab[c], 0, DcValue(s, block) - last[c]) + AcTokens(s.acTab[c], ZigZag(block, s.order, s.al), s.se)
  }

  /** The range check: DC differences may be twice as large as AC values. */
  predicate BlockInRange(s: Scan, tables: nat, b: nat, block: Block, last: seq<int>)
    requires ScanOk(s, tables) && LastOk(s, last) && b < |s.membership|
  {
    -2047 <= DcValue(s, block) - last[s.membership[b]] <= 2047 && BandInRange(ZigZag(block, s.order, s.al), 1, s.se)
  }

  function LastNext(s: Scan, tables: nat, b: nat, block: Block, last: seq<int>): (r: seq<int>)
    requires ScanOk(s, tables) && LastOk(s, last) && b < |s.membership|
    ensures LastOk(s, r)
  {
    last[s.membership[b] := DcValue(s, block)]
  }

  /** Blocks b, b + 1, ... of an MCU. */
  function McuTokens(s: Scan, tables: nat, b: nat, mcu: seq<Block>, last: seq<int>): seq<Token>
    requires ScanOk(s, tables) && LastOk(s, last) && b <= |s.membership| == |mcu|
    decreases |mcu| - b
  {
    if b == |mcu| then []
    else BlockTokens(s, tables, b, mcu[b], last) + McuTokens(s, tables, b + 1, mcu, LastNext(s, tables, b, mcu[b], last))
  }

  predicate McuInRange(s: Scan, tables: nat, b: nat, mcu: seq<Block>, last: seq<int>)
    requires ScanOk(s, tables) && LastOk(s, last) && b <= |s.membership| == |mcu|
    decreases |mcu| - b
  {
    b == |mcu| ||
    (BlockInRange(s, tables, b, mcu[b], last) && McuInRange(s, tables, b + 1, mcu, LastNext(s, tables, b, mcu[b], last)))
  }

  function McuLast(s: Scan, tables: nat, b: nat, mcu: seq<Block>, last: seq<int>): (r: seq<int>)
    requires ScanOk(s, tables) && LastOk(s, last) && b <= |s.membership| == |mcu|
    ensures LastOk(s, r)
    decreases |mcu| - b
  {
    if b == |mcu| then last else McuLast(s, tables, b + 1, mcu, LastNext(s, tables, b, mcu[b], last))
  }

  predicate McusOk(s: Scan, mcus: seq<seq<Block>>) {
    forall i :: 0 <= i < |mcus| ==> |mcus[i]| == |s.membership|
  }

  /** MCUs i, i + 1, ... of a scan. */
  function ScanTokens(s: Scan, tables: nat, i: nat, mcus: seq<seq<Block>>, last: seq<int>): seq<Token>
    requires ScanOk(s, tables) && LastOk(s, last) && McusOk(s, mcus) && i <= |mcus|
    decreases |mcus| - i
  {
    if i == |mcus| then []
    else McuTokens(s, tables, 0, mcus[i], last) + ScanTokens(s, tables, i + 1, mcus, McuLast(s, tables, 0, mcus[i], last))
  }

  predicate ScanInRange(s: Scan, tables: nat, i: nat, mcus: seq<seq<Block>>, last: seq<int>)
    requires ScanOk(s, tables) && LastOk(s, last) && McusOk(s, mcus) && i <= |mcus|
    decreases |mcus| - i
  {
    i == |mcus| ||
    (McuInRange(s, tables, 0, mcus[i], last) && ScanInRange(s, tables, i + 1, mcus, McuLast(s, tables, 0, mcus[i], last)))
  }
}
