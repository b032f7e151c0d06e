/** What ITU-T T.81 gives in words and numbers about Huffman coding: size categories and additional
    bits, the codes of a table, bands with runs of zeros, end-of-band runs, correction bits,
    DC prediction, and the bytes of the coded data. */
module HuffStandard {
  import opened Radix
  import opened Bits
  import opened ByteStream
  import opened Blocks
  import opened DcBits
  import opened HuffCode
  import opened HuffTokens
  import opened EobRuns
  import opened HuffBlock
  import AcRefine
  import DcRefine
  import HuffScan
  import TwoPass

  // ---- Tables F.1 and F.2: size categories and additional bits ----

  /** Category n has the magnitudes with n bits; 0 is alone. */
  lemma Category(v: int, n: nat)
    ensures NBits(v) == n <==> if n == 0 then v == 0 else Pow2(n - 1) <= Abs(v) < Pow2(n)
  {
    hide Pow2, NBits;
    InRange(v, n);
    if n == 0 {
      assert Pow2(0) == 1 by { Pow2Values(); }
    } else {
      InRange(v, n - 1);
    }
  }

  /** A positive value is sent as it is, a negative one minus 1, in two's complement. */
  lemma AdditionalBits(v: int)
    ensures v >= 0 ==> Low(v) == v
    ensures v < 0 ==> Low(v) == v + Pow2(NBits(v)) - 1
  {
    hide Pow2, NBits;
    Category(v, NBits(v));
    if v > 0 { Remainder(v, 0, v, Pow2(NBits(v))); }
    if v < 0 { Remainder(v - 1, -1, v - 1 + Pow2(NBits(v)), Pow2(NBits(v))); }
  }

  /** The least value of 8-bit data has a magnitude of 11 bits: among the values from -1024 to 1023
      it is the only one that the encoder refuses. */
  lemma LeastRefused(v: int)
    requires -1024 <= v <= 1023
    ensures NBits(v) <= MAX_COEF_BITS <==> v != -1024
    ensures NBits(-1024) == 11
  {
    hide NBits;
    InLimits(v);
    InLimits(-1024);
  }

  /** The first bit is the most significant one. */
  lemma {:induction false} BitAt(v: nat, n: nat, i: nat)
    requires i < n
    ensures BitsOf(v, n)[i] == (v / Pow2(n - 1 - i) % 2 == 1)
    decreases n
  {
    if i < n - 1 {
      BitAt(v / 2, n - 1, i);
      Halved(v, Pow2(n - 2 - i));
      assert Pow2(n - 1 - i) == 2 * Pow2(n - 2 - i);
    }
  }

  lemma Halved(v: nat, p: nat)
    requires 0 < p
    ensures v / 2 / p == v / (2 * p)
  {
    var q := v / 2 / p;
    assert v / 2 == q * p + v / 2 % p && q * (2 * p) == 2 * (q * p);
    FloorIs(v, 2 * p, q);
  }

  // ---- Figures C.1 and C.2: lengths and codes ----

  /** A table has as many codes of every length as it says, the shorter ones first. */
  lemma {:induction false} LengthCounts(bits: seq<byte>, n: nat, l: nat)
    requires |bits| == 17 && n <= 16
    ensures multiset(Sizes(bits, n))[l] == if 1 <= l <= n then bits[l] else 0
    ensures Ascending(Sizes(bits, n))
  {
    SizesAscending(bits, n);
    if n > 0 {
      LengthCounts(bits, n - 1, l);
      SameLengths(bits[n], n, l);
    }
  }

  lemma {:induction false} SameLengths(count: nat, n: nat, l: nat)
    ensures multiset(seq(count, _ => n))[l] == if l == n then count else 0
  {
    if count > 0 {
      SameLengths(count - 1, n, l);
      assert seq(count, _ => n) == seq(count - 1, _ => n) + [n];
    }
  }

  /** The first code is all zeros; the next one is one more, with zeros behind it if it is longer. */
  lemma NextCode(sz: seq<nat>, p: nat)
    requires Ascending(sz) && p < |sz|
    ensures Code(sz, 0) == 0
    ensures p + 1 < |sz| ==> Code(sz, p + 1) == (Code(sz, p) + 1) * Pow2(sz[p + 1] - sz[p])
  {
    hide Pow2, Code, Lj;
    FirstCode(sz);
    if p + 1 < |sz| {
      var s, t := sz[p], sz[p + 1];
      CodeExact(sz, p);
      CodeExact(sz, p + 1);
      LjStep(sz, p);
      Share(s, t);
      var c, d, w := Code(sz, p), Pow2(t - s), Pow2(16 - t);
      SameFactor(Code(sz, p + 1), c, d, w);
    }
  }

  lemma FirstCode(sz: seq<nat>)
    requires Ascending(sz) && 0 < |sz|
    ensures Code(sz, 0) == 0
  {
    hide Pow2;
    ShrUnique(0, 16 - sz[0], 0);
  }

  lemma LjStep(sz: seq<nat>, p: nat)
    requires Ascending(sz) && p < |sz|
    ensures Lj(sz, p + 1) == Lj(sz, p) + Pow2(16 - sz[p])
  {
  }

  lemma Share(s: nat, t: nat)
    requires s <= t <= 16
    ensures Pow2(16 - s) == Pow2(t - s) * Pow2(16 - t)
  {
    assert 16 - s == (t - s) + (16 - t);
    Pow2Add(t - s, 16 - t);
  }

  lemma SameFactor(x: nat, c: nat, d: nat, w: nat)
    requires 0 < w && x * w == c * (d * w) + d * w
    ensures x == (c + 1) * d
  {
    var y := (c + 1) * d;
    assert y == c * d + d;
    assert y * w == c * d * w + d * w == c * (d * w) + d * w;
    Squeeze(x * w, w, x, y);
  }

  // ---- Figure F.2: runs of zeros ----

  lemma Next(z: seq<int>, k: nat, se: nat, p: nat)
    requires k <= p <= se < |z| && z[p] != 0 && forall j :: k <= j < p ==> z[j] == 0
    ensures NextNonzero(z, k, se) == p
  {
  }

  lemma NoneLeft(z: seq<int>, k: nat, se: nat)
    requires k <= se + 1 && se < |z| && forall j :: k <= j <= se ==> z[j] == 0
    ensures NextNonzero(z, k, se) == se + 1
  {
  }

  /** -3 at position 1, sixteen zeros, 1 at position 18 and zeros to the end: run 0 and category 2 with
      the bits 00, a run of sixteen zeros, run 0 and category 1 with the bit 1, end of block. */
  lemma LongRun(tab: nat, z: seq<int>)
    requires |z| == 64 && z[1] == -3 && z[18] == 1 && forall j :: 2 <= j < 64 && j != 18 ==> z[j] == 0
    ensures AcTokens(tab, z, 63) ==
      [Sym(tab, 0x02), Raw(false), Raw(false), Sym(tab, 0xF0), Sym(tab, 0x01), Raw(true), Sym(tab, 0x00)]
  {
    hide NextNonzero, ValueTokens;
    Next(z, 1, 63, 1);
    Next(z, 2, 63, 18);
    Next(z, 18, 63, 18);
    NoneLeft(z, 19, 63);
    Values(tab);
    assert BandHead(tab, z, 19, 63) == [];
    assert BandHead(tab, z, 18, 63) == [Sym(tab, 0x01), Raw(true)];
    assert BandHead(tab, z, 2, 63) == [Sym(tab, 0xF0), Sym(tab, 0x01), Raw(true)];
  }

  /** Fifteen zeros go with the value behind them, and no end of block follows the last coefficient. */
  lemma ShortRun(tab: nat, z: seq<int>)
    requires |z| == 64 && z[1] == 5 && z[17] == -1 && z[63] == 1 && forall j :: 2 <= j < 63 && j != 17 ==> z[j] == 0
    ensures AcTokens(tab, z, 63) == [Sym(tab, 0x03), Raw(true), Raw(false), Raw(true), Sym(tab, 0xF1), Raw(false),
      Sym(tab, 0xF0), Sym(tab, 0xF0), Sym(tab, 0xD1), Raw(true)]
  {
    hide NextNonzero, ValueTokens;
    Next(z, 1, 63, 1);
    Next(z, 2, 63, 17);
    Next(z, 18, 63, 63);
    Next(z, 34, 63, 63);
    Next(z, 50, 63, 63);
    NoneLeft(z, 64, 63);
    Values(tab);
    assert BandHead(tab, z, 64, 63) == [];
    assert BandHead(tab, z, 50, 63) == [Sym(tab, 0xD1), Raw(true)];
    assert BandHead(tab, z, 34, 63) == [Sym(tab, 0xF0), Sym(tab, 0xD1), Raw(true)];
    assert BandHead(tab, z, 18, 63) == [Sym(tab, 0xF0), Sym(tab, 0xF0), Sym(tab, 0xD1), Raw(true)];
  }

  lemma Values(tab: nat)
    ensures ValueTokens(tab, 0, -3) == [Sym(tab, 0x02), Raw(false), Raw(false)]
    ensures ValueTokens(tab, 0, 1) == [Sym(tab, 0x01), Raw(true)]
    ensures ValueTokens(tab, 0, 5) == [Sym(tab, 0x03), Raw(true), Raw(false), Raw(true)]
    ensures ValueTokens(tab, 15, -1) == [Sym(tab, 0xF1), Raw(false)]
    ensures ValueTokens(tab, 13, 1) == [Sym(tab, 0xD1), Raw(true)]
  {
    Numbers();
    assert BitsOf(0, 0) == [] && BitsOf(1, 1) == [true] && BitsOf(0, 1) == [false];
    assert BitsOf(0, 2) == [false, false] && BitsOf(2, 2) == [true, false] && BitsOf(5, 3) == [true, false, true];
  }

  lemma Numbers()
    ensures NBits(-3) == 2 && Low(-3) == 0 && NBits(1) == 1 && Low(1) == 1 && NBits(5) == 3 && Low(5) == 5
    ensures NBits(-1) == 1 && Low(-1) == 0
  {
    assert Pow2(1) == 2 && Pow2(2) == 4 && Pow2(3) == 8;
    Category(-3, 2);
    Category(1, 1);
    Category(5, 3);
    Category(-1, 1);
    AdditionalBits(-3);
    AdditionalBits(1);
    AdditionalBits(5);
    AdditionalBits(-1);
  }

  // ---- Table G.1: end-of-band runs ----

  /** A run of 2^n to 2^(n+1) - 1 blocks is EOBn, with n bits that say which. */
  lemma EobCategory(tab: nat, run: nat, n: nat)
    requires n <= 14 && Pow2(n) <= run < 2 * Pow2(n)
    ensures 0 < run <= 0x7FFF
    ensures EobTokens(tab, run) == [Sym(tab, 16 * n)] + Raws(BitsOf(run - Pow2(n), n))
  {
    hide Pow2, Log2, BitsOf;
    Pow2Values();
    Pow2Step(14);
    if n < 14 { Pow2Grows(n, 14); }
    RunLog(run);
    var m := Log2(run);
    Pow2Step(m);
    Pow2Step(n);
    if m < n - 1 { Pow2Grows(m + 1, n); }
    if n < m - 1 { Pow2Grows(n + 1, m); }
    assert run % Pow2(n) == run - Pow2(n) by { FloorIs(run, Pow2(n), 1); }
  }

  /** A run is cut off at 32767 blocks, or when the correction bits of one more block might not fit
      into a buffer for 1000 of them. */
  lemma RunLimits(h: Held, x: Item)
    requires ItemOk(x)
    ensures Full(h) <==> h.run == 32767 || |h.bits| > 937
    ensures !Full(h) ==> |h.bits| + |x.tail| <= 1000
  {
  }

  // ---- Figure G.7: correction bits ----

  /** New coefficients behind zeros and old ones: the correction bits of the old ones follow the sign
      of the next new one, and those behind the last new one the end of the band. */
  lemma Refinement(b: AcRefine.Band)
    requires AcRefine.BandOk(b) && b.ss == 1 && b.se == 5
    requires b.z[1] == 3 && b.z[2] == 0 && b.z[3] == 1 && b.neg[3] && b.z[4] == 0 && b.z[5] == 2
    ensures AcRefine.ItemOf(b) == Item([Sym(b.tab, 0x11), Raw(false), Raw(true)], true, [false])
  {
    assert AcRefine.Bit(3) && !AcRefine.Bit(2);
    assert AcRefine.Eob(b) == 3;
    assert AcRefine.NextHit(b, 3, 1, [true]) == AcRefine.Hit(3, 1, [true]);
    assert AcRefine.NextHit(b, 2, 0, [] + [true]) == AcRefine.Hit(3, 1, [true]);
    assert AcRefine.NextHit(b, 1, 0, []) == AcRefine.Hit(3, 1, [true]);
    assert AcRefine.Tail(b, 6) == [];
    assert AcRefine.Tail(b, 5) == [false];
    assert AcRefine.Tail(b, 4) == [false];
    assert AcRefine.Head(b, 4) == [];
  }

  lemma {:induction false} SixteenthZero(b: AcRefine.Band, k: nat, r: nat, br: seq<bool>)
    requires AcRefine.BandOk(b) && b.ss <= k && r <= 15 && k + 15 - r <= AcRefine.Eob(b)
    requires forall j :: k <= j <= k + 15 - r ==> b.z[j] == 0
    ensures AcRefine.NextHit(b, k, r, br) == AcRefine.Hit(k + 15 - r, 15, br)
    decreases 15 - r
  {
    if r < 15 { SixteenthZero(b, k + 1, r + 1, br); }
  }

  /** The code for sixteen zeros has the correction bits of the old coefficients before the last of
      them behind it, and the next code those that come after. */
  lemma LongRefinement(b: AcRefine.Band)
    requires AcRefine.BandOk(b) && b.ss == 1 && b.se == 19
    requires b.z[1] == 2 && b.z[18] == 3 && b.z[19] == 1 && !b.neg[19] && forall j :: 2 <= j <= 17 ==> b.z[j] == 0
    ensures AcRefine.ItemOf(b) ==
      Item([Sym(b.tab, 0xF0), Raw(false), Sym(b.tab, 0x01), Raw(true), Raw(true)], false, [])
  {
    hide AcRefine.NextHit;
    assert AcRefine.Bit(3) && !AcRefine.Bit(2);
    assert AcRefine.Eob(b) == 19;
    FirstHits(b);
    assert AcRefine.Head(b, 20) == [];
    assert AcRefine.Head(b, 18) == [Sym(b.tab, 0x01), Raw(true), Raw(true)];
  }

  lemma FirstHits(b: AcRefine.Band)
    requires AcRefine.BandOk(b) && b.ss == 1 && b.se == 19
    requires b.z[1] == 2 && b.z[18] == 3 && b.z[19] == 1 && forall j :: 2 <= j <= 17 ==> b.z[j] == 0
    ensures AcRefine.Eob(b) == 19
    ensures AcRefine.NextHit(b, 1, 0, []) == AcRefine.Hit(17, 15, [false])
    ensures AcRefine.NextHit(b, 18, 0, []) == AcRefine.Hit(19, 0, [true])
  {
    assert AcRefine.Eob(b) == 19;
    SixteenthZero(b, 2, 0, [false]);
    assert [] + [AcRefine.Bit(2)] == [false] && [] + [AcRefine.Bit(3)] == [true];
    assert AcRefine.NextHit(b, 1, 0, []) == AcRefine.NextHit(b, 2, 0, [] + [AcRefine.Bit(2)]);
    assert AcRefine.NextHit(b, 19, 0, [true]) == AcRefine.Hit(19, 0, [true]);
    assert AcRefine.NextHit(b, 18, 0, []) == AcRefine.NextHit(b, 19, 0, [] + [AcRefine.Bit(3)]);
  }

  // ---- Section F.1.1.5.1: DC prediction ----

  /** The first blocks of a segment: the DC value itself for the first block of a component, and then
      the difference to the block of the same component before it. */
  lemma DcPrediction(s: Scan, x: Block, y: Block, w: Block)
    requires ScanOk(s, 4) && s.membership == [0, 0, 1] && s.dcTab == [0, 2] && s.se == 0 && s.al == 0
    ensures McuTokens(s, 4, 0, [x, y, w], HuffScan.NoDc(s)) ==
      ValueTokens(0, 0, x[0]) + ValueTokens(0, 0, y[0] - x[0]) + ValueTokens(2, 0, w[0])
    ensures McuLast(s, 4, 0, [x, y, w], HuffScan.NoDc(s)) == [y[0], w[0]]
  {
    hide ValueTokens;
    assert Pow2(0) == 1;
    var mcu, last := [x, y, w], HuffScan.NoDc(s);
    assert last == [0, 0];
    var last1 := LastNext(s, 4, 0, x, last);
    assert last1 == [x[0], 0];
    var last2 := LastNext(s, 4, 1, y, last1);
    assert last2 == [y[0], 0];
    assert LastNext(s, 4, 2, w, last2) == [y[0], w[0]];
    assert McuTokens(s, 4, 3, mcu, [y[0], w[0]]) == [];
    assert McuLast(s, 4, 2, mcu, last2) == [y[0], w[0]];
    assert McuLast(s, 4, 1, mcu, last1) == [y[0], w[0]];
    assert McuTokens(s, 4, 2, mcu, last2) == ValueTokens(2, 0, w[0]);
    assert McuTokens(s, 4, 1, mcu, last1) == ValueTokens(0, 0, y[0] - x[0]) + ValueTokens(2, 0, w[0]);
  }

  // ---- Section G.1.2.1: the point transform, and refinement of DC values ----

  /** A DC refinement scan sends the bit at its position in two's complement. */
  lemma DcRefinement(al: nat)
    requires al <= 2
    ensures DcRefine.BlockBits(13, al) == [Raw(al != 1)] && DcRefine.BlockBits(-6, al) == [Raw(al == 1)]
  {
    assert Pow2(0) == 1 && Pow2(1) == 2 && Pow2(2) == 4;
    assert BitsOf(0, 0) == [] && BitsOf(1, 1) == [true] && BitsOf(0, 1) == [false];
  }

  /** DC values are rounded down, AC values towards 0. */
  lemma PointTransform(v: int, al: nat)
    ensures ShiftRight(v, al) * Pow2(al) <= v < ShiftRight(v, al) * Pow2(al) + Pow2(al)
    ensures v >= 0 ==> Shrink(v, al) == ShiftRight(v, al)
    ensures v < 0 ==> Shrink(v, al) == -ShiftRight(-v, al)
    ensures ShiftRight(-5, 1) == -3 && Shrink(-5, 1) == -2
  {
    assert ShiftRight(-5, 1) == -3 && Shrink(-5, 1) == -2 by { assert Pow2(1) == 2; }
    hide Pow2;
    Floor(v, Pow2(al));
  }

  lemma Floor(v: int, p: nat)
    requires 0 < p
    ensures v / p * p <= v < v / p * p + p
  {
    assert v == v / p * p + v % p;
  }

  // ---- Section B.1.1: bytes and markers ----

  /** The bits fill every byte from its most significant bit down. */
  lemma {:induction false} BitOfByte(data: seq<byte>, i: nat, j: nat)
    requires i < |data| && j < 8
    ensures ByteBits(data)[8 * i + j] == (data[i] / Pow2(7 - j) % 2 == 1)
    decreases data
  {
    hide BitsOf, Pow2;
    var n := |data| - 1;
    if i < n {
      BitOfByte(data[..n], i, j);
    } else {
      BitAt(data[i], 8, j);
    }
  }

  /** Only a 0xFF byte gets a zero behind it. */
  lemma {:induction false} Stuffed(data: seq<byte>)
    ensures |Stuff(data)| == |data| + multiset(data)[0xFF]
    ensures 0xFF !in data ==> Stuff(data) == data
  {
    if data != [] {
      var n := |data| - 1;
      Stuffed(data[..n]);
      assert data == data[..n] + [data[n]];
    }
  }

  /** Any number of 0xFF bytes may precede a marker (section B.1.1.2); the decoder also takes them in
      front of a stuffed zero. */
  lemma {:induction false} FillBytes(k: nat, m: byte, rest: seq<byte>)
    requires 1 <= k && m != 0xFF
    ensures SkipFF(Fill(0xFF, k) + [m] + rest) == [m] + rest
    ensures FetchFrom(Fill(0xFF, k) + [m] + rest) == if m == 0 then Data(0xFF, rest) else Marker(m, rest)
  {
    var s := Fill(0xFF, k) + [m] + rest;
    assert s[1..] == Fill(0xFF, k - 1) + [m] + rest;
    if k > 1 {
      FillBytes(k - 1, m, rest);
    } else {
      assert s[1..] == [m] + rest;
    }
    assert ([m] + rest)[1..] == rest;
  }

  /** Between segments there are the markers RST0 to RST7 in turn. */
  lemma RestartMarkers(marker: seq<byte>)
    ensures TwoPass.Behind(0, 10, marker) == [0xFF, 0xD0] && TwoPass.Behind(1, 10, marker) == [0xFF, 0xD1]
    ensures TwoPass.Behind(7, 10, marker) == [0xFF, 0xD7] && TwoPass.Behind(8, 10, marker) == [0xFF, 0xD0]
    ensures TwoPass.Behind(9, 10, marker) == marker
  {
  }
}
