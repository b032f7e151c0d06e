/** Which symbols a scan can send, and how many different ones: what jpeg_gen_optimal_table is given
    to work on is never empty, and never so rich that its eight-bit counts could overflow. */
module SymbolUse {
  import opened Radix
  import opened Blocks
  import opened HuffTokens
  import opened EobRuns
  import opened HuffBlock
  import opened HuffScan
  import HuffmanSums
  import LongestCode
  import Bits
  import AcRefine

  /** How often each symbol of table t is used. */
  function Uses(xs: seq<Token>, t: nat): (f: seq<nat>)
    ensures |f| == 257
  {
    seq(257, s requires 0 <= s < 257 => if s < 256 then Count(xs, t, s) else 0)
  }

  function Total(f: seq<nat>): nat
    requires |f| == 257
  {
    HuffmanSums.Sum(f, 256)
  }

  /** Few enough for the search for the least count, which starts from 10^9. */
  predicate Countable(f: seq<nat>)
    requires |f| == 257
  {
    Total(f) < 1000000000
  }

  /** Few enough for code lengths of at most 32 bits, whatever the counts. */
  predicate Few(f: seq<nat>)
    requires |f| == 257
  {
    Total(f) < 9227464
  }

  /** The table generator accepts the counts. */
  predicate Accepted(f: seq<nat>)
    requires |f| == 257
  {
    LongestCode.ShortCodes(f[256 := 1])
  }

  lemma FewAccepted(f: seq<nat>)
    requires |f| == 257 && Few(f)
    ensures Accepted(f)
  {
    hide LongestCode.ShortCodes;
    HuffmanSums.SamePrefix(f, f[256 := 1], 256);
    LongestCode.WithPseudo(f[256 := 1]);
    LongestCode.FewAreShort(f[256 := 1]);
  }

  /** What the table generator needs: some symbol is used, and two are not. */
  predicate Moderate(f: seq<nat>)
    requires |f| == 257
  {
    1 <= HuffmanSums.UsedBelow(HuffmanSums.Used(f), 256) <= 254 && Countable(f)
  }

  /** Size categories end with 11. */
  predicate Sized(x: Token) { x.Sym? ==> x.s % 16 <= 11 }

  ghost predicate SomeSym(xs: seq<Token>, t: nat) {
    exists s: byte :: Sym(t, s) in xs
  }

  lemma UsesModerate(xs: seq<Token>, t: nat)
    requires SomeSym(xs, t) && (forall x :: x in xs ==> Sized(x)) && Countable(Uses(xs, t))
    ensures Moderate(Uses(xs, t))
  {
    hide Count, HuffmanSums.UsedBelow, HuffmanSums.Sum;
    var f := Uses(xs, t);
    var s: byte :| Sym(t, s) in xs;
    CountedIsSent(xs, t, s);
    CountedIsSent(xs, t, 15);
    CountedIsSent(xs, t, 31);
    assert !Sized(Sym(t, 15)) && !Sized(Sym(t, 31));
    HuffmanSums.AtLeastOne(HuffmanSums.Used(f), 256, s);
    HuffmanSums.TwoMissing(HuffmanSums.Used(f), 256, 15, 31);
  }

  // ---- Symbols of a band ----

  lemma ValueSized(tab: nat, r: nat, v: int, x: Token)
    requires r <= 15 && NBits(v) <= 11 && x in ValueTokens(tab, r, v)
    ensures Sized(x) && (x.Sym? ==> x.tab == tab && (r == 0 ==> x.s <= 15))
  {
    hide NBits, Bits.BitsOf, Raws;
    if x in Raws(Bits.BitsOf(Low(v), NBits(v))) { RawIsRaw(Bits.BitsOf(Low(v), NBits(v)), x); }
  }

  lemma RawIsRaw(bits: seq<bool>, x: Token)
    requires x in Raws(bits)
    ensures x.Raw? && Sized(x)
  {
  }

  lemma {:induction false} HeadSized(tab: nat, z: seq<int>, k: nat, se: nat, x: Token)
    requires k <= se + 1 && se < |z| && BandInRange(z, k, se) && x in BandHead(tab, z, k, se)
    ensures Sized(x) && (x.Sym? ==> x.tab == tab)
    decreases se + 1 - k
  {
    hide NBits, ValueTokens, NextNonzero;
    var p := NextNonzero(z, k, se);
    if p <= se {
      if p - k > 15 {
        if x in BandHead(tab, z, k + 16, se) { HeadSized(tab, z, k + 16, se, x); }
      } else if x in ValueTokens(tab, p - k, z[p]) {
        InLimits(z[p]);
        ValueSized(tab, p - k, z[p], x);
      } else {
        HeadSized(tab, z, p + 1, se, x);
      }
    }
  }

  lemma HeadFirst(tab: nat, z: seq<int>, k: nat, se: nat)
    requires k <= se + 1 && se < |z| && BandHead(tab, z, k, se) != []
    ensures SomeSym(BandHead(tab, z, k, se), tab)
  {
    hide NBits, NextNonzero;
    var x := BandHead(tab, z, k, se)[0];
    assert x == Sym(tab, x.s);
  }

  // ---- Symbols of a sequential scan or a first DC scan ----

  /** The tables that a scan needs. */
  predicate Needed(scan: Scan, t: nat) { t in scan.dcTab || (scan.se > 0 && t in scan.acTab) }

  predicate Suits(scan: Scan, x: Token) {
    Sized(x) && (x.Sym? ==> Needed(scan, x.tab) && (x.tab in scan.dcTab ==> x.s <= 15))
  }

  lemma BlockSuits(scan: Scan, n: nat, b: nat, block: Block, last: seq<int>, x: Token)
    requires ScanOk(scan, n) && LastOk(scan, last) && b < |scan.membership| && BlockInRange(scan, n, b, block, last)
    requires x in BlockTokens(scan, n, b, block, last)
    ensures Suits(scan, x)
  {
    hide NBits, BandHead, ZigZag, ValueTokens;
    var c, z := scan.membership[b], ZigZag(block, scan.order, scan.al);
    var diff := DcValue(scan, block) - last[c];
    InLimits(diff);
    if x in ValueTokens(scan.dcTab[c], 0, diff) {
      ValueSized(scan.dcTab[c], 0, diff, x);
    } else if x in BandHead(scan.acTab[c], z, 1, scan.se) {
      HeadSized(scan.acTab[c], z, 1, scan.se, x);
    }
  }

  lemma {:induction false} McuSuits(scan: Scan, n: nat, b: nat, mcu: seq<Block>, last: seq<int>, x: Token)
    requires ScanOk(scan, n) && LastOk(scan, last) && b <= |scan.membership| == |mcu| && McuInRange(scan, n, b, mcu, last)
    requires x in McuTokens(scan, n, b, mcu, last)
    ensures Suits(scan, x)
    decreases |mcu| - b
  {
    hide BlockTokens, BlockInRange, LastNext, Suits;
    if x in BlockTokens(scan, n, b, mcu[b], last) {
      BlockSuits(scan, n, b, mcu[b], last, x);
    } else {
      McuSuits(scan, n, b + 1, mcu, LastNext(scan, n, b, mcu[b], last), x);
    }
  }

  lemma {:induction false} ScanSuits(scan: Scan, n: nat, i: nat, mcus: seq<seq<Block>>, last: seq<int>, x: Token)
    requires ScanOk(scan, n) && LastOk(scan, last) && McusOk(scan, mcus) && i <= |mcus| && ScanInRange(scan, n, i, mcus, last)
    requires x in ScanTokens(scan, n, i, mcus, last)
    ensures Suits(scan, x)
    decreases |mcus| - i
  {
    hide McuTokens, McuInRange, McuLast, Suits;
    if x in McuTokens(scan, n, 0, mcus[i], last) {
      McuSuits(scan, n, 0, mcus[i], last, x);
    } else {
      ScanSuits(scan, n, i + 1, mcus, McuLast(scan, n, 0, mcus[i], last), x);
    }
  }

  /** The coefficients being in range, every symbol belongs to a table that the scan needs, and a
      DC table gets size categories only. */
  lemma {:induction false} SegmentSuits(scan: Scan, n: nat, segments: seq<seq<seq<Block>>>, k: nat, x: Token)
    requires ScanOk(scan, n) && SegmentsOk(scan, segments) && k <= |segments| && SegmentsInRange(scan, n, segments, k)
    requires x in SegmentTokens(scan, n, segments, k)
    ensures Suits(scan, x)
  {
    hide ScanTokens, ScanInRange, ScanOk, Suits;
    if x in ScanTokens(scan, n, 0, segments[k - 1], NoDc(scan)) {
      ScanSuits(scan, n, 0, segments[k - 1], NoDc(scan), x);
    } else {
      SegmentSuits(scan, n, segments, k - 1, x);
    }
  }

  /** Block b of an MCU is of a component with table t. */
  predicate Draws(scan: Scan, b: nat, t: nat)
    requires b < |scan.membership| && scan.membership[b] < |scan.dcTab| == |scan.acTab|
  {
    t == scan.dcTab[scan.membership[b]] || (scan.se > 0 && t == scan.acTab[scan.membership[b]])
  }

  lemma BlockUses(scan: Scan, n: nat, b: nat, block: Block, last: seq<int>, t: nat)
    requires ScanOk(scan, n) && LastOk(scan, last) && b < |scan.membership| && Draws(scan, b, t)
    ensures SomeSym(BlockTokens(scan, n, b, block, last), t)
  {
    hide NBits, BandHead, ZigZag;
    var c, z := scan.membership[b], ZigZag(block, scan.order, scan.al);
    var dc, ac := ValueTokens(scan.dcTab[c], 0, DcValue(scan, block) - last[c]), AcTokens(scan.acTab[c], z, scan.se);
    if t == scan.dcTab[c] {
      assert dc[0] == Sym(t, dc[0].s);
      InEither(dc, ac, t);
    } else {
      AcUses(t, z, scan.se);
      InEither(dc, ac, t);
    }
  }

  lemma AcUses(t: nat, z: seq<int>, se: nat)
    requires 0 < se < |z|
    ensures SomeSym(AcTokens(t, z, se), t)
  {
    hide BandHead;
    if z[se] == 0 {
      assert Sym(t, 0) in Eob(t, z, se);
    } else {
      HeadFirst(t, z, 1, se);
    }
    InEither(BandHead(t, z, 1, se), Eob(t, z, se), t);
  }

  lemma InEither(x: seq<Token>, y: seq<Token>, t: nat)
    ensures SomeSym(x, t) || SomeSym(y, t) ==> SomeSym(x + y, t)
  {
    if SomeSym(x, t) {
      var s: byte :| Sym(t, s) in x;
      assert Sym(t, s) in x + y;
    } else if SomeSym(y, t) {
      var s: byte :| Sym(t, s) in y;
      assert Sym(t, s) in x + y;
    }
  }

  lemma {:induction false} McuUses(scan: Scan, n: nat, b: nat, mcu: seq<Block>, last: seq<int>, j: nat, t: nat)
    requires ScanOk(scan, n) && LastOk(scan, last) && b <= j < |scan.membership| == |mcu| && Draws(scan, j, t)
    ensures SomeSym(McuTokens(scan, n, b, mcu, last), t)
    decreases |mcu| - b
  {
    hide BlockTokens, LastNext, SomeSym, Draws;
    var next := LastNext(scan, n, b, mcu[b], last);
    if b == j {
      BlockUses(scan, n, b, mcu[b], last, t);
    } else {
      McuUses(scan, n, b + 1, mcu, next, j, t);
    }
    InEither(BlockTokens(scan, n, b, mcu[b], last), McuTokens(scan, n, b + 1, mcu, next), t);
  }

  /** Every component has a block in an MCU. */
  predicate Present(scan: Scan) {
    forall c :: 0 <= c < |scan.dcTab| ==> c in scan.membership
  }

  lemma NeededDraws(scan: Scan, n: nat, t: nat) returns (b: nat)
    requires ScanOk(scan, n) && Present(scan) && Needed(scan, t)
    ensures b < |scan.membership| && Draws(scan, b, t)
  {
    var c: nat;
    if t in scan.dcTab {
      c :| c < |scan.dcTab| && scan.dcTab[c] == t;
    } else {
      c :| c < |scan.acTab| && scan.acTab[c] == t;
    }
    assert c in scan.membership;
    b :| 0 <= b < |scan.membership| && scan.membership[b] == c;
  }

  lemma FirstUses(scan: Scan, n: nat, mcus: seq<seq<Block>>, last: seq<int>, t: nat)
    requires ScanOk(scan, n) && LastOk(scan, last) && McusOk(scan, mcus) && mcus != [] && Present(scan) && Needed(scan, t)
    ensures SomeSym(ScanTokens(scan, n, 0, mcus, last), t)
  {
    hide McuTokens, McuLast, SomeSym, Draws, Present, Needed;
    var b := NeededDraws(scan, n, t);
    McuUses(scan, n, 0, mcus[0], last, b, t);
    InEither(McuTokens(scan, n, 0, mcus[0], last), ScanTokens(scan, n, 1, mcus, McuLast(scan, n, 0, mcus[0], last)), t);
  }

  lemma {:induction false} SegmentUses(scan: Scan, n: nat, segments: seq<seq<seq<Block>>>, k: nat, j: nat, t: nat)
    requires ScanOk(scan, n) && SegmentsOk(scan, segments) && j < k <= |segments| && segments[j] != [] && Present(scan) && Needed(scan, t)
    ensures SomeSym(SegmentTokens(scan, n, segments, k), t)
  {
    hide ScanTokens, SomeSym, Present, Needed, ScanOk;
    if j < k - 1 {
      SegmentUses(scan, n, segments, k - 1, j, t);
    } else {
      FirstUses(scan, n, segments[j], NoDc(scan), t);
    }
    InEither(SegmentTokens(scan, n, segments, k - 1), ScanTokens(scan, n, 0, segments[k - 1], NoDc(scan)), t);
  }

  /** The table generator can work on the counts of every table that the scan needs. */
  lemma ScanModerate(scan: Scan, n: nat, segments: seq<seq<seq<Block>>>, j: nat, t: nat)
    requires ScanOk(scan, n) && SegmentsOk(scan, segments) && SegmentsInRange(scan, n, segments, |segments|)
    requires j < |segments| && segments[j] != [] && Present(scan) && Needed(scan, t)
    requires Countable(Uses(SegmentTokens(scan, n, segments, |segments|), t))
    ensures Moderate(Uses(SegmentTokens(scan, n, segments, |segments|), t))
  {
    hide SegmentTokens, ScanInRange, ScanOk, Present, Needed, Uses, Moderate, Countable, SomeSym;
    var xs := SegmentTokens(scan, n, segments, |segments|);
    forall x | x in xs ensures Sized(x) { SegmentSuits(scan, n, segments, |segments|, x); }
    SegmentUses(scan, n, segments, |segments|, j, t);
    UsesModerate(xs, t);
  }

  // ---- Symbols of a progressive band ----

  /** The symbols of a block are of the table of the band, and a head starts with one. */
  ghost predicate Orderly(tab: nat, x: Item) {
    (x.head != [] ==> SomeSym(x.head, tab)) && forall y :: y in x.head ==> Sized(y) && (y.Sym? ==> y.tab == tab)
  }

  lemma FirstOrderly(tab: nat, z: seq<int>, ss: nat, se: nat)
    requires ss <= se < |z| && BandInRange(z, ss, se)
    ensures Orderly(tab, HuffBlock.ItemOf(tab, z, ss, se))
  {
    hide BandHead, NBits, Sized;
    if BandHead(tab, z, ss, se) != [] { HeadFirst(tab, z, ss, se); }
    forall y | y in BandHead(tab, z, ss, se) ensures Sized(y) && (y.Sym? ==> y.tab == tab) { HeadSized(tab, z, ss, se, y); }
  }

  lemma {:induction false} RefineSized(b: AcRefine.Band, k: nat, x: Token)
    requires AcRefine.BandOk(b) && b.ss <= k && x in AcRefine.Head(b, k)
    ensures Sized(x) && (x.Sym? ==> x.tab == b.tab)
    decreases AcRefine.Eob(b) + 1 - k
  {
    hide AcRefine.Eob, AcRefine.NextHit, Raws;
    if k <= AcRefine.Eob(b) {
      var h := AcRefine.NextHit(b, k, 0, []);
      if x in AcRefine.HitTokens(b, h) {
        if x in Raws(h.bits) { RawIsRaw(h.bits, x); }
      } else {
        RefineSized(b, h.pos + 1, x);
      }
    }
  }

  lemma RefineOrderly(b: AcRefine.Band)
    requires AcRefine.BandOk(b)
    ensures Orderly(b.tab, AcRefine.ItemOf(b))
  {
    hide AcRefine.Eob, AcRefine.NextHit, Raws, Sized;
    var head := AcRefine.Head(b, b.ss);
    if head != [] { assert head[0] == Sym(b.tab, head[0].s); }
    forall y | y in head ensures Sized(y) && (y.Sym? ==> y.tab == b.tab) { RefineSized(b, b.ss, y); }
  }

  lemma EobSized(tab: nat, run: nat, x: Token)
    requires 0 < run <= 0x7FFF && x in EobTokens(tab, run)
    ensures Sized(x) && (x.Sym? ==> x.tab == tab)
  {
    hide Log2, Pow2, Raws;
    RunLog(run);
    var n := Log2(run);
    if x in Raws(Bits.BitsOf(run % Pow2(n), n)) { RawIsRaw(Bits.BitsOf(run % Pow2(n), n), x); }
  }

  lemma {:induction false} StreamSized(tab: nat, items: seq<Item>, i: nat, m: nat, x: Token)
    requires i <= |items| && (forall j :: 0 <= j < |items| ==> Orderly(tab, items[j])) && x in Stream(tab, items, i, m)
    ensures Sized(x) && (x.Sym? ==> x.tab == tab)
    decreases |items| - i
  {
    hide Sized, EobTokens, Raws, RunOf, SomeSym;
    if i < |items| {
      if x in Raws(items[i].tail) {
        RawIsRaw(items[i].tail, x);
      } else if m > 0 {
        StreamSized(tab, items, i + 1, m - 1, x);
      } else if x in items[i].head {
        assert Orderly(tab, items[i]);
      } else if !items[i].eob {
        StreamSized(tab, items, i + 1, 0, x);
      } else {
        var run := RunOf(items, i + 1, Held(1, items[i].tail));
        if x in EobTokens(tab, run) { EobSized(tab, run, x); } else { StreamSized(tab, items, i + 1, run - 1, x); }
      }
    }
  }

  lemma StreamUses(tab: nat, items: seq<Item>)
    requires items != [] && ItemsOk(items) && Orderly(tab, items[0])
    ensures SomeSym(Stream(tab, items, 0, 0), tab)
  {
    hide Raws, RunOf, SomeSym, Stream;
    StreamStart(tab, items);
    var x := items[0];
    assert x in items;
    if !x.eob {
      InEither(x.head, Stream(tab, items, 1, 0), tab);
    } else {
      var run := RunOf(items, 1, Held(1, x.tail));
      var e := EobTokens(tab, run);
      SomeEob(tab, run);
      InEither(x.head, e, tab);
      InEither(x.head + e, Raws(x.tail), tab);
      InEither(x.head + e + Raws(x.tail), Stream(tab, items, 1, run - 1), tab);
    }
  }

  lemma SomeEob(tab: nat, run: nat)
    requires 0 < run <= 0x7FFF
    ensures SomeSym(EobTokens(tab, run), tab)
  {
    hide Log2, Pow2, Raws;
    RunLog(run);
    assert EobTokens(tab, run)[0] == Sym(tab, Log2(run) * 16);
  }

  lemma StreamStart(tab: nat, items: seq<Item>)
    requires items != []
    ensures var x := items[0];
      Stream(tab, items, 0, 0) ==
        if !x.eob then x.head + Stream(tab, items, 1, 0)
        else
          var run := RunOf(items, 1, Held(1, x.tail));
          x.head + EobTokens(tab, run) + Raws(x.tail) + Stream(tab, items, 1, run - 1)
  {
    hide EobTokens, Raws, RunOf;
  }
}
