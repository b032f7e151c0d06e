/** One scan of a progressive image with Huffman coding.  The tables are made from the counts of
    all restart intervals. */
module ProgressiveHuff {
  import opened Radix
  import opened ByteStream
  import opened Blocks
  import opened DcBits
  import opened McuGeometry
  import opened FlatMcus
  import opened NaturalOrder
  import opened PartialImage
  import opened ProgressiveScan
  import opened ScanScript
  import DcRefine
  import HuffBlock
  import HuffMcuDecoder
  import HuffScan
  import OptimizedBand
  import Progression
  import SymbolUse
  import TwoPass

  const NUM_HUFF_TBLS := 4
  /** DC tables come first, then AC tables. */
  const TABLES := 8

  /** The table numbers of every component of the frame. */
  datatype Tables = Tables(dc: seq<nat>, ac: seq<nat>)

  predicate TablesOk(t: Tables, n: nat) {
    |t.dc| == |t.ac| == n && forall c :: 0 <= c < n ==> t.dc[c] < NUM_HUFF_TBLS && t.ac[c] < NUM_HUFF_TBLS
  }

  predicate ScanFor(t: Tables, n: nat, info: Scan, s: ScanComps, memb: seq<nat>, segments: seq<seq<seq<Block>>>) {
    && TablesOk(t, n) && 0 <= info.ss <= info.se < 64 && 0 <= info.al <= 13
    && (forall i :: 0 <= i < |s| ==> s[i] < n) && (forall j :: 0 <= j < |memb| ==> memb[j] < |s|)
    && (info.ss > 0 ==> |memb| == 1) && forall k :: 0 <= k < |segments| ==> Uniform(segments[k], |memb|)
  }

  function DcScan(t: Tables, n: nat, order: Order, info: Scan, s: ScanComps, memb: seq<nat>, segments: seq<seq<seq<Block>>>): (r: HuffBlock.Scan)
    requires ScanFor(t, n, info, s, memb, segments)
    ensures HuffBlock.ScanOk(r, TABLES) && HuffScan.SegmentsOk(r, segments)
    ensures r.membership == memb && r.se == 0 && r.al == info.al && r.order == order && |r.dcTab| == |s|
  {
    HuffBlock.Scan(memb, seq(|s|, i requires 0 <= i < |s| => t.dc[s[i]]), seq(|s|, i requires 0 <= i < |s| => NUM_HUFF_TBLS + t.ac[s[i]]),
      0, info.al, order)
  }

  function BandFor(order: Order, info: Scan): (r: OptimizedBand.Band)
    requires 1 <= info.ss <= info.se < 64 && 0 <= info.al <= 13
    ensures OptimizedBand.BandOk(r)
  {
    OptimizedBand.Band(info.ah > 0, order, info.ss, info.se, info.al)
  }

  function Flats(segments: seq<seq<seq<Block>>>): (r: seq<seq<Block>>)
    ensures |r| == |segments| && forall k :: 0 <= k < |segments| ==> r[k] == Flatten(segments[k])
  {
    seq(|segments|, k requires 0 <= k < |segments| => Flatten(segments[k]))
  }

  /** The totals that the search for the least count allows. */
  predicate Countable(t: Tables, n: nat, order: Order, info: Scan, s: ScanComps, memb: seq<nat>, segments: seq<seq<seq<Block>>>)
    requires ScanFor(t, n, info, s, memb, segments)
  {
    if info.ss > 0 then SymbolUse.Countable(OptimizedBand.BandUses(BandFor(order, info), Flats(segments)))
    else info.ah == 0 ==> TwoPass.AllCountable(DcScan(t, n, order, info, s, memb, segments), TABLES, segments)
  }

  /** No coefficient of a first scan is out of range, and no code gets too long. */
  predicate Codable(t: Tables, n: nat, order: Order, info: Scan, s: ScanComps, memb: seq<nat>, segments: seq<seq<seq<Block>>>)
    requires ScanFor(t, n, info, s, memb, segments)
  {
    if info.ss > 0 then
      var band, blocks := BandFor(order, info), Flats(segments);
      OptimizedBand.BandInRange(band, blocks, |blocks|) && SymbolUse.Accepted(OptimizedBand.BandUses(band, blocks))
    else
      info.ah == 0 ==>
        var scan := DcScan(t, n, order, info, s, memb, segments);
        HuffScan.SegmentsInRange(scan, TABLES, segments, |segments|) && TwoPass.AllAccepted(scan, TABLES, segments)
  }

  // ---- First DC scans ----

  lemma DcFirstSteps(order: Order, mark: seq<int>, info: Scan, scan: HuffBlock.Scan, src: Block, got: seq<int>)
    requires MarkOk(mark) && 0 <= info.al <= 13 && info.ss == info.se == 0 && forall k :: 0 <= k < 64 ==> mark[k] < 0
    requires scan.se == 0 && scan.al == info.al && scan.order == order
    requires HuffMcuDecoder.Got(got, scan, src, Zeros(), 1)
    ensures MarkOk(Raised(mark, info.ss, info.se, info.al))
    ensures |got| == 64 && forall k :: 0 <= k < 64 ==> got[k] == Partial(order, Raised(mark, info.ss, info.se, info.al), src)[order[k]]
  {
    hide Partial, Part;
    var r := Raised(mark, info.ss, info.se, info.al);
    FirstIs(scan, src, got);
    forall k | 0 <= k < 64 ensures got[k] == Partial(order, r, src)[order[k]] {
      PartialAt(order, r, src, k);
      PartIs(k, r[k], src[order[k]]);
    }
  }

  lemma FirstIs(scan: HuffBlock.Scan, src: Block, got: seq<int>)
    requires scan.se == 0 && scan.al <= 13 && HuffMcuDecoder.Got(got, scan, src, Zeros(), 1)
    ensures got == Zeros()[0 := DcCoarse(src[0], scan.al)]
  {
    hide Pow2;
    DcRange(src[0], scan.al);
  }

  method CodeDcFirst(t: Tables, n: nat, order: Order, ghost b: Marks, info: Scan, s: ScanComps, memb: seq<nat>, ghost precision: nat,
      srcs: seq<seq<seq<Block>>>, ghost olds: seq<seq<seq<Block>>>, marker: seq<byte>) returns (ok: bool, gots: seq<seq<seq<Block>>>)
    requires Segments(order, b, info, s, memb, precision, srcs, olds) && n == |b| && ScanFor(t, n, info, s, memb, srcs) && IsMarker(marker)
    requires info.ss == 0 && info.ah == 0 && DcLeads(b)
    requires (forall c :: 0 <= c < |s| ==> c in memb) && (exists k :: 0 <= k < |srcs| && srcs[k] != [])
    requires Countable(t, n, order, info, s, memb, srcs)
    ensures ok == Codable(t, n, order, info, s, memb, srcs)
    ensures ok ==> SegmentsStep(order, b, info, s, memb, srcs, olds, gots)
  {
    hide TwoPass.AllCountable, TwoPass.AllAccepted, HuffScan.SegmentsInRange, Partial, Raised, HuffMcuDecoder.Got;
    var scan := DcScan(t, n, order, info, s, memb, srcs);
    var limits := seq(|memb|, _ => 1);
    var got;
    ok, got := TwoPass.OptimizedRoundTrip(scan, TABLES, true, limits, srcs, marker, seq(|s|, _ => true));
    gots := [];
    if !ok { return; }
    for k := 0 to |srcs|
      invariant |gots| == k && forall i :: 0 <= i < k ==> AllStep(order, b, info, s, memb, srcs[i], olds[i], gots[i])
    {
      var seg := FirstSegment(order, b, info, s, memb, precision, scan, limits, got[k], srcs[k], olds[k]);
      gots := gots + [seg];
    }
  }

  method FirstSegment(order: Order, ghost b: Marks, info: Scan, s: ScanComps, memb: seq<nat>, ghost precision: nat, ghost scan: HuffBlock.Scan,
      ghost limits: seq<nat>, got: seq<seq<seq<int>>>, ghost srcs: seq<seq<Block>>, ghost olds: seq<seq<Block>>) returns (gots: seq<seq<Block>>)
    requires Segment(order, b, info, s, memb, precision, srcs, olds) && info.ss == 0 && info.ah == 0
    requires scan.se == 0 && scan.al == info.al && scan.order == order && limits == seq(|memb|, _ => 1)
    requires TwoPass.SegmentGot(scan, limits, got, srcs)
    ensures AllStep(order, b, info, s, memb, srcs, olds, gots)
  {
    hide Partial, Raised, HuffMcuDecoder.Got;
    ghost var wants := seq(|srcs|, i requires 0 <= i < |srcs| => seq(|memb|, j requires 0 <= j < |memb| =>
      Wanted(order, b[s[memb[j]]], info, srcs[i][j])));
    forall i | 0 <= i < |srcs| ensures SameMcu(order, got[i], wants[i]) {
      assert HuffScan.McuGot(scan, limits, got[i], srcs[i]);
      forall j | 0 <= j < |memb| ensures |got[i][j]| == 64 && forall k :: 0 <= k < 64 ==> got[i][j][k] == wants[i][j][order[k]] {
        FirstMarks(b, info, s, memb[j]);
        DcFirstSteps(order, b[s[memb[j]]], info, scan, srcs[i][j], got[i][j]);
      }
    }
    gots := NaturalMcus(order, got, wants);
  }

  // ---- AC scans ----

  lemma BandReady(order: Order, mark: seq<int>, info: Scan, src: Block, was: Block)
    requires MarkOk(mark) && Carries(mark, info) && 1 <= info.ss <= info.se < 64 && 0 <= info.al <= 13
    requires was == Partial(order, mark, src)
    ensures OptimizedBand.Ready(BandFor(order, info), src, was)
  {
    hide Part, Partial, Coarse;
    forall k | 0 <= k < 64 && info.ss <= k <= info.se
      ensures was[order[k]] == if info.ah > 0 then Coarse(src[order[k]], info.al + 1) else 0
    {
      assert CarriesOn(mark[k], info);
      PartialAt(order, mark, src, k);
      PartIs(k, mark[k], src[order[k]]);
    }
  }

  lemma BandSteps(order: Order, mark: seq<int>, info: Scan, src: Block, was: Block, got: Block)
    requires MarkOk(mark) && 1 <= info.ss <= info.se < 64 && 0 <= info.al <= 13
    requires Progression.Moved(order, info.ss, info.se, info.al, src, was, got)
    ensures Steps(order, mark, info, src, was, got)
  {
    hide Part, Partial, Coarse;
    forall k | 0 <= k < 64 ensures got[order[k]] == if info.ss <= k <= info.se then Part(k, info.al, src[order[k]]) else was[order[k]] {
      PartIs(k, info.al, src[order[k]]);
    }
    if was == Partial(order, mark, src) { BandRaised(order, mark, src, was, got, info.ss, info.se, info.al); }
  }

  lemma SegmentReady(order: Order, b: Marks, info: Scan, s: ScanComps, memb: seq<nat>, precision: nat, srcs: seq<seq<Block>>, olds: seq<seq<Block>>)
    requires Segment(order, b, info, s, memb, precision, srcs, olds) && 1 <= info.ss <= info.se < 64 && 0 <= info.al <= 13
    ensures OptimizedBand.AllReady(BandFor(order, info), Flatten(srcs), Flatten(olds))
  {
    hide Partial, OptimizedBand.Ready, Carries, Flatten;
    var n, w := |srcs|, |memb|;
    FlatLength(srcs, w);
    FlatLength(olds, w);
    forall k | 0 <= k < n * w ensures OptimizedBand.Ready(BandFor(order, info), Flatten(srcs)[k], Flatten(olds)[k]) {
      var i, j := Unflat(k, n, w);
      FlatAt(srcs, w, i, j);
      FlatAt(olds, w, i, j);
      CompCarries(b, info, s, 0, precision);
      BandReady(order, b[s[0]], info, srcs[i][j], olds[i][j]);
    }
  }

  /** The blocks of an interval, moved on one by one, are MCUs moved on. */
  method BandSegment(order: Order, ghost b: Marks, info: Scan, ghost s: ScanComps, memb: seq<nat>, ghost precision: nat,
      srcs: seq<seq<Block>>, ghost olds: seq<seq<Block>>, got: seq<Block>) returns (gots: seq<seq<Block>>)
    requires Segment(order, b, info, s, memb, precision, srcs, olds) && 1 <= info.ss <= info.se < 64 && 0 <= info.al <= 13
    requires OptimizedBand.AllMoved(BandFor(order, info), Flatten(srcs), Flatten(olds), got)
    ensures AllStep(order, b, info, s, memb, srcs, olds, gots)
  {
    hide Partial, Steps, Progression.Moved, Flatten;
    var n, w := |srcs|, |memb|;
    FlatLength(srcs, w);
    FlatLength(olds, w);
    gots := Regroup(got, n, w);
    forall i, j | 0 <= i < n && 0 <= j < w ensures Steps(order, b[s[memb[j]]], info, srcs[i][j], olds[i][j], gots[i][j]) {
      FlatAt(srcs, w, i, j);
      FlatAt(olds, w, i, j);
      ChunkAt(got, i, j, n, w);
      BandSteps(order, b[s[memb[j]]], info, srcs[i][j], olds[i][j], gots[i][j]);
    }
  }

  method CodeBand(t: Tables, n: nat, order: Order, ghost b: Marks, info: Scan, s: ScanComps, memb: seq<nat>, ghost precision: nat,
      srcs: seq<seq<seq<Block>>>, olds: seq<seq<seq<Block>>>, marker: seq<byte>) returns (ok: bool, gots: seq<seq<seq<Block>>>)
    requires Segments(order, b, info, s, memb, precision, srcs, olds) && n == |b| && ScanFor(t, n, info, s, memb, srcs) && IsMarker(marker)
    requires info.ss > 0 && (exists k :: 0 <= k < |srcs| && srcs[k] != [])
    requires Countable(t, n, order, info, s, memb, srcs)
    ensures ok == Codable(t, n, order, info, s, memb, srcs)
    ensures ok ==> SegmentsStep(order, b, info, s, memb, srcs, olds, gots)
  {
    hide SymbolUse.Countable, SymbolUse.Accepted, OptimizedBand.BandInRange, OptimizedBand.BandUses,
      OptimizedBand.AllReady, OptimizedBand.AllMoved;
    hide Segment, AllStep, Flatten, IsMarker;
    var band, flats, was := BandFor(order, info), Flats(srcs), Flats(olds);
    SomeFlat(srcs, |memb|);
    forall k | 0 <= k < |srcs| ensures OptimizedBand.AllReady(band, flats[k], was[k]) {
      SegmentReady(order, b, info, s, memb, precision, srcs[k], olds[k]);
    }
    var got;
    ok, got := OptimizedBand.OptimizedScan(band, flats, was, marker);
    gots := [];
    if !ok { return; }
    for k := 0 to |srcs|
      invariant |gots| == k && forall i :: 0 <= i < k ==> AllStep(order, b, info, s, memb, srcs[i], olds[i], gots[i])
    {
      var seg := BandSegment(order, b, info, s, memb, precision, srcs[k], olds[k], got[k]);
      gots := gots + [seg];
    }
  }

  lemma SomeFlat(srcs: seq<seq<seq<Block>>>, w: nat)
    requires w == 1 && (forall k :: 0 <= k < |srcs| ==> Uniform(srcs[k], w)) && (exists k :: 0 <= k < |srcs| && srcs[k] != [])
    ensures OptimizedBand.SomeBlock(Flats(srcs))
  {
    var k :| 0 <= k < |srcs| && srcs[k] != [];
    FlatLength(srcs[k], w);
    assert Flats(srcs)[k] != [];
  }

  // ---- DC refinement scans ----

  lemma BitSteps(order: Order, mark: seq<int>, info: Scan, src: Block, was: Block, got: Block)
    requires MarkOk(mark) && Carries(mark, info) && info.ss == info.se == 0 && info.ah > 0 && 0 <= info.al <= 13
    requires got == was[0 := WithBit(was[0], DcBit(src[0], info.al), info.al)]
    ensures Steps(order, mark, info, src, was, got)
  {
    hide Part, Partial, WithBit, DcBit, DcCoarse, Coarse;
    if was == Partial(order, mark, src) {
      assert CarriesOn(mark[0], info);
      PartialAt(order, mark, src, 0);
      PartIs(0, mark[0], src[0]);
      PartIs(0, info.al, src[0]);
      BitAdded(src[0], info.al);
      forall k | 0 <= k < 64 ensures got[order[k]] == if info.ss <= k <= info.se then Part(k, info.al, src[order[k]]) else was[order[k]] {
        assert k > 0 ==> order[k] != order[0];
      }
      BandRaised(order, mark, src, was, got, 0, 0, info.al);
    }
  }

  method RefineSegment(order: Order, ghost b: Marks, info: Scan, ghost s: ScanComps, memb: seq<nat>, ghost precision: nat,
      srcs: seq<seq<Block>>, olds: seq<seq<Block>>, marker: seq<byte>) returns (gots: seq<seq<Block>>)
    requires Segment(order, b, info, s, memb, precision, srcs, olds) && info.ss == 0 && info.ah > 0 && IsMarker(marker)
    ensures AllStep(order, b, info, s, memb, srcs, olds, gots)
  {
    hide Partial, Steps, Flatten, WithBit, DcBit, Carries, ComponentOk;
    var n, w := |srcs|, |memb|;
    FlatLength(srcs, w);
    FlatLength(olds, w);
    var flat, was := Flatten(srcs), Flatten(olds);
    var got := DcRefine.DcRefineRoundTrip(info.al, flat, was, marker);
    gots := Regroup(got, n, w);
    forall i, j | 0 <= i < n && 0 <= j < w ensures Steps(order, b[s[memb[j]]], info, srcs[i][j], olds[i][j], gots[i][j]) {
      FlatAt(srcs, w, i, j);
      FlatAt(olds, w, i, j);
      ChunkAt(got, i, j, n, w);
      CompCarries(b, info, s, memb[j], precision);
      BitSteps(order, b[s[memb[j]]], info, srcs[i][j], olds[i][j], gots[i][j]);
    }
  }

  /** All restart intervals of any scan: they come back exactly if no coefficient of a first scan
      is out of range and no code gets too long. */
  method CodeScan(t: Tables, n: nat, order: Order, ghost b: Marks, info: Scan, s: ScanComps, memb: seq<nat>, ghost precision: nat,
      srcs: seq<seq<seq<Block>>>, olds: seq<seq<seq<Block>>>, marker: seq<byte>) returns (ok: bool, gots: seq<seq<seq<Block>>>)
    requires Segments(order, b, info, s, memb, precision, srcs, olds) && n == |b| && ScanFor(t, n, info, s, memb, srcs) && IsMarker(marker)
    requires DcLeads(b) && (forall c :: 0 <= c < |s| ==> c in memb) && (exists k :: 0 <= k < |srcs| && srcs[k] != [])
    requires Countable(t, n, order, info, s, memb, srcs)
    ensures ok == Codable(t, n, order, info, s, memb, srcs)
    ensures ok ==> SegmentsStep(order, b, info, s, memb, srcs, olds, gots)
  {
    if info.ss > 0 {
      ok, gots := CodeBand(t, n, order, b, info, s, memb, precision, srcs, olds, marker);
    } else if info.ah == 0 {
      ok, gots := CodeDcFirst(t, n, order, b, info, s, memb, precision, srcs, olds, marker);
    } else {
      ok := true;
      gots := AllRefined(order, b, info, s, memb, precision, srcs, olds, marker);
    }
  }

  method AllRefined(order: Order, ghost b: Marks, info: Scan, ghost s: ScanComps, memb: seq<nat>, ghost precision: nat,
      srcs: seq<seq<seq<Block>>>, olds: seq<seq<seq<Block>>>, marker: seq<byte>) returns (gots: seq<seq<seq<Block>>>)
    requires Segments(order, b, info, s, memb, precision, srcs, olds) && info.ss == 0 && info.ah > 0 && IsMarker(marker)
    ensures SegmentsStep(order, b, info, s, memb, srcs, olds, gots)
  {
    hide Segment, AllStep, IsMarker;
    gots := [];
    for k := 0 to |srcs|
      invariant |gots| == k && forall i :: 0 <= i < k ==> AllStep(order, b, info, s, memb, srcs[i], olds[i], gots[i])
    {
      TwoPass.BehindIsMarker(k, |srcs|, marker);
      var seg := RefineSegment(order, b, info, s, memb, precision, srcs[k], olds[k], TwoPass.Behind(k, |srcs|, marker));
      gots := gots + [seg];
    }
  }
}
