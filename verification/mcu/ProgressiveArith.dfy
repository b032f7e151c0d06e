/** One scan of a progressive image with arithmetic coding, restart interval by restart interval. */
module ProgressiveArith {
  import opened Radix
  import opened ByteStream
  import opened Blocks
  import opened DcBits
  import opened McuGeometry
  import opened FlatMcus
  import opened NaturalOrder
  import opened PartialImage
  import opened ProgressiveScan
  import opened ScanScript
  import opened ArithTable
  import ArithBlock
  import ArithMcuDecoder
  import ArithScan
  import TwoPass
  import opened ArithProgression

  /** The conditioning and the tables of every component of the frame. */
  predicate CondsOk(conds: seq<ArithBlock.Component>) {
    forall c :: 0 <= c < |conds| ==> conds[c].dcTbl < ArithBlock.NUM_ARITH_TBLS && conds[c].acTbl < ArithBlock.NUM_ARITH_TBLS
  }

  function DcScan(order: Order, conds: seq<ArithBlock.Component>, info: Scan, s: ScanComps, memb: seq<nat>): (r: ArithBlock.Scan)
    requires CondsOk(conds) && 0 <= info.al && (forall i :: 0 <= i < |s| ==> s[i] < |conds|) && forall j :: 0 <= j < |memb| ==> memb[j] < |s|
    ensures ArithBlock.ScanOk(r) && r.membership == memb && r.se == 0 && r.al == info.al && r.order == order
  {
    ArithBlock.Scan(memb, seq(|s|, i requires 0 <= i < |s| => conds[s[i]]), 0, info.al, order)
  }

  /** The DC differences of a first DC scan must fit; nothing else can go wrong. */
  predicate SegmentFits(order: Order, conds: seq<ArithBlock.Component>, info: Scan, s: ScanComps, memb: seq<nat>, srcs: seq<seq<Block>>)
    requires CondsOk(conds) && 0 <= info.al && (forall i :: 0 <= i < |s| ==> s[i] < |conds|) && forall j :: 0 <= j < |memb| ==> memb[j] < |s|
    requires Uniform(srcs, |memb|)
  {
    info.ss == 0 && info.ah == 0 ==>
      var scan := DcScan(order, conds, info, s, memb);
      ArithScan.AllDiffsOk(scan, 0, srcs, ArithScan.FreshDcs(scan))
  }

  // ---- First DC scans ----

  lemma DcFirstSteps(order: Order, mark: seq<int>, info: Scan, scan: ArithBlock.Scan, src: Block, was: Block, got: seq<int>)
    requires MarkOk(mark) && 0 <= info.al <= 13 && info.ss == info.se == 0 && forall k :: 0 <= k < 64 ==> mark[k] < 0
    requires ArithBlock.ScanOk(scan) && scan.se == 0 && scan.al == info.al && scan.order == order
    requires got == ArithMcuDecoder.Rebuilt(scan, Zeros(), src)
    ensures MarkOk(Raised(mark, info.ss, info.se, info.al))
    ensures |got| == 64 && forall k :: 0 <= k < 64 ==> got[k] == Partial(order, Raised(mark, info.ss, info.se, info.al), src)[order[k]]
  {
    hide Partial, Part;
    var r := Raised(mark, info.ss, info.se, info.al);
    DcFirstPrepares(scan, src);
    forall k | 0 <= k < 64 ensures got[k] == Partial(order, r, src)[order[k]] {
      PartialAt(order, r, src, k);
      PartIs(k, r[k], src[order[k]]);
    }
  }

  method CodeDcFirst(tab: Aritab, order: Order, conds: seq<ArithBlock.Component>, ghost b: Marks, info: Scan, s: ScanComps, memb: seq<nat>,
      ghost precision: nat, srcs: seq<seq<Block>>, ghost olds: seq<seq<Block>>, marker: seq<byte>) returns (ok: bool, gots: seq<seq<Block>>)
    requires Segment(order, b, info, s, memb, precision, srcs, olds) && CondsOk(conds) && |conds| == |b| && IsMarker(marker)
    requires info.ss == 0 && info.ah == 0
    ensures ok == SegmentFits(order, conds, info, s, memb, srcs)
    ensures ok ==> AllStep(order, b, info, s, memb, srcs, olds, gots)
  {
    hide ArithScan.AllDiffsOk, Partial, Raised, ArithMcuDecoder.Rebuilt;
    var scan := DcScan(order, conds, info, s, memb);
    var status, got, encoded, decoded := ArithScan.ScanRoundTrip(tab, scan, srcs, marker);
    ok := status == ArithMcuDecoder.Fine;
    gots := [];
    if !ok { return; }
    ghost var wants := seq(|srcs|, i requires 0 <= i < |srcs| => seq(|memb|, j requires 0 <= j < |memb| =>
      Wanted(order, b[s[memb[j]]], info, srcs[i][j])));
    forall i | 0 <= i < |srcs| ensures SameMcu(order, got[i], wants[i]) {
      forall j | 0 <= j < |memb| ensures |got[i][j]| == 64 && forall k :: 0 <= k < 64 ==> got[i][j][k] == wants[i][j][order[k]] {
        FirstMarks(b, info, s, memb[j]);
        DcFirstSteps(order, b[s[memb[j]]], info, scan, srcs[i][j], olds[i][j], got[i][j]);
      }
    }
    gots := NaturalMcus(order, got, wants);
  }

  // ---- The other scans ----

  function PassOf(order: Order, conds: seq<ArithBlock.Component>, info: Scan, s: ScanComps): (p: Pass)
    requires CondsOk(conds) && 0 <= info.ss <= info.se < 64 && 0 <= info.al <= 13 && (forall i :: 0 <= i < |s| ==> s[i] < |conds|)
    ensures PassOk(p)
  {
    Pass(if info.ss == 0 then DcRefine else if info.ah == 0 then AcFirst else AcRefine, conds[s[0]], order, info.ss, info.se, info.al)
  }

  lemma PassPrepared(p: Pass, mark: seq<int>, info: Scan, src: Block, was: Block)
    requires PassOk(p) && MarkOk(mark) && Carries(mark, info) && p.ss == info.ss && p.se == info.se && p.al == info.al && info.al >= 0
    requires p.kind == if info.ss == 0 then DcRefine else if info.ah == 0 then AcFirst else AcRefine
    requires info.ss > 0 ==> was == Partial(p.order, mark, src)
    ensures Prepared(p, Zagged(was, p.order), src)
  {
    hide Part, Partial, Coarse;
    forall k | p.ss <= k <= p.se && p.kind != DcRefine
      ensures was[p.order[k]] == if p.kind == AcFirst then 0 else Coarse(src[p.order[k]], p.al + 1)
    {
      assert CarriesOn(mark[k], info);
      PartialAt(p.order, mark, src, k);
      PartIs(k, mark[k], src[p.order[k]]);
    }
  }

  lemma PassSteps(p: Pass, mark: seq<int>, info: Scan, src: Block, was: Block, got: seq<int>)
    requires PassOk(p) && MarkOk(mark) && Carries(mark, info) && p.ss == info.ss && p.se == info.se && p.al == info.al
    requires p.kind == if info.ss == 0 then DcRefine else if info.ah == 0 then AcFirst else AcRefine
    requires info.ss == 0 ==> info.se == 0 && info.ah > 0
    requires Advanced(p, was, src, got) && was == Partial(p.order, mark, src)
    ensures MarkOk(Raised(mark, info.ss, info.se, info.al)) && got == Partial(p.order, Raised(mark, info.ss, info.se, info.al), src)
  {
    hide Part, Partial, Coarse, WithBit, DcBit, DcCoarse;
    forall k | 0 <= k < 64
      ensures got[p.order[k]] == if info.ss <= k <= info.se then Part(k, p.al, src[p.order[k]]) else was[p.order[k]]
    {
      assert got[p.order[k]] == ArithProgression.After(p, Zagged(was, p.order), src)[k];
      PartIs(k, p.al, src[p.order[k]]);
      if p.kind == DcRefine && k == 0 {
        assert CarriesOn(mark[0], info);
        PartialAt(p.order, mark, src, 0);
        PartIs(0, mark[0], src[0]);
        BitAdded(src[0], p.al);
      }
    }
    BandRaised(p.order, mark, src, was, got, p.ss, p.se, p.al);
  }

  /** Whatever the block was, the result is one. */
  lemma PassRange(p: Pass, src: Block, was: Block, got: seq<int>)
    requires PassOk(p) && Advanced(p, was, src, got)
    ensures |got| == 64 && forall i :: 0 <= i < 64 ==> -0x8000 <= got[i] < 0x8000
  {
    hide Coarse, DcBit, Pow2;
    forall i | 0 <= i < 64 ensures -0x8000 <= got[i] < 0x8000 {
      var k := OrderOnto(p.order, i);
      assert got[i] == ArithProgression.After(p, Zagged(was, p.order), src)[k];
      ShrinkIsShr(src[i], p.al);
    }
  }

  method CodePass(tab: Aritab, order: Order, conds: seq<ArithBlock.Component>, ghost b: Marks, info: Scan, s: ScanComps, memb: seq<nat>,
      ghost precision: nat, srcs: seq<seq<Block>>, olds: seq<seq<Block>>, marker: seq<byte>) returns (gots: seq<seq<Block>>)
    requires Segment(order, b, info, s, memb, precision, srcs, olds) && CondsOk(conds) && |conds| == |b| && IsMarker(marker)
    requires info.ss != 0 || info.ah != 0
    ensures AllStep(order, b, info, s, memb, srcs, olds, gots)
  {
    hide Partial, Raised, Advanced, Prepared, Flatten, ComponentOk, CarriesOn;
    var p, n, w := PassOf(order, conds, info, s), |srcs|, |memb|;
    FlatLength(srcs, w);
    FlatLength(olds, w);
    var flat, was := Flatten(srcs), Flatten(olds);
    forall k | 0 <= k < n * w ensures Prepared(p, Zagged(was[k], order), flat[k]) {
      var i, j := Unflat(k, n, w);
      FlatAt(srcs, w, i, j);
      FlatAt(olds, w, i, j);
      CompCarries(b, info, s, memb[j], precision);
      PassPrepared(p, b[s[memb[j]]], info, srcs[i][j], olds[i][j]);
    }
    var got, encoded, decoded := PassRoundTrip(tab, p, flat, was, marker);
    forall k | 0 <= k < n * w ensures |got[k]| == 64 && forall i :: 0 <= i < 64 ==> -0x8000 <= got[k][i] < 0x8000 {
      PassRange(p, flat[k], was[k], got[k]);
    }
    var blocks: seq<Block> := got;
    gots := Regroup(blocks, n, w);
    forall i, j | 0 <= i < n && 0 <= j < w ensures Steps(order, b[s[memb[j]]], info, srcs[i][j], olds[i][j], gots[i][j]) {
      FlatAt(srcs, w, i, j);
      FlatAt(olds, w, i, j);
      ChunkAt(blocks, i, j, n, w);
      CompCarries(b, info, s, memb[j], precision);
      if olds[i][j] == Partial(order, b[s[memb[j]]], srcs[i][j]) {
        PassSteps(p, b[s[memb[j]]], info, srcs[i][j], olds[i][j], gots[i][j]);
      }
    }
  }

  /** One restart interval of any scan: it comes back exactly if its DC differences fit. */
  method CodeSegment(tab: Aritab, order: Order, conds: seq<ArithBlock.Component>, ghost b: Marks, info: Scan, s: ScanComps, memb: seq<nat>,
      ghost precision: nat, srcs: seq<seq<Block>>, olds: seq<seq<Block>>, marker: seq<byte>) returns (ok: bool, gots: seq<seq<Block>>)
    requires Segment(order, b, info, s, memb, precision, srcs, olds) && CondsOk(conds) && |conds| == |b| && IsMarker(marker)
    ensures ok == SegmentFits(order, conds, info, s, memb, srcs)
    ensures ok ==> AllStep(order, b, info, s, memb, srcs, olds, gots)
  {
    hide AllStep, IsMarker;
    if info.ss == 0 && info.ah == 0 {
      ok, gots := CodeDcFirst(tab, order, conds, b, info, s, memb, precision, srcs, olds, marker);
    } else {
      gots := CodePass(tab, order, conds, b, info, s, memb, precision, srcs, olds, marker);
      ok := true;
    }
  }

  predicate SegmentsFit(order: Order, conds: seq<ArithBlock.Component>, info: Scan, s: ScanComps, memb: seq<nat>, segments: seq<seq<seq<Block>>>)
    requires CondsOk(conds) && 0 <= info.al && (forall i :: 0 <= i < |s| ==> s[i] < |conds|) && forall j :: 0 <= j < |memb| ==> memb[j] < |s|
    requires forall k :: 0 <= k < |segments| ==> Uniform(segments[k], |memb|)
  {
    forall k :: 0 <= k < |segments| ==> SegmentFits(order, conds, info, s, memb, segments[k])
  }

  /** All restart intervals of a scan; each starts with fresh statistics. */
  method CodeScan(tab: Aritab, order: Order, conds: seq<ArithBlock.Component>, ghost b: Marks, info: Scan, s: ScanComps, memb: seq<nat>,
      ghost precision: nat, srcs: seq<seq<seq<Block>>>, olds: seq<seq<seq<Block>>>, marker: seq<byte>)
      returns (ok: bool, gots: seq<seq<seq<Block>>>)
    requires Segments(order, b, info, s, memb, precision, srcs, olds) && CondsOk(conds) && |conds| == |b| && IsMarker(marker)
    ensures ok == SegmentsFit(order, conds, info, s, memb, srcs)
    ensures ok ==> SegmentsStep(order, b, info, s, memb, srcs, olds, gots)
  {
    hide Segment, AllStep, IsMarker, SegmentFits;
    gots := [];
    for k := 0 to |srcs|
      invariant |gots| == k && forall i :: 0 <= i < k ==> AllStep(order, b, info, s, memb, srcs[i], olds[i], gots[i])
      invariant forall i :: 0 <= i < k ==> SegmentFits(order, conds, info, s, memb, srcs[i])
    {
      TwoPass.BehindIsMarker(k, |srcs|, marker);
      var got;
      ok, got := CodeSegment(tab, order, conds, b, info, s, memb, precision, srcs[k], olds[k], TwoPass.Behind(k, |srcs|, marker));
      if !ok { return; }
      gots := gots + [got];
    }
    ok := true;
  }
}
