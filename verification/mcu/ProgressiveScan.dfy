/** One scan of a progressive file, seen from the blocks: what the entropy decoder makes of the
    blocks that it finds in the full-image arrays, and what that means for the image. */
module ProgressiveScan {
  import opened Radix
  import opened Blocks
  import opened DcBits
  import opened FlatMcus
  import opened McuGeometry
  import opened McuEncoder
  import opened McuController
  import opened McuDecoder
  import opened PartialImage
  import opened ScanScript

  /** The components of a scan. */
  function CompsOf(info: Scan, n: nat): (s: ScanComps)
    requires CompsOk(info, n)
    ensures |s| == info.compsInScan && forall i :: 0 <= i < |s| ==> s[i] == info.componentIndex[i] < n
  {
    seq(info.compsInScan, i requires 0 <= i < info.compsInScan => info.componentIndex[i])
  }

  lemma {:induction false} CompsAscend(info: Scan, n: nat, i: nat, j: nat)
    requires CompsOk(info, n) && i < j < info.compsInScan
    ensures info.componentIndex[i] < info.componentIndex[j]
    decreases j
  {
    if i < j - 1 { CompsAscend(info, n, i, j - 1); }
  }

  lemma CompsDistinct(info: Scan, n: nat)
    requires CompsOk(info, n)
    ensures var s := CompsOf(info, n); forall i, j :: 0 <= i < j < |s| ==> s[i] != s[j]
    ensures forall c :: 0 <= c < n ==> (InScan(info, c) <==> c in CompsOf(info, n))
  {
    var s := CompsOf(info, n);
    forall i, j | 0 <= i < j < |s| ensures s[i] != s[j] { CompsAscend(info, n, i, j); }
    forall c | 0 <= c < n ensures InScan(info, c) <==> c in s {
      if InScan(info, c) {
        var ci :| 0 <= ci < info.compsInScan && ci < MAX_COMPS_IN_SCAN && info.componentIndex[ci] == c;
        assert s[ci] == c;
      }
    }
  }

  // ---- Blocks ----

  /** If the block was known down to the marks of its component, it is known to those after the scan. */
  ghost predicate Steps(order: Order, mark: seq<int>, info: Scan, src: Block, was: Block, got: Block)
    requires MarkOk(mark) && 0 <= info.al <= 13
  {
    was == Partial(order, mark, src) ==> got == Partial(order, Raised(mark, info.ss, info.se, info.al), src)
  }

  lemma RaisedOk(mark: seq<int>, info: Scan)
    requires MarkOk(mark) && 0 <= info.al <= 13
    ensures MarkOk(Raised(mark, info.ss, info.se, info.al))
  {
  }

  ghost predicate McuSteps(order: Order, b: Marks, info: Scan, s: ScanComps, memb: seq<nat>, src: seq<Block>, was: seq<Block>, got: seq<Block>)
    requires MarksOk(b) && 0 <= info.al <= 13
  {
    && |src| == |was| == |got| == |memb|
    && forall j :: 0 <= j < |memb| ==> memb[j] < |s| && s[memb[j]] < |b| && Steps(order, b[s[memb[j]]], info, src[j], was[j], got[j])
  }

  ghost predicate AllStep(order: Order, b: Marks, info: Scan, s: ScanComps, memb: seq<nat>, srcs: seq<seq<Block>>, olds: seq<seq<Block>>,
      gots: seq<seq<Block>>)
    requires MarksOk(b) && 0 <= info.al <= 13
  {
    && |srcs| == |olds| == |gots|
    && forall i :: 0 <= i < |srcs| ==> McuSteps(order, b, info, s, memb, srcs[i], olds[i], gots[i])
  }

  // ---- The image ----

  lemma {:induction false} MemberAt(f: Frame, s: ScanComps, n: nat, ci: nat, i: nat)
    requires ScanOk(f, s) && ci < n <= |s| && BlocksInMcu(f, s, ci) <= i < BlocksInMcu(f, s, ci + 1)
    ensures i < |Membership(f, s, n)| && Membership(f, s, n)[i] == ci
  {
    BlocksGrow(f, s, ci + 1, n);
    if ci < n - 1 {
      BlocksGrow(f, s, ci + 1, n - 1);
      MemberAt(f, s, n - 1, ci, i);
    }
  }

  lemma IndexMember(f: Frame, s: ScanComps, t: Spot, yindex: nat, x: nat)
    requires SpotOk(f, s, t) && yindex < McuHeight(f, s, t.ci) && x < McuWidth(f, s, t.ci)
    ensures Index(f, s, t, yindex, x) < |Membership(f, s, |s|)| && Membership(f, s, |s|)[Index(f, s, t, yindex, x)] == t.ci
  {
    var w, h := McuWidth(f, s, t.ci), McuHeight(f, s, t.ci);
    assert BlocksInMcu(f, s, t.ci + 1) == BlocksInMcu(f, s, t.ci) + h * w;
    hide Membership, McuRows, TotalIMcuRows, BlocksInMcu, McuWidth, McuHeight, FrameOk;
    RowWithin(yindex, h, w);
    MemberAt(f, s, |s|, t.ci, Index(f, s, t, yindex, x));
  }

  /** One real block. */
  lemma RealNext(f: Frame, order: Order, image: seq<Plane>, b: Marks, info: Scan, c: nat, row: nat, col: nat, src: Block, was: Block, got: Block)
    requires ImageOk(f, image) && MarksOk(b) && MarksOk(Marked(b, info)) && |b| == |f.comps| && 0 <= info.al <= 13
    requires c < |f.comps| && InScan(info, c) && row < f.comps[c].height && col < f.comps[c].width
    requires ImageOk(f, PartialOf(order, b, image)) && ImageOk(f, PartialOf(order, Marked(b, info), image))
    requires src == image[c][row][col] && was == PartialOf(order, b, image)[c][row][col] && Steps(order, b[c], info, src, was, got)
    ensures got == PartialOf(order, Marked(b, info), image)[c][row][col]
  {
    hide Partial, Raised, Marked;
    MarkedRows(b, info, c);
  }

  lemma BlockNext(f: Frame, order: Order, image: seq<Plane>, b: Marks, info: Scan, s: ScanComps, t: Spot, yindex: nat, x: nat,
      src: seq<Block>, was: seq<Block>, got: seq<Block>)
    requires SpotOk(f, s, t) && ImageOk(f, image) && MarksOk(b) && |b| == |f.comps| && 0 <= info.al <= 13
    requires MarksOk(Marked(b, info)) && InScan(info, s[t.ci])
    requires ImageOk(f, PartialOf(order, b, image)) && ImageOk(f, PartialOf(order, Marked(b, info), image))
    requires yindex < McuHeight(f, s, t.ci) && x < McuWidth(f, s, t.ci)
    requires src == Mcu(f, s, image, t.r, t.y, t.col) && ShowsMcu(f, s, PartialOf(order, b, image), t.r, t.y, t.col, was)
    requires McuSteps(order, b, info, s, Membership(f, s, |s|), src, was, got)
    ensures Index(f, s, t, yindex, x) < |got|
    ensures RealIs(f, s, PartialOf(order, Marked(b, info), image), t, yindex, x, got[Index(f, s, t, yindex, x)])
  {
    hide Partial, PartialOf, PartialPlane, Mcu, McuRows, TotalIMcuRows, FrameOk, BlocksInMcu, Index, ShowsMcu, Membership,
      Raised, Marked, MarkOk, Padded, Steps, BaseRow, BaseCol, BlockAt, McuWidth, McuHeight;
    var i := Index(f, s, t, yindex, x);
    var row, col := BaseRow(f, s, t) + yindex, BaseCol(f, s, t) + x;
    IndexMember(f, s, t, yindex, x);
    TakeBlock(f, s, PartialOf(order, b, image), t, was, yindex, x);
    McuAt(f, s, image, t, yindex, x);
    RealBlock(f, s, image, t, yindex, x);
    if row < f.comps[s[t.ci]].height && col < f.comps[s[t.ci]].width {
      assert src[i] == image[s[t.ci]][row][col];
      RealNext(f, order, image, b, info, s[t.ci], row, col, src[i], was[i], got[i]);
    }
  }

  lemma McuNext(f: Frame, order: Order, image: seq<Plane>, b: Marks, info: Scan, s: ScanComps, r: nat, y: nat, col: nat,
      src: seq<Block>, was: seq<Block>, got: seq<Block>)
    requires SpotOk(f, s, Spot(0, r, y, col)) && ImageOk(f, image) && MarksOk(b) && |b| == |f.comps| && 0 <= info.al <= 13
    requires MarksOk(Marked(b, info)) && forall ci :: 0 <= ci < |s| ==> InScan(info, s[ci])
    requires ImageOk(f, PartialOf(order, b, image)) && ImageOk(f, PartialOf(order, Marked(b, info), image))
    requires src == Mcu(f, s, image, r, y, col) && ShowsMcu(f, s, PartialOf(order, b, image), r, y, col, was)
    requires McuSteps(order, b, info, s, Membership(f, s, |s|), src, was, got)
    ensures ShowsMcu(f, s, PartialOf(order, Marked(b, info), image), r, y, col, got)
  {
    var after := PartialOf(order, Marked(b, info), image);
    hide PartialOf, Mcu, McuRows, TotalIMcuRows, FrameOk, ImageOk, BlocksInMcu, Index, McuSteps, Membership, Marked,
      MarksOk, RealIs, InScan, McuWidth, McuHeight;
    forall ci, yindex, x | 0 <= ci < |s| && 0 <= yindex < McuHeight(f, s, ci) && 0 <= x < McuWidth(f, s, ci)
      ensures Index(f, s, Spot(ci, r, y, col), yindex, x) < |got|
      ensures RealIs(f, s, after, Spot(ci, r, y, col), yindex, x, got[Index(f, s, Spot(ci, r, y, col), yindex, x)])
    {
      BlockNext(f, order, image, b, info, s, Spot(ci, r, y, col), yindex, x, src, was, got);
    }
    StepsLength(order, b, info, s, Membership(f, s, |s|), src, was, got);
  }

  lemma StepsLength(order: Order, b: Marks, info: Scan, s: ScanComps, memb: seq<nat>, src: seq<Block>, was: seq<Block>, got: seq<Block>)
    requires MarksOk(b) && 0 <= info.al <= 13 && McuSteps(order, b, info, s, memb, src, was, got)
    ensures |got| == |memb|
  {
  }

  /** If the arrays held what was known before a scan, the decoded MCUs show what is known after it. */
  lemma ShowsNext(f: Frame, order: Order, image: seq<Plane>, b: Marks, info: Scan, s: ScanComps,
      srcs: seq<seq<Block>>, olds: seq<seq<Block>>, gots: seq<seq<Block>>)
    requires ScanOk(f, s) && ImageOk(f, image) && MarksOk(b) && |b| == |f.comps| && 0 <= info.al <= 13
    requires MarksOk(Marked(b, info)) && forall ci :: 0 <= ci < |s| ==> InScan(info, s[ci])
    requires ImageOk(f, PartialOf(order, b, image)) && ImageOk(f, PartialOf(order, Marked(b, info), image))
    requires srcs == AllMcus(f, s, image) && Shows(f, s, PartialOf(order, b, image), olds)
    requires AllStep(order, b, info, s, Membership(f, s, |s|), srcs, olds, gots)
    ensures Shows(f, s, PartialOf(order, Marked(b, info), image), gots)
  {
    var after := PartialOf(order, Marked(b, info), image);
    hide PartialOf, Mcu, McuRows, TotalIMcuRows, FrameOk, ImageOk, BlocksInMcu, McuSteps, Membership, Marked, MarksOk,
      ShowsMcu, InScan, AllSpots, AllMcus;
    McusAreSpots(f, s, image);
    forall i | 0 <= i < |gots|
      ensures SpotOk(f, s, AllSpots(f, s)[i])
      ensures ShowsMcu(f, s, after, AllSpots(f, s)[i].r, AllSpots(f, s)[i].y, AllSpots(f, s)[i].col, gots[i])
    {
      var t := AllSpots(f, s)[i];
      assert IsMcuOf(f, s, image, t, srcs[i]);
      assert t == Spot(0, t.r, t.y, t.col);
      McuNext(f, order, image, b, info, s, t.r, t.y, t.col, srcs[i], olds[i], gots[i]);
    }
  }

  // ---- Restart intervals ----

  /** A restart interval: what the encoder sends, and what the decoder has in the same places.  The
      decoder must know the blocks of an AC scan; there are no dummies among them. */
  ghost predicate Segment(order: Order, b: Marks, info: Scan, s: ScanComps, memb: seq<nat>, precision: nat, srcs: seq<seq<Block>>, olds: seq<seq<Block>>) {
    && MarksOk(b) && ProgressiveOk(b, info, precision) && s == CompsOf(info, |b|) && DcLeads(b)
    && (forall j :: 0 <= j < |memb| ==> memb[j] < |s|)
    && |srcs| == |olds| && Uniform(srcs, |memb|) && Uniform(olds, |memb|)
    && (info.ss > 0 ==> forall i, j :: 0 <= i < |srcs| && 0 <= j < |memb| ==> olds[i][j] == Partial(order, b[s[0]], srcs[i][j]))
  }

  /** Where nothing is known of the DC coefficient, nothing is known at all. */
  predicate DcLeads(b: Marks) {
    forall c, k :: 0 <= c < |b| && 0 <= k < 64 && b[c][0] < 0 ==> b[c][k] < 0
  }

  ghost predicate Segments(order: Order, b: Marks, info: Scan, s: ScanComps, memb: seq<nat>, precision: nat, srcs: seq<seq<seq<Block>>>,
      olds: seq<seq<seq<Block>>>)
  {
    && MarksOk(b) && ProgressiveOk(b, info, precision) && s == CompsOf(info, |b|) && (forall j :: 0 <= j < |memb| ==> memb[j] < |s|)
    && |srcs| == |olds|
    && forall k :: 0 <= k < |srcs| ==> Uniform(srcs[k], |memb|) && Segment(order, b, info, s, memb, precision, srcs[k], olds[k])
  }

  ghost predicate SegmentsStep(order: Order, b: Marks, info: Scan, s: ScanComps, memb: seq<nat>, srcs: seq<seq<seq<Block>>>,
      olds: seq<seq<seq<Block>>>, gots: seq<seq<seq<Block>>>)
    requires MarksOk(b) && 0 <= info.al <= 13
  {
    && |srcs| == |olds| == |gots|
    && forall k :: 0 <= k < |srcs| ==> AllStep(order, b, info, s, memb, srcs[k], olds[k], gots[k])
  }

  lemma PartIs(k: nat, mark: int, v: int)
    ensures PartialImage.Part(k, mark, v) == if mark < 0 then 0 else if k == 0 then DcCoarse(v, mark) else Coarse(v, mark)
  {
  }

  ghost function Wanted(order: Order, mark: seq<int>, info: Scan, src: Block): Block
    requires MarkOk(mark) && 0 <= info.al <= 13
  {
    RaisedOk(mark, info);
    Partial(order, Raised(mark, info.ss, info.se, info.al), src)
  }

  lemma FirstMarks(b: Marks, info: Scan, s: ScanComps, ci: nat)
    requires MarksOk(b) && (exists p: nat :: ProgressiveOk(b, info, p)) && s == CompsOf(info, |b|) && DcLeads(b) && ci < |s|
    requires info.ss == 0 && info.ah == 0
    ensures forall k :: 0 <= k < 64 ==> b[s[ci]][k] < 0
  {
    var p: nat :| ProgressiveOk(b, info, p);
    assert ComponentOk(b, info, info.componentIndex[ci]);
    assert CarriesOn(b[s[ci]][0], info);
  }

  /** The scan carries on with a block whose marks are these. */
  predicate Carries(mark: seq<int>, info: Scan) {
    |mark| == 64 && 0 <= info.ss && info.se < 64 && forall k :: info.ss <= k <= info.se ==> CarriesOn(mark[k], info)
  }

  lemma CompCarries(b: Marks, info: Scan, s: ScanComps, ci: nat, precision: nat)
    requires ProgressiveOk(b, info, precision) && s == CompsOf(info, |b|) && ci < |s|
    ensures Carries(b[s[ci]], info)
  {
    hide CarriesOn;
    assert ComponentOk(b, info, info.componentIndex[ci]);
  }
}
