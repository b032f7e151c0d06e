/** Progressive images: all scans of a script, through MCU assembly, entropy coding with restarts,
    decoding into the full-image arrays, and suspension on both sides. */
module ProgressiveImage {
  import opened Radix
  import opened ByteStream
  import opened Blocks
  import opened FlatMcus
  import opened McuGeometry
  import McuEncoder
  import opened McuController
  import McuDecoder
  import opened RestartIntervals
  import opened PartialImage
  import opened ProgressiveScan
  import opened ScanScript
  import ImageRoundTrip
  import ArithBlock
  import ArithTable
  import ProgressiveArith
  import ProgressiveHuff

  datatype Coder = Arithmetic(tab: ArithTable.Aritab, conds: seq<ArithBlock.Component>) | Huffman(tables: ProgressiveHuff.Tables)

  predicate CoderOk(coder: Coder, n: nat) {
    match coder
    case Arithmetic(_, conds) => ProgressiveArith.CondsOk(conds) && |conds| == n
    case Huffman(tables) => ProgressiveHuff.TablesOk(tables, n)
  }

  predicate Valid(info: Scan, n: nat, precision: nat) { CompsOk(info, n) && BandOk(info, precision) }

  /** What the MCUs and the restart intervals of a scan look like. */
  lemma ScanShape(f: Frame, image: seq<Plane>, info: Scan, precision: nat, interval: nat)
    requires FrameOk(f) && ImageOk(f, image) && Valid(info, |f.comps|, precision)
    ensures ScanOk(f, CompsOf(info, |f.comps|))
    ensures var s := CompsOf(info, |f.comps|); var memb := Membership(f, s, |s|);
      var segments := Intervals(AllMcus(f, s, image), interval);
      && (forall i :: 0 <= i < |s| ==> s[i] < |f.comps|) && (forall j :: 0 <= j < |memb| ==> memb[j] < |s|)
      && (info.ss > 0 ==> |memb| == 1) && (forall k :: 0 <= k < |segments| ==> Uniform(segments[k], |memb|))
      && (forall c :: 0 <= c < |s| ==> c in memb) && segments != [] && segments[0] != []
      && Uniform(AllMcus(f, s, image), |memb|)
  {
    hide AllMcus, Membership, FrameOk, ImageOk;
    var s := CompsOf(info, |f.comps|);
    AllMcusAre(f, s, image);
    JoinedIntervals(AllMcus(f, s, image), interval);
    ImageRoundTrip.SomeMcu(f, s, image);
    if info.ss > 0 { OneBlock(f, s); }
    forall c | 0 <= c < |s| ensures c in Membership(f, s, |s|) { Member(f, s, |s|, c); }
  }

  lemma AllMcusAre(f: Frame, s: ScanComps, image: seq<Plane>)
    requires ScanOk(f, s) && ImageOk(f, image)
    ensures forall mcu :: mcu in AllMcus(f, s, image) ==> |mcu| == BlocksInMcu(f, s, |s|)
  {
    hide McusBefore, BlocksInMcu, TotalIMcuRows;
    ImageRoundTrip.McuSizes(f, s, image, TotalIMcuRows(f), 0, 0);
  }

  /** A component alone is not interleaved. */
  lemma OneBlock(f: Frame, s: ScanComps)
    requires ScanOk(f, s) && |s| == 1
    ensures BlocksInMcu(f, s, 1) == 1 && |Membership(f, s, 1)| == 1
  {
    assert BlocksInMcu(f, s, 0) == 0;
  }

  /** What does not change from scan to scan. */
  datatype Job = Job(coder: Coder, f: Frame, order: Order, image: seq<Plane>, precision: nat)

  predicate JobOk(j: Job) { FrameOk(j.f) && ImageOk(j.f, j.image) && CoderOk(j.coder, |j.f.comps|) }

  /** The scan can be coded: the MCUs are not too large, and nothing is out of range for the coder. */
  predicate ScanCodes(j: Job, info: Scan, interval: nat)
    requires JobOk(j)
  {
    var n := |j.f.comps|;
    Valid(info, n, j.precision) && (ScanShape(j.f, j.image, info, j.precision, interval);
      var s := CompsOf(info, n);
      var memb, segments := Membership(j.f, s, |s|), Intervals(AllMcus(j.f, s, j.image), interval);
      && BlocksInMcu(j.f, s, |s|) <= McuEncoder.C_MAX_BLOCKS_IN_MCU
      && PiecesCode(j.coder, n, j.order, info, s, memb, segments))
  }

  predicate PiecesOk(coder: Coder, n: nat, info: Scan, s: ScanComps, memb: seq<nat>, segments: seq<seq<seq<Block>>>) {
    && CoderOk(coder, n) && 0 <= info.ss <= info.se < 64 && 0 <= info.al <= 13
    && (forall i :: 0 <= i < |s| ==> s[i] < n) && (forall i :: 0 <= i < |memb| ==> memb[i] < |s|)
    && (info.ss > 0 ==> |memb| == 1) && forall k :: 0 <= k < |segments| ==> Uniform(segments[k], |memb|)
  }

  predicate PiecesCode(coder: Coder, n: nat, order: Order, info: Scan, s: ScanComps, memb: seq<nat>, segments: seq<seq<seq<Block>>>)
    requires PiecesOk(coder, n, info, s, memb, segments)
  {
    match coder
    case Arithmetic(_, conds) => ProgressiveArith.SegmentsFit(order, conds, info, s, memb, segments)
    case Huffman(tables) => ProgressiveHuff.Codable(tables, n, order, info, s, memb, segments)
  }

  predicate PiecesCountable(coder: Coder, n: nat, order: Order, info: Scan, s: ScanComps, memb: seq<nat>, segments: seq<seq<seq<Block>>>)
    requires PiecesOk(coder, n, info, s, memb, segments)
  {
    match coder
    case Arithmetic(_, _) => true
    case Huffman(tables) => ProgressiveHuff.Countable(tables, n, order, info, s, memb, segments)
  }

  /** The totals that the search for the least count allows. */
  predicate ScanCountable(j: Job, info: Scan, interval: nat)
    requires JobOk(j)
  {
    var n := |j.f.comps|;
    Valid(info, n, j.precision) && (ScanShape(j.f, j.image, info, j.precision, interval);
      var s := CompsOf(info, n);
      var memb, segments := Membership(j.f, s, |s|), Intervals(AllMcus(j.f, s, j.image), interval);
      PiecesCountable(j.coder, n, j.order, info, s, memb, segments))
  }

  /** Calls that are sure to get the scan through. */
  predicate EnoughFor(j: Job, info: Scan, rooms: seq<nat>)
    requires JobOk(j)
  {
    Valid(info, |j.f.comps|, j.precision) && (ScanShape(j.f, j.image, info, j.precision, 0);
      Enough(j.f, CompsOf(info, |j.f.comps|), j.image, rooms))
  }

  // ---- What the decoder knows of the blocks of a scan ----

  /** All blocks are known down to these marks. */
  ghost predicate AllKnown(order: Order, mark: seq<int>, srcs: seq<seq<Block>>, olds: seq<seq<Block>>)
    requires MarkOk(mark)
  {
    |srcs| == |olds| && forall i, j :: 0 <= i < |srcs| && 0 <= j < |srcs[i]| ==> j < |olds[i]| && olds[i][j] == Partial(order, mark, srcs[i][j])
  }

  /** A component alone has no dummies: what the decoder finds in its arrays are the blocks of the image. */
  lemma SingleKnown(f: Frame, order: Order, image: seq<Plane>, b: Marks, s: ScanComps, olds: seq<seq<Block>>)
    requires ScanOk(f, s) && |s| == 1 && ImageOk(f, image) && MarksOk(b) && |b| == |f.comps|
    requires ImageOk(f, PartialOf(order, b, image)) && McuDecoder.Shows(f, s, PartialOf(order, b, image), olds)
    ensures AllKnown(order, b[s[0]], AllMcus(f, s, image), olds)
  {
    var known, srcs, mark := PartialOf(order, b, image), AllMcus(f, s, image), b[s[0]];
    assert MarkOk(mark);
    hide PartialOf, Partial, Mcu, McuRows, TotalIMcuRows, FrameOk, ImageOk, BlocksInMcu, MarksOk, MarkOk,
      McuDecoder.ShowsMcu, McuDecoder.AllSpots, AllMcus;
    McuDecoder.McusAreSpots(f, s, image);
    forall i | 0 <= i < |srcs| ensures |srcs[i]| == |olds[i]| == 1 && olds[i][0] == Partial(order, mark, srcs[i][0]) {
      var t := McuDecoder.AllSpots(f, s)[i];
      assert McuDecoder.IsMcuOf(f, s, image, t, srcs[i]);
      assert t == McuEncoder.Spot(0, t.r, t.y, t.col);
      SingleBlock(f, order, image, b, s, t, srcs[i], olds[i]);
    }
    OneEach(order, mark, srcs, olds);
  }

  lemma OneEach(order: Order, mark: seq<int>, srcs: seq<seq<Block>>, olds: seq<seq<Block>>)
    requires MarkOk(mark) && |srcs| == |olds|
    requires forall i :: 0 <= i < |srcs| ==> |srcs[i]| == |olds[i]| == 1 && olds[i][0] == Partial(order, mark, srcs[i][0])
    ensures AllKnown(order, mark, srcs, olds)
  {
    hide Partial;
  }

  lemma SingleBlock(f: Frame, order: Order, image: seq<Plane>, b: Marks, s: ScanComps, t: McuEncoder.Spot, src: seq<Block>, was: seq<Block>)
    requires McuEncoder.SpotOk(f, s, t) && t.ci == 0 && |s| == 1 && ImageOk(f, image) && MarksOk(b) && |b| == |f.comps|
    requires ImageOk(f, PartialOf(order, b, image)) && McuDecoder.ShowsMcu(f, s, PartialOf(order, b, image), t.r, t.y, t.col, was)
    requires src == Mcu(f, s, image, t.r, t.y, t.col)
    ensures |src| == |was| == 1 && was[0] == Partial(order, b[s[0]], src[0])
  {
    var row, col := McuEncoder.BaseRow(f, s, t), McuEncoder.BaseCol(f, s, t);
    var known := PartialOf(order, b, image);
    OneBlock(f, s);
    McuLength(f, s, image, t.r, t.y, t.col, 1);
    RealBlocks(f, s, 0, t.r, t.y, t.col, 0, 0);
    assert McuDecoder.Index(f, s, t, 0, 0) == 0;
    assert row < f.comps[s[0]].height && col < f.comps[s[0]].width;
    hide Partial, PartialPlane, McuRows, TotalIMcuRows, FrameOk, McuDecoder.ShowsMcu, McuDecoder.Index, McuEncoder.BaseRow,
      McuEncoder.BaseCol;
    McuDecoder.TakeBlock(f, s, known, t, was, 0, 0);
    McuDecoder.McuAt(f, s, image, t, 0, 0);
    ShowsLength(f, s, known, t, was);
  }

  lemma ShowsLength(f: Frame, s: ScanComps, image: seq<Plane>, t: McuEncoder.Spot, mcu: seq<Block>)
    requires McuEncoder.SpotOk(f, s, t) && ImageOk(f, image) && McuDecoder.ShowsMcu(f, s, image, t.r, t.y, t.col, mcu)
    ensures |mcu| == BlocksInMcu(f, s, |s|)
  {
  }

  // ---- Restart intervals on both sides ----

  /** The same MCUs as the encoder sends them and as the decoder has them. */
  ghost predicate Paired(order: Order, mark: seq<int>, w: nat, all: bool, srcs: seq<seq<Block>>, olds: seq<seq<Block>>) {
    MarkOk(mark) && |srcs| == |olds| && Uniform(srcs, w) && Uniform(olds, w) && (all ==> AllKnown(order, mark, srcs, olds))
  }

  lemma {:induction false} PairedPieces(order: Order, mark: seq<int>, w: nat, all: bool, srcs: seq<seq<Block>>, olds: seq<seq<Block>>, interval: nat)
    requires Paired(order, mark, w, all, srcs, olds)
    ensures |Intervals(srcs, interval)| == |Intervals(olds, interval)|
    ensures forall k :: 0 <= k < |Intervals(srcs, interval)| ==> Paired(order, mark, w, all, Intervals(srcs, interval)[k], Intervals(olds, interval)[k])
    decreases |srcs|
  {
    hide Partial;
    if interval != 0 && |srcs| > interval {
      PairedPieces(order, mark, w, all, srcs[interval..], olds[interval..], interval);
      assert Paired(order, mark, w, all, srcs[..interval], olds[..interval]);
    }
  }

  lemma ShowsUniform(f: Frame, s: ScanComps, image: seq<Plane>, mcus: seq<seq<Block>>)
    requires ScanOk(f, s) && ImageOk(f, image) && McuDecoder.Shows(f, s, image, mcus)
    ensures Uniform(mcus, BlocksInMcu(f, s, |s|))
  {
    hide McuDecoder.RealIs, McuDecoder.AllSpots, BlocksInMcu, TotalIMcuRows, McuRows, McusPerRow, McuDecoder.Index;
  }

  lemma PiecesReady(f: Frame, order: Order, image: seq<Plane>, b: Marks, info: Scan, precision: nat, interval: nat, olds: seq<seq<Block>>)
    requires FrameOk(f) && ImageOk(f, image) && MarksOk(b) && |b| == |f.comps| && DcLeads(b) && ProgressiveOk(b, info, precision)
    requires (ScanShape(f, image, info, precision, interval); ImageOk(f, PartialOf(order, b, image))
      && McuDecoder.Shows(f, CompsOf(info, |f.comps|), PartialOf(order, b, image), olds))
    ensures (ScanShape(f, image, info, precision, interval); var s := CompsOf(info, |f.comps|);
      Segments(order, b, info, s, Membership(f, s, |s|), precision, Intervals(AllMcus(f, s, image), interval), Intervals(olds, interval)))
  {
    ScanShape(f, image, info, precision, interval);
    var s := CompsOf(info, |f.comps|);
    var memb, srcs, known := Membership(f, s, |s|), AllMcus(f, s, image), PartialOf(order, b, image);
    assert MarkOk(b[s[0]]) && |memb| == BlocksInMcu(f, s, |s|);
    hide AllMcus, PartialOf, Partial, McuDecoder.Shows, FrameOk, ImageOk, Membership, BlocksInMcu, Intervals,
      ProgressiveOk, DcLeads, MarkOk, CompsOk;
    ShowsUniform(f, s, known, olds);
    SameNumber(f, s, image, known, olds);
    if info.ss > 0 { SingleKnown(f, order, image, b, s, olds); }
    PairedPieces(order, b[s[0]], |memb|, info.ss > 0, srcs, olds, interval);
    forall k | 0 <= k < |Intervals(srcs, interval)|
      ensures Segment(order, b, info, s, memb, precision, Intervals(srcs, interval)[k], Intervals(olds, interval)[k])
    {
      assert Paired(order, b[s[0]], |memb|, info.ss > 0, Intervals(srcs, interval)[k], Intervals(olds, interval)[k]);
    }
  }

  lemma SameNumber(f: Frame, s: ScanComps, image: seq<Plane>, known: seq<Plane>, olds: seq<seq<Block>>)
    requires ScanOk(f, s) && ImageOk(f, image) && ImageOk(f, known) && McuDecoder.Shows(f, s, known, olds)
    ensures |AllMcus(f, s, image)| == |olds|
  {
    hide AllMcus, McuDecoder.AllSpots, FrameOk, ImageOk;
    McuDecoder.McusAreSpots(f, s, image);
  }

  lemma {:induction false} JoinedSteps(order: Order, b: Marks, info: Scan, s: ScanComps, memb: seq<nat>, srcs: seq<seq<seq<Block>>>,
      olds: seq<seq<seq<Block>>>, gots: seq<seq<seq<Block>>>)
    requires MarksOk(b) && 0 <= info.al <= 13 && SegmentsStep(order, b, info, s, memb, srcs, olds, gots)
    ensures AllStep(order, b, info, s, memb, Flatten(srcs), Flatten(olds), Flatten(gots))
    decreases |srcs|
  {
    hide McuSteps;
    if srcs != [] {
      JoinedSteps(order, b, info, s, memb, srcs[1..], olds[1..], gots[1..]);
      assert AllStep(order, b, info, s, memb, srcs[0], olds[0], gots[0]);
    }
  }

  // ---- One scan ----

  /** The arrays hold the real blocks of all components. */
  ghost predicate Holds(f: Frame, image: seq<Plane>, planes: seq<array2<Block>>)
    requires FrameOk(f) && ImageOk(f, image) && Arrays(f, planes)
    reads planes
  {
    forall c :: 0 <= c < |f.comps| ==> McuDecoder.Complete(f.comps[c], image[c], planes[c])
  }

  /** The restart intervals through the entropy coder. */
  method CodePieces(coder: Coder, n: nat, order: Order, ghost b: Marks, info: Scan, s: ScanComps, memb: seq<nat>, ghost precision: nat,
      srcs: seq<seq<seq<Block>>>, olds: seq<seq<seq<Block>>>, marker: seq<byte>) returns (ok: bool, gots: seq<seq<seq<Block>>>)
    requires PiecesOk(coder, n, info, s, memb, srcs) && PiecesCountable(coder, n, order, info, s, memb, srcs)
    requires Segments(order, b, info, s, memb, precision, srcs, olds) && n == |b| && IsMarker(marker)
    requires DcLeads(b) && (forall c :: 0 <= c < |s| ==> c in memb) && srcs != [] && srcs[0] != []
    ensures ok == PiecesCode(coder, n, order, info, s, memb, srcs)
    ensures ok ==> SegmentsStep(order, b, info, s, memb, srcs, olds, gots)
  {
    hide Segments, SegmentsStep, IsMarker, ProgressiveHuff.Codable, ProgressiveHuff.Countable,
      ProgressiveArith.SegmentsFit, DcLeads;
    match coder
    case Arithmetic(tab, conds) =>
      ok, gots := ProgressiveArith.CodeScan(tab, order, conds, b, info, s, memb, precision, srcs, olds, marker);
    case Huffman(tables) =>
      ok, gots := ProgressiveHuff.CodeScan(tables, n, order, b, info, s, memb, precision, srcs, olds, marker);
  }

  lemma ProgressiveValid(b: Marks, info: Scan, precision: nat)
    requires ProgressiveOk(b, info, precision)
    ensures Valid(info, |b|, precision) && 0 <= info.al <= 13
    ensures MarksOk(b) ==> MarksOk(Marked(b, info))
  {
    if MarksOk(b) { MarkedOk(b, info); }
  }

  /** A scan through the entropy coder, from the MCUs that are sent to the MCUs that are put back. */
  method CodeMcus(j: Job, ghost b: Marks, info: Scan, s: ScanComps, interval: nat, marker: seq<byte>, sent: seq<seq<Block>>, olds: seq<seq<Block>>)
      returns (ok: bool, mcus: seq<seq<Block>>)
    requires JobOk(j) && MarksOk(b) && |b| == |j.f.comps| && DcLeads(b) && ProgressiveOk(b, info, j.precision) && IsMarker(marker)
    requires ScanCountable(j, info, interval) && s == CompsOf(info, |b|) && ScanOk(j.f, s)
    requires BlocksInMcu(j.f, s, |s|) <= McuEncoder.C_MAX_BLOCKS_IN_MCU && sent == AllMcus(j.f, s, j.image)
    requires (PartialOk(j.f, j.order, b, j.image); McuDecoder.Shows(j.f, s, PartialOf(j.order, b, j.image), olds))
    ensures ok == ScanCodes(j, info, interval)
    ensures ok ==> AllStep(j.order, b, info, s, Membership(j.f, s, |s|), sent, olds, mcus)
  {
    var n, memb := |j.f.comps|, Membership(j.f, s, |s|);
    ProgressiveValid(b, info, j.precision);
    PartialOk(j.f, j.order, b, j.image);
    ScanShape(j.f, j.image, info, j.precision, interval);
    ghost var countable := PiecesCountable(j.coder, n, j.order, info, s, memb, Intervals(sent, interval));
    assert countable;
    assert ScanCodes(j, info, interval) == PiecesCode(j.coder, n, j.order, info, s, memb, Intervals(sent, interval));
    PiecesReady(j.f, j.order, j.image, b, info, j.precision, interval, olds);
    hide AllMcus, Membership, BlocksInMcu, ScanCodes, ScanCountable, PiecesCode, PiecesCountable, ProgressiveOk, PartialOf,
      McuDecoder.Shows, Segments, SegmentsStep, AllStep;
    var srcs := CutIntervals(sent, interval);
    var had := CutIntervals(olds, interval);
    var gots;
    ok, gots := CodePieces(j.coder, n, j.order, b, info, s, memb, j.precision, srcs, had, marker);
    mcus := Flatten(gots);
    if ok {
      JoinedSteps(j.order, b, info, s, memb, srcs, had, gots);
      JoinedIntervals(sent, interval);
      JoinedIntervals(olds, interval);
    }
  }
}
