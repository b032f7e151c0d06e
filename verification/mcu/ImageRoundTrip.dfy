/** Images through the whole coder: assembled into MCUs, entropy-coded, decoded, and put back
    block by block. */
module ImageRoundTrip {
  import opened Radix
  import opened ByteStream
  import opened Blocks
  import opened McuGeometry
  import opened RestartIntervals
  import opened NaturalOrder
  import McuEncoder
  import opened McuController
  import McuDecoder
  import HuffBlock
  import HuffScan
  import HuffMcuDecoder
  import TwoPass
  import ArithBlock
  import ArithTable
  import ArithMcuDecoder
  import ArithScan

  /** All MCUs of a scan have the same number of blocks. */
  lemma {:induction false} McuSizes(f: Frame, s: ScanComps, image: seq<Plane>, r: nat, y: nat, col: nat)
    requires ScanOk(f, s) && ImageOk(f, image) && r <= TotalIMcuRows(f)
    requires if r < TotalIMcuRows(f) then y <= McuRows(f, s, r) && col <= McusPerRow(f, s) else y == col == 0
    ensures forall mcu :: mcu in McusBefore(f, s, image, r, y, col) ==> |mcu| == BlocksInMcu(f, s, |s|)
    decreases r, y, col
  {
    hide McuRows, TotalIMcuRows, McusPerRow, McuBlocks, BlocksInMcu;
    if col > 0 {
      McuSizes(f, s, image, r, y, col - 1);
      McuLength(f, s, image, r, y, col - 1, |s|);
    } else if y > 0 {
      McuSizes(f, s, image, r, y - 1, McusPerRow(f, s));
    } else if r > 0 {
      McuSizes(f, s, image, r - 1, McuRows(f, s, r - 1), 0);
    }
  }

  // ---- Images ----

  datatype Outcome = EncoderSuspended | NotEncodable | DecoderSuspended | Restored

  /** Every block of the components of the scan is where it was in the image. */
  ghost predicate Same(f: Frame, s: ScanComps, image: seq<Plane>, planes: seq<array2<Block>>)
    requires ScanOk(f, s) && ImageOk(f, image) && |planes| == |f.comps|
    reads planes
  {
    forall ci :: 0 <= ci < |s| ==> McuDecoder.Complete(f.comps[s[ci]], image[s[ci]], planes[s[ci]])
  }

  /** The segments that the image is coded in. */
  function Segments(f: Frame, s: ScanComps, image: seq<Plane>, interval: nat): seq<seq<seq<Block>>>
    requires ScanOk(f, s) && ImageOk(f, image)
  {
    Intervals(AllMcus(f, s, image), interval)
  }

  lemma SegmentSizes(f: Frame, s: ScanComps, image: seq<Plane>, interval: nat)
    requires ScanOk(f, s) && ImageOk(f, image)
    ensures forall k, i :: 0 <= k < |Segments(f, s, image, interval)| && 0 <= i < |Segments(f, s, image, interval)[k]| ==>
      |Segments(f, s, image, interval)[k][i]| == BlocksInMcu(f, s, |s|)
  {
    hide McusBefore, BlocksInMcu, TotalIMcuRows;
    McuSizes(f, s, image, TotalIMcuRows(f), 0, 0);
    JoinedIntervals(AllMcus(f, s, image), interval);
  }

  method Encoded(f: Frame, s: ScanComps, image: seq<Plane>, interval: nat, rooms: seq<nat>) returns (segments: seq<seq<seq<Block>>>, finished: bool)
    requires ScanOk(f, s) && ImageOk(f, image) && BlocksInMcu(f, s, |s|) <= McuEncoder.C_MAX_BLOCKS_IN_MCU
    ensures finished ==> segments == Segments(f, s, image, interval)
    ensures Enough(f, s, image, rooms) ==> finished
  {
    hide AllMcus, BlocksInMcu;
    var dummyBuffer := new Block[0];
    var mcus;
    mcus, finished := McuController.RunPass(f, s, image, PassThru, [], dummyBuffer, rooms);
    segments := CutIntervals(mcus, interval);
  }

  /** The decoded blocks of all segments go to their places. */
  method Placed(f: Frame, s: ScanComps, ghost image: seq<Plane>, ghost interval: nat, order: Order, got: seq<seq<seq<seq<int>>>>,
      multiscan: bool, planes: seq<array2<Block>>, rooms: seq<nat>) returns (complete: bool)
    requires ScanOk(f, s) && ImageOk(f, image) && forall i, j :: 0 <= i < j < |s| ==> s[i] != s[j]
    requires AllSame(order, got, Segments(f, s, image, interval))
    requires McuDecoder.PlanesOk(f, multiscan, seq(|f.comps|, _ => true), planes)
    modifies planes
    ensures Enough(f, s, image, rooms) ==> complete
    ensures complete ==> Same(f, s, image, planes)
  {
    hide AllMcus, Same, SameSegment, McuDecoder.Complete;
    ghost var segments := Segments(f, s, image, interval);
    var back: seq<seq<Block>> := [];
    JoinedIntervals(AllMcus(f, s, image), interval);
    assert segments[0..] == segments && back + Flatten(segments) == Flatten(segments);
    for k := 0 to |got|
      invariant back + Flatten(segments[k..]) == AllMcus(f, s, image)
    {
      SegmentLength(order, got[k], segments[k]);
      var mcus := NaturalMcus(order, got[k], segments[k]);
      assert segments[k..][0] == segments[k] && segments[k..][1..] == segments[k + 1..];
      Concat(back, mcus, Flatten(segments[k + 1..]));
      back := back + mcus;
    }
    assert segments[|got|..] == [] && back + [] == back;
    McuDecoder.AllShow(f, s, image);
    complete := McuDecoder.RunPass(f, s, image, multiscan, seq(|f.comps|, _ => true), planes, back, rooms);
    if complete { assert Same(f, s, image, planes) by { Everywhere(f, s, image, planes, seq(|f.comps|, _ => true)); } }
  }

  ghost predicate SameSegment(order: Order, got: seq<seq<seq<int>>>, mcus: seq<seq<Block>>) {
    |got| == |mcus| && forall i :: 0 <= i < |mcus| ==> SameMcu(order, got[i], mcus[i])
  }

  ghost predicate AllSame(order: Order, got: seq<seq<seq<seq<int>>>>, segments: seq<seq<seq<Block>>>) {
    |got| == |segments| && forall k :: 0 <= k < |segments| ==> SameSegment(order, got[k], segments[k])
  }

  lemma SegmentLength(order: Order, got: seq<seq<seq<int>>>, mcus: seq<seq<Block>>)
    requires SameSegment(order, got, mcus)
    ensures |got| == |mcus| && forall i :: 0 <= i < |mcus| ==> SameMcu(order, got[i], mcus[i])
  {
    hide SameMcu;
  }

  /** Every component has blocks in an MCU, and there is an MCU. */
  lemma SomethingToCode(f: Frame, s: ScanComps, image: seq<Plane>, scan: HuffBlock.Scan, interval: nat)
    requires ScanOk(f, s) && ImageOk(f, image) && scan.membership == Membership(f, s, |s|) && |scan.dcTab| == |s|
    ensures TwoPass.NotEmpty(scan, Segments(f, s, image, interval))
  {
    hide Membership, AllMcus;
    forall c | 0 <= c < |s| ensures c in Membership(f, s, |s|) { Member(f, s, |s|, c); }
    SomeMcu(f, s, image);
    assert Segments(f, s, image, interval)[0] != [];
  }

  lemma SomeMcu(f: Frame, s: ScanComps, image: seq<Plane>)
    requires ScanOk(f, s) && ImageOk(f, image)
    ensures AllMcus(f, s, image) != []
  {
    hide Mcu, TotalIMcuRows, McuRows, McusPerRow, McusBefore;
    McusThere(f, s);
    var t := TotalIMcuRows(f);
    var y := McuRows(f, s, t - 1);
    Unfolded(f, s, image, t, y);
  }

  lemma McusThere(f: Frame, s: ScanComps)
    requires ScanOk(f, s)
    ensures 0 < TotalIMcuRows(f) && 0 < McusPerRow(f, s) && 0 < McuRows(f, s, TotalIMcuRows(f) - 1)
  {
    CompFits(f, s[0]);
  }

  lemma Unfolded(f: Frame, s: ScanComps, image: seq<Plane>, t: nat, y: nat)
    requires ScanOk(f, s) && ImageOk(f, image) && 0 < t == TotalIMcuRows(f) && 0 < y == McuRows(f, s, t - 1) && 0 < McusPerRow(f, s)
    ensures McusBefore(f, s, image, t, 0, 0) != []
  {
    hide Mcu, TotalIMcuRows, McuRows, McusPerRow;
    assert McusBefore(f, s, image, t, 0, 0) == McusBefore(f, s, image, t - 1, y, 0);
    assert McusBefore(f, s, image, t - 1, y, 0) == McusBefore(f, s, image, t - 1, y - 1, McusPerRow(f, s));
  }

  /** The image through optimized Huffman coding, with or without restarts.  As long as neither
      side is idle, it comes back exactly if no coefficient is out of range and no code gets too
      long, however often the two sides suspend. */
  method HuffmanImage(f: Frame, s: ScanComps, image: seq<Plane>, scan: HuffBlock.Scan, n: nat, interval: nat, marker: seq<byte>,
      multiscan: bool, planes: seq<array2<Block>>, sending: seq<nat>, receiving: seq<nat>) returns (outcome: Outcome)
    requires ScanOk(f, s) && ImageOk(f, image) && BlocksInMcu(f, s, |s|) <= McuEncoder.C_MAX_BLOCKS_IN_MCU
    requires forall i, j :: 0 <= i < j < |s| ==> s[i] != s[j]
    requires HuffBlock.ScanOk(scan, n) && scan.membership == Membership(f, s, |s|) && |scan.dcTab| == |s|
    requires scan.se == 63 && scan.al == 0 && IsMarker(marker)
    requires (SegmentSizes(f, s, image, interval); TwoPass.AllCountable(scan, n, Segments(f, s, image, interval)))
    requires McuDecoder.PlanesOk(f, multiscan, seq(|f.comps|, _ => true), planes)
    modifies planes
    ensures outcome == Restored ==> Same(f, s, image, planes)
    ensures (SegmentSizes(f, s, image, interval);
      Enough(f, s, image, sending) && Enough(f, s, image, receiving) ==>
        (outcome == Restored <==>
          && HuffScan.SegmentsInRange(scan, n, Segments(f, s, image, interval), |Segments(f, s, image, interval)|)
          && TwoPass.AllAccepted(scan, n, Segments(f, s, image, interval))))
  {
    hide Segments, BlocksInMcu, TwoPass.AllCountable, TwoPass.AllAccepted, TwoPass.NotEmpty, HuffScan.SegmentsInRange,
      TwoPass.SegmentGot, Same, SameSegment, Enough;
    SegmentSizes(f, s, image, interval);
    var segments, finished := Encoded(f, s, image, interval, sending);
    if !finished { return EncoderSuspended; }
    var limits := seq(|scan.membership|, _ => 64);
    SomethingToCode(f, s, image, scan, interval);
    var ok, got := TwoPass.OptimizedRoundTrip(scan, n, false, limits, segments, marker, seq(|s|, _ => true));
    if !ok { return NotEncodable; }
    forall k | 0 <= k < |segments| ensures SameSegment(scan.order, got[k], segments[k]) { HuffmanExact(scan, limits, got[k], segments[k]); }
    var complete := Placed(f, s, image, interval, scan.order, got, multiscan, planes, receiving);
    outcome := if complete then Restored else DecoderSuspended;
  }

  lemma Everywhere(f: Frame, s: ScanComps, image: seq<Plane>, planes: seq<array2<Block>>, needed: seq<bool>)
    requires ScanOk(f, s) && ImageOk(f, image) && |planes| == |f.comps| == |needed|
    requires forall c :: 0 <= c < |needed| ==> needed[c]
    requires forall ci :: 0 <= ci < |s| && needed[s[ci]] ==> McuDecoder.Complete(f.comps[s[ci]], image[s[ci]], planes[s[ci]])
    ensures Same(f, s, image, planes)
  {
    hide McuDecoder.Complete;
  }

  lemma HuffmanExact(scan: HuffBlock.Scan, limits: seq<nat>, got: seq<seq<seq<int>>>, mcus: seq<seq<Block>>)
    requires scan.se == 63 && scan.al == 0 && TwoPass.SegmentGot(scan, limits, got, mcus)
    requires forall b :: 0 <= b < |limits| ==> limits[b] == 64
    ensures SameSegment(scan.order, got, mcus)
  {
    hide HuffMcuDecoder.Got;
    forall i, b | 0 <= i < |mcus| && 0 <= b < |mcus[i]|
      ensures |got[i]| == |mcus[i]| && |got[i][b]| == 64 && forall k :: 0 <= k < 64 ==> got[i][b][k] == mcus[i][b][scan.order[k]]
    {
      assert HuffScan.McuGot(scan, limits, got[i], mcus[i]);
      HuffScan.Exact(scan, got[i][b], mcus[i][b], 0);
      forall k | 0 <= k < 64 ensures got[i][b][k] == mcus[i][b][scan.order[k]] { HuffScan.Exact(scan, got[i][b], mcus[i][b], k); }
    }
  }

  /** Every segment has DC differences that the decoder takes. */
  predicate AllSegmentsFit(scan: ArithBlock.Scan, segments: seq<seq<seq<Block>>>, k: nat)
    requires k <= |segments| && forall j :: 0 <= j < |segments| ==> ArithScan.Fits(scan, segments[j])
  {
    forall j :: 0 <= j < k ==> ArithScan.AllDiffsOk(scan, 0, segments[j], ArithScan.FreshDcs(scan))
  }

  /** Each segment starts with fresh statistics. */
  method ArithmeticSegments(tab: ArithTable.Aritab, scan: ArithBlock.Scan, segments: seq<seq<seq<Block>>>, marker: seq<byte>)
      returns (ok: bool, got: seq<seq<seq<seq<int>>>>)
    requires IsMarker(marker) && forall j :: 0 <= j < |segments| ==> ArithScan.Fits(scan, segments[j])
    requires scan.se == 63 && scan.al == 0
    ensures ok == AllSegmentsFit(scan, segments, |segments|)
    ensures ok ==> AllSame(scan.order, got, segments)
  {
    hide ArithScan.AllDiffsOk, ArithScan.McuRebuilt, SameSegment, IsMarker;
    got := [];
    for k := 0 to |segments|
      invariant AllSegmentsFit(scan, segments, k)
      invariant |got| == k && forall j :: 0 <= j < k ==> SameSegment(scan.order, got[j], segments[j])
    {
      TwoPass.BehindIsMarker(k, |segments|, marker);
      var status, back, encoded, decoded := ArithScan.ScanRoundTrip(tab, scan, segments[k], TwoPass.Behind(k, |segments|, marker));
      if status != ArithMcuDecoder.Fine { return false, []; }
      ArithmeticExact(scan, back, segments[k]);
      got := got + [back];
    }
    ok := true;
  }

  /** The image through arithmetic coding, with or without restarts. */
  method ArithmeticImage(f: Frame, s: ScanComps, image: seq<Plane>, tab: ArithTable.Aritab, scan: ArithBlock.Scan, interval: nat,
      marker: seq<byte>, multiscan: bool, planes: seq<array2<Block>>, sending: seq<nat>, receiving: seq<nat>) returns (outcome: Outcome)
    requires ScanOk(f, s) && ImageOk(f, image) && BlocksInMcu(f, s, |s|) <= McuEncoder.C_MAX_BLOCKS_IN_MCU
    requires forall i, j :: 0 <= i < j < |s| ==> s[i] != s[j]
    requires ArithBlock.ScanOk(scan) && scan.membership == Membership(f, s, |s|) && scan.se == 63 && scan.al == 0 && IsMarker(marker)
    requires McuDecoder.PlanesOk(f, multiscan, seq(|f.comps|, _ => true), planes)
    modifies planes
    ensures outcome == Restored ==> Same(f, s, image, planes)
    ensures (SegmentSizes(f, s, image, interval);
      Enough(f, s, image, sending) && Enough(f, s, image, receiving) ==>
        (outcome == Restored <==> AllSegmentsFit(scan, Segments(f, s, image, interval), |Segments(f, s, image, interval)|)))
  {
    hide Segments, BlocksInMcu, AllSegmentsFit, Same, SameSegment, Enough;
    SegmentSizes(f, s, image, interval);
    var segments, finished := Encoded(f, s, image, interval, sending);
    if !finished { return EncoderSuspended; }
    var ok, got := ArithmeticSegments(tab, scan, segments, marker);
    if !ok { return NotEncodable; }
    var complete := Placed(f, s, image, interval, scan.order, got, multiscan, planes, receiving);
    outcome := if complete then Restored else DecoderSuspended;
  }

  lemma ArithmeticExact(scan: ArithBlock.Scan, got: seq<seq<seq<int>>>, mcus: seq<seq<Block>>)
    requires scan.se == 63 && scan.al == 0 && |got| == |mcus|
    requires forall i :: 0 <= i < |mcus| ==> ArithScan.McuRebuilt(scan, got[i], mcus[i])
    ensures SameSegment(scan.order, got, mcus)
  {
    hide ArithMcuDecoder.Rebuilt;
    forall i, b | 0 <= i < |mcus| && 0 <= b < |mcus[i]|
      ensures |got[i]| == |mcus[i]| && |got[i][b]| == 64 && forall k :: 0 <= k < 64 ==> got[i][b][k] == mcus[i][b][scan.order[k]]
    {
      assert ArithScan.McuRebuilt(scan, got[i], mcus[i]);
      RebuiltSize(scan, mcus[i][b]);
      forall k | 0 <= k < 64 ensures got[i][b][k] == mcus[i][b][scan.order[k]] { ArithScan.RebuiltExactly(scan, mcus[i][b], k); }
    }
  }

  lemma RebuiltSize(scan: ArithBlock.Scan, block: Block)
    requires scan.se < 64
    ensures |ArithMcuDecoder.Rebuilt(scan, Zeros(), block)| == 64
  {
  }
}
