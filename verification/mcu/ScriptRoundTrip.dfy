/** All scans of a progressive script: each goes through MCU assembly, the entropy coder and back
    into the full-image arrays, and adds its bits to what is known of the image. */
module ScriptRoundTrip {
  import opened Radix
  import opened ByteStream
  import opened Blocks
  import opened McuGeometry
  import McuEncoder
  import opened McuController
  import McuDecoder
  import McuReader
  import opened PartialImage
  import opened ProgressiveScan
  import opened ProgressiveImage
  import opened ScanScript
  import ImageRoundTrip
  import SimpleProgression

  // ---- One scan ----

  /** All images of a frame have as many MCUs. */
  lemma EnoughSame(f: Frame, s: ScanComps, image: seq<Plane>, other: seq<Plane>, rooms: seq<nat>)
    requires ScanOk(f, s) && ImageOk(f, image) && ImageOk(f, other)
    ensures Enough(f, s, image, rooms) == Enough(f, s, other, rooms)
  {
    hide AllMcus, McuDecoder.AllSpots, TotalIMcuRows, FrameOk, ImageOk;
    McuDecoder.McusAreSpots(f, s, image);
    McuDecoder.McusAreSpots(f, s, other);
  }

  lemma HoldsScan(f: Frame, s: ScanComps, image: seq<Plane>, planes: seq<array2<Block>>)
    requires ScanOk(f, s) && ImageOk(f, image) && Arrays(f, planes) && Holds(f, image, planes)
    ensures McuReader.Hold(f, s, image, planes)
  {
    hide McuDecoder.Complete, McuEncoder.Room, ImageOk;
  }

  /** A component that is not in the scan has nothing new. */
  lemma OthersKept(f: Frame, order: Order, b: Marks, info: Scan, image: seq<Plane>, c: nat)
    requires ImageOk(f, image) && MarksOk(b) && |b| == |f.comps| && MarksOk(Marked(b, info)) && c < |f.comps| && !InScan(info, c)
    ensures PartialOf(order, Marked(b, info), image)[c] == PartialOf(order, b, image)[c]
  {
    hide Partial;
    MarkedRows(b, info, c);
    var p, q := PartialOf(order, Marked(b, info), image)[c], PartialOf(order, b, image)[c];
    forall y | 0 <= y < |p| ensures p[y] == q[y] {}
  }

  /** The decoded MCUs go to their places; the arrays of the other components are left alone. */
  method PlaceMcus(f: Frame, ghost order: Order, ghost b: Marks, info: Scan, ghost image: seq<Plane>, s: ScanComps, mcus: seq<seq<Block>>,
      planes: seq<array2<Block>>, rooms: seq<nat>) returns (complete: bool)
    requires ScanOk(f, s) && ImageOk(f, image) && CompsOk(info, |f.comps|) && s == CompsOf(info, |f.comps|)
    requires MarksOk(b) && |b| == |f.comps| && MarksOk(Marked(b, info))
    requires Arrays(f, planes) && (PartialOk(f, order, b, image); Holds(f, PartialOf(order, b, image), planes))
    requires (PartialOk(f, order, Marked(b, info), image); McuDecoder.Shows(f, s, PartialOf(order, Marked(b, info), image), mcus))
    modifies planes
    ensures Enough(f, s, image, rooms) ==> complete
    ensures complete ==> (PartialOk(f, order, Marked(b, info), image); Holds(f, PartialOf(order, Marked(b, info), image), planes))
  {
    ghost var was, now := PartialOf(order, b, image), PartialOf(order, Marked(b, info), image);
    PartialOk(f, order, b, image);
    PartialOk(f, order, Marked(b, info), image);
    CompsDistinct(info, |f.comps|);
    EnoughSame(f, s, image, now, rooms);
    hide PartialOf, Marked, McuDecoder.Shows, Enough, McuDecoder.Complete, McuEncoder.Room, FrameOk, ImageOk, InScan;
    complete := McuDecoder.RunPass(f, s, now, true, seq(|f.comps|, _ => true), planes, mcus, rooms);
    if complete {
      forall c | 0 <= c < |f.comps| ensures McuDecoder.Complete(f.comps[c], now[c], planes[c]) {
        if c in s {
          var ci :| 0 <= ci < |s| && s[ci] == c;
        } else {
          OthersKept(f, order, b, info, image, c);
        }
      }
    }
  }

  /** One scan. */
  method RunScan(j: Job, ghost b: Marks, info: Scan, s: ScanComps, interval: nat, marker: seq<byte>, sent: seq<seq<Block>>,
      planes: seq<array2<Block>>, rooms: seq<nat>) returns (ok: bool, complete: bool)
    requires JobOk(j) && MarksOk(b) && |b| == |j.f.comps| && DcLeads(b) && ProgressiveOk(b, info, j.precision) && IsMarker(marker)
    requires ScanCountable(j, info, interval) && s == CompsOf(info, |b|) && ScanOk(j.f, s)
    requires BlocksInMcu(j.f, s, |s|) <= McuEncoder.C_MAX_BLOCKS_IN_MCU && sent == AllMcus(j.f, s, j.image)
    requires Arrays(j.f, planes) && (PartialOk(j.f, j.order, b, j.image); Holds(j.f, PartialOf(j.order, b, j.image), planes))
    modifies planes
    ensures ok == ScanCodes(j, info, interval)
    ensures ok && Enough(j.f, s, j.image, rooms) ==> complete
    ensures MarksOk(Marked(b, info))
    ensures complete ==> ok && (PartialOk(j.f, j.order, Marked(b, info), j.image); Holds(j.f, PartialOf(j.order, Marked(b, info), j.image), planes))
  {
    ghost var was := PartialOf(j.order, b, j.image);
    ProgressiveValid(b, info, j.precision);
    PartialOk(j.f, j.order, b, j.image);
    PartialOk(j.f, j.order, Marked(b, info), j.image);
    HoldsScan(j.f, s, was, planes);
    CompsDistinct(info, |b|);
    hide AllMcus, PartialOf, Marked, BlocksInMcu, McuDecoder.Shows, Enough, Holds, McuReader.Hold, FrameOk, ImageOk,
      Arrays, ProgressiveOk, ScanCodes, ScanCountable, CoderOk, AllStep, DcLeads, MarkOk;
    var olds := McuReader.ReadMcus(j.f, s, was, planes);
    var mcus;
    ok, mcus := CodeMcus(j, b, info, s, interval, marker, sent, olds);
    complete := false;
    if ok {
      ShowsNext(j.f, j.order, j.image, b, info, s, sent, olds, mcus);
      complete := PlaceMcus(j.f, j.order, b, info, j.image, s, mcus, planes, rooms);
    }
  }

  // ---- The script ----

  /** Every scan carries on with what the scans before it have left. */
  lemma DcLeadsNext(b: Marks, info: Scan, precision: nat)
    requires DcLeads(b) && ProgressiveOk(b, info, precision)
    ensures DcLeads(Marked(b, info))
  {
    hide CarriesOn;
    forall c, k | 0 <= c < |b| && 0 <= k < 64 ensures Marked(b, info)[c][0] < 0 ==> Marked(b, info)[c][k] < 0 {
      MarkedAt(b, info, c, 0);
      MarkedAt(b, info, c, k);
      assert InScan(info, c) ==> ComponentOk(b, info, c);
    }
  }

  lemma FreshOk(n: nat)
    ensures MarksOk(Fresh(n)) && DcLeads(Fresh(n))
  {
  }

  /** Arrays that have just been allocated. */
  ghost predicate Blank(f: Frame, planes: seq<array2<Block>>)
    requires FrameOk(f) && Arrays(f, planes)
    reads planes
  {
    forall c, row, x :: 0 <= c < |f.comps| && 0 <= row < planes[c].Length0 && 0 <= x < planes[c].Length1 ==> planes[c][row, x] == Zeros()
  }

  lemma BlankHolds(f: Frame, order: Order, image: seq<Plane>, planes: seq<array2<Block>>)
    requires FrameOk(f) && ImageOk(f, image) && Arrays(f, planes) && Blank(f, planes)
    ensures MarksOk(Fresh(|f.comps|)) && ImageOk(f, PartialOf(order, Fresh(|f.comps|), image))
    ensures Holds(f, PartialOf(order, Fresh(|f.comps|), image), planes)
  {
    var b := Fresh(|f.comps|);
    FreshOk(|f.comps|);
    PartialOk(f, order, b, image);
    hide Partial;
    forall c | 0 <= c < |f.comps| ensures McuDecoder.Complete(f.comps[c], PartialOf(order, b, image)[c], planes[c]) {
      BlankComplete(f, order, image, planes, c);
    }
  }

  lemma BlankComplete(f: Frame, order: Order, image: seq<Plane>, planes: seq<array2<Block>>, c: nat)
    requires FrameOk(f) && ImageOk(f, image) && Arrays(f, planes) && Blank(f, planes) && c < |f.comps| && MarksOk(Fresh(|f.comps|))
    requires ImageOk(f, PartialOf(order, Fresh(|f.comps|), image))
    ensures McuDecoder.Complete(f.comps[c], PartialOf(order, Fresh(|f.comps|), image)[c], planes[c])
  {
    var b := Fresh(|f.comps|);
    var k := f.comps[c];
    RealInRoom(f, c, planes[c]);
    hide Partial;
    forall row, x | 0 <= row < k.height && 0 <= x < k.width ensures planes[c][row, x] == PartialOf(order, b, image)[c][row][x] {
      NothingKnown(order, b[c], image[c][row][x]);
    }
  }

  lemma RealInRoom(f: Frame, c: nat, a: array2<Block>)
    requires FrameOk(f) && c < |f.comps| && McuEncoder.Room(f, c, a)
    ensures f.comps[c].height <= a.Length0 && f.comps[c].width <= a.Length1
  {
    CompFits(f, c);
  }

  /** What is known after the first i scans, and the rest of the script. */
  ghost predicate Along(j: Job, script: seq<Scan>, i: nat, b: Marks, planes: seq<array2<Block>>)
    requires JobOk(j) && Arrays(j.f, planes) && i <= |script|
    reads planes
  {
    && |b| == |j.f.comps| && MarksOk(b) && DcLeads(b) && Accepted(script, i, b, j.precision)
    && After(script, i, b) == After(script, 0, Fresh(|b|))
    && ImageOk(j.f, PartialOf(j.order, b, j.image)) && Holds(j.f, PartialOf(j.order, b, j.image), planes)
  }

  lemma AlongNext(j: Job, script: seq<Scan>, i: nat, b: Marks, planes: seq<array2<Block>>)
    requires JobOk(j) && Arrays(j.f, planes) && i < |script| && |b| == |j.f.comps| && MarksOk(b) && DcLeads(b)
    requires Accepted(script, i, b, j.precision) && After(script, i, b) == After(script, 0, Fresh(|b|)) && MarksOk(Marked(b, script[i]))
    requires ImageOk(j.f, PartialOf(j.order, Marked(b, script[i]), j.image)) && Holds(j.f, PartialOf(j.order, Marked(b, script[i]), j.image), planes)
    ensures Along(j, script, i + 1, Marked(b, script[i]), planes)
  {
    hide MarksOk, DcLeads, PartialOf, Holds, Marked, FrameOk, ImageOk, ProgressiveOk, CoderOk, Arrays;
    DcLeadsNext(b, script[i], j.precision);
  }

  /** Every scan can be coded. */
  predicate ScriptCodes(j: Job, script: seq<Scan>, intervals: seq<nat>, i: nat)
    requires JobOk(j) && i <= |script| == |intervals|
  {
    forall k :: i <= k < |script| ==> ScanCodes(j, script[k], intervals[k])
  }

  predicate AllEnough(j: Job, script: seq<Scan>, rooms: seq<seq<nat>>)
    requires JobOk(j) && |script| == |rooms|
  {
    forall k :: 0 <= k < |script| ==> EnoughFor(j, script[k], rooms[k])
  }

  /** How the coefficient controller runs: the first scan stores the image while it sends it; one
      scan alone, if no tables have to be made for it, needs no arrays. */
  function ModeOf(j: Job, script: seq<Scan>, i: nat): Mode {
    if |script| == 1 && j.coder.Arithmetic? then PassThru else if i == 0 then SaveAndPass else CrankDest
  }

  /** The MCUs of a scan. */
  method SendScan(j: Job, script: seq<Scan>, i: nat, s: ScanComps, wholeImage: seq<array2<Block>>, rooms: seq<nat>)
      returns (sent: seq<seq<Block>>, finished: bool)
    requires JobOk(j) && ScanOk(j.f, s) && BlocksInMcu(j.f, s, |s|) <= McuEncoder.C_MAX_BLOCKS_IN_MCU && i < |script|
    requires Arrays(j.f, wholeImage) && (i > 0 ==> AllStored(j.f, j.image, wholeImage, TotalIMcuRows(j.f)))
    modifies wholeImage
    ensures finished ==> sent == AllMcus(j.f, s, j.image)
    ensures Enough(j.f, s, j.image, rooms) ==> finished
    ensures finished && i + 1 < |script| ==> AllStored(j.f, j.image, wholeImage, TotalIMcuRows(j.f))
  {
    hide AllMcus, AllStored, FrameOk, ImageOk, Enough, CoderOk;
    var dummyBuffer := new Block[0];
    sent, finished := McuController.RunPass(j.f, s, j.image, ModeOf(j, script, i), wholeImage, dummyBuffer, rooms);
  }

  predicate Apart(planes: seq<array2<Block>>, wholeImage: seq<array2<Block>>) {
    forall c, d :: 0 <= c < |planes| && 0 <= d < |wholeImage| ==> planes[c] != wholeImage[d]
  }

  /** Scan i of the script. */
  method NextScan(j: Job, script: seq<Scan>, i: nat, ghost b: Marks, interval: nat, marker: seq<byte>, wholeImage: seq<array2<Block>>,
      planes: seq<array2<Block>>, sending: seq<nat>, receiving: seq<nat>) returns (outcome: ImageRoundTrip.Outcome)
    requires JobOk(j) && i < |script| && Arrays(j.f, planes) && Along(j, script, i, b, planes) && IsMarker(marker)
    requires ScanCountable(j, script[i], interval) && Arrays(j.f, wholeImage) && Apart(planes, wholeImage)
    requires i > 0 ==> AllStored(j.f, j.image, wholeImage, TotalIMcuRows(j.f))
    modifies wholeImage, planes
    ensures outcome.Restored? ==> ScanCodes(j, script[i], interval) && Along(j, script, i + 1, Marked(b, script[i]), planes)
    ensures outcome.Restored? && i + 1 < |script| ==> AllStored(j.f, j.image, wholeImage, TotalIMcuRows(j.f))
    ensures EnoughFor(j, script[i], sending) && EnoughFor(j, script[i], receiving) && !outcome.Restored? ==> !ScanCodes(j, script[i], interval)
  {
    var info := script[i];
    ProgressiveValid(b, info, j.precision);
    ScanShape(j.f, j.image, info, j.precision, interval);
    PartialOk(j.f, j.order, b, j.image);
    PartialOk(j.f, j.order, Marked(b, info), j.image);
    ghost var was := PartialOf(j.order, b, j.image);
    assert Holds(j.f, was, planes);
    var s := CompsOf(info, |j.f.comps|);
    if BlocksInMcu(j.f, s, |s|) > McuEncoder.C_MAX_BLOCKS_IN_MCU { return ImageRoundTrip.NotEncodable; }
    assert EnoughFor(j, info, sending) ==> Enough(j.f, s, j.image, sending);
    assert EnoughFor(j, info, receiving) ==> Enough(j.f, s, j.image, receiving);
    hide AllMcus, PartialOf, Marked, BlocksInMcu, Enough, EnoughFor, Holds, FrameOk, ImageOk, ProgressiveOk, ScanCodes,
      ScanCountable, CoderOk, DcLeads, MarkOk, AllStored;
    var sent, finished := SendScan(j, script, i, s, wholeImage, sending);
    if !finished { return ImageRoundTrip.EncoderSuspended; }
    assert Holds(j.f, was, planes);
    var ok, complete := RunScan(j, b, info, s, interval, marker, sent, planes, receiving);
    if !ok { return ImageRoundTrip.NotEncodable; }
    if !complete { return ImageRoundTrip.DecoderSuspended; }
    AlongNext(j, script, i, b, planes);
    outcome := ImageRoundTrip.Restored;
  }

  lemma AlongEnd(j: Job, script: seq<Scan>, b: Marks, planes: seq<array2<Block>>)
    requires JobOk(j) && Arrays(j.f, planes) && Along(j, script, |script|, b, planes)
    ensures var last := After(script, 0, Fresh(|j.f.comps|));
      && MarksOk(last) && ImageOk(j.f, PartialOf(j.order, last, j.image)) && Holds(j.f, PartialOf(j.order, last, j.image), planes)
    ensures SimpleProgression.Complete(After(script, 0, Fresh(|j.f.comps|))) ==> Holds(j.f, j.image, planes)
  {
    hide MarksOk, DcLeads, PartialOf, Holds, Arrays, CoderOk, FrameOk;
    if SimpleProgression.Complete(b) { FullImage(j.order, b, j.image); }
  }

  /** All scans of a progressive script, through the whole of both sides.  As long as neither side
      is idle, the file is written and read back exactly if every scan can be coded; the arrays
      then hold of every coefficient the bits that the script has sent, and if it has sent all of
      them, they hold the image. */
  method RunScript(j: Job, script: seq<Scan>, intervals: seq<nat>, markers: seq<seq<byte>>, wholeImage: seq<array2<Block>>,
      planes: seq<array2<Block>>, sending: seq<seq<nat>>, receiving: seq<seq<nat>>) returns (outcome: ImageRoundTrip.Outcome)
    requires JobOk(j) && |script| == |intervals| == |sending| == |receiving| == |markers|
    requires Accepted(script, 0, Fresh(|j.f.comps|), j.precision)
    requires forall k :: 0 <= k < |script| ==> ScanCountable(j, script[k], intervals[k]) && IsMarker(markers[k])
    requires Arrays(j.f, wholeImage) && Arrays(j.f, planes) && Apart(planes, wholeImage) && Blank(j.f, planes)
    modifies wholeImage, planes
    ensures var b := After(script, 0, Fresh(|j.f.comps|));
      outcome.Restored? ==>
        && MarksOk(b) && ImageOk(j.f, PartialOf(j.order, b, j.image)) && Holds(j.f, PartialOf(j.order, b, j.image), planes)
        && (SimpleProgression.Complete(b) ==> Holds(j.f, j.image, planes))
    ensures AllEnough(j, script, sending) && AllEnough(j, script, receiving) ==> (outcome.Restored? <==> ScriptCodes(j, script, intervals, 0))
  {
    hide IsMarker, ScanCodes, ScanCountable, EnoughFor, Along, Arrays, Apart, CoderOk, ImageOk, PartialOf, Holds, Marked,
      MarksOk, AllStored, SimpleProgression.Complete;
    ghost var b := Fresh(|j.f.comps|);
    Starts(j, script, planes);
    for i := 0 to |script|
      invariant Along(j, script, i, b, planes)
      invariant 0 < i < |script| ==> AllStored(j.f, j.image, wholeImage, TotalIMcuRows(j.f))
      invariant forall k :: 0 <= k < i ==> ScanCodes(j, script[k], intervals[k])
    {
      outcome := NextScan(j, script, i, b, intervals[i], markers[i], wholeImage, planes, sending[i], receiving[i]);
      if !outcome.Restored? { return; }
      b := Marked(b, script[i]);
    }
    AlongEnd(j, script, b, planes);
    outcome := ImageRoundTrip.Restored;
  }

  lemma Starts(j: Job, script: seq<Scan>, planes: seq<array2<Block>>)
    requires JobOk(j) && Arrays(j.f, planes) && Blank(j.f, planes) && Accepted(script, 0, Fresh(|j.f.comps|), j.precision)
    ensures Along(j, script, 0, Fresh(|j.f.comps|), planes)
  {
    hide CoderOk, Arrays, Blank, Holds;
    FreshOk(|j.f.comps|);
    BlankHolds(j.f, j.order, j.image, planes);
  }
}
