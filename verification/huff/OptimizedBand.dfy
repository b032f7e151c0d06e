/** AC scans of a progressive file with optimized tables: statistics are gathered over all restart
    intervals of a scan, and the tables made for them serve all of them. */
module OptimizedBand {
  import opened Radix
  import opened ByteStream
  import opened Blocks
  import opened HuffCode
  import opened HuffDecode
  import opened HuffTables
  import opened HuffTokens
  import opened EobRuns
  import opened HuffScan
  import opened SymbolUse
  import opened TwoPass
  import opened AcRefineDecoder
  import opened AcRefineRoundTrip
  import AcFirst
  import AcRefine
  import AcRefineScan
  import HuffBlock
  import Progression

  /** One scan of a band: the first one, or one for another bit. */
  datatype Band = Band(refine: bool, order: Order, ss: nat, se: nat, al: nat)

  predicate BandOk(b: Band) { 1 <= b.ss <= b.se < 64 && b.al <= 13 }

  /** What the scan of one restart interval sends. */
  function IntervalTokens(b: Band, srcs: seq<Block>): seq<Token>
    requires BandOk(b)
  {
    if b.refine then Stream(0, AcRefineScan.Items(0, b.ss, b.se, b.al, b.order, srcs), 0, 0)
    else Stream(0, AcFirst.Items(0, b.ss, b.se, b.al, b.order, srcs), 0, 0)
  }

  /** What the first k intervals send. */
  function BandTokens(b: Band, segments: seq<seq<Block>>, k: nat): seq<Token>
    requires BandOk(b) && k <= |segments|
  {
    if k == 0 then [] else BandTokens(b, segments, k - 1) + IntervalTokens(b, segments[k - 1])
  }

  /** A refinement scan has no coefficients that are out of range. */
  predicate IntervalInRange(b: Band, srcs: seq<Block>)
    requires BandOk(b)
  {
    b.refine || AcFirst.AllInRange(b.ss, b.se, b.al, b.order, srcs)
  }

  predicate BandInRange(b: Band, segments: seq<seq<Block>>, k: nat)
    requires BandOk(b) && k <= |segments|
  {
    forall j :: 0 <= j < k ==> IntervalInRange(b, segments[j])
  }

  /** Some interval has a block. */
  predicate SomeBlock(segments: seq<seq<Block>>) {
    exists k :: 0 <= k < |segments| && segments[k] != []
  }

  /** How often the scan uses each symbol. */
  function BandUses(b: Band, segments: seq<seq<Block>>): (f: seq<nat>)
    requires BandOk(b)
    ensures |f| == 257
  {
    Uses(BandTokens(b, segments, |segments|), 0)
  }

  /** The items of an interval are those of one table. */
  lemma IntervalOrderly(b: Band, srcs: seq<Block>) returns (items: seq<Item>)
    requires BandOk(b) && IntervalInRange(b, srcs)
    ensures |items| == |srcs| && ItemsOk(items) && IntervalTokens(b, srcs) == Stream(0, items, 0, 0)
    ensures forall i :: 0 <= i < |items| ==> Orderly(0, items[i])
  {
    hide Orderly, AcRefine.ItemOf, HuffBlock.ItemOf, HuffBlock.BandInRange, ZigZag, Stream;
    if b.refine {
      items := AcRefineScan.Items(0, b.ss, b.se, b.al, b.order, srcs);
      forall i | 0 <= i < |items| ensures Orderly(0, items[i]) {
        RefineOrderly(AcRefine.BandOf(0, b.ss, b.se, srcs[i], b.order, b.al));
      }
    } else {
      items := AcFirst.Items(0, b.ss, b.se, b.al, b.order, srcs);
      forall i | 0 <= i < |items| ensures Orderly(0, items[i]) {
        assert HuffBlock.BandInRange(ZigZag(srcs[i], b.order, b.al), b.ss, b.se);
        FirstOrderly(0, ZigZag(srcs[i], b.order, b.al), b.ss, b.se);
      }
    }
  }

  lemma {:induction false} BandSized(b: Band, segments: seq<seq<Block>>, k: nat, x: Token)
    requires BandOk(b) && k <= |segments| && BandInRange(b, segments, k) && x in BandTokens(b, segments, k)
    ensures Sized(x)
  {
    hide IntervalTokens, IntervalInRange, Orderly, Sized, Stream;
    if x in IntervalTokens(b, segments[k - 1]) {
      var items := IntervalOrderly(b, segments[k - 1]);
      StreamSized(0, items, 0, 0, x);
    } else {
      BandSized(b, segments, k - 1, x);
    }
  }

  lemma {:induction false} SomeUse(b: Band, segments: seq<seq<Block>>, k: nat, j: nat)
    requires BandOk(b) && j < k <= |segments| && segments[j] != [] && BandInRange(b, segments, k)
    ensures SomeSym(BandTokens(b, segments, k), 0)
  {
    hide IntervalTokens, IntervalInRange, Orderly, SomeSym, Stream;
    if j < k - 1 {
      SomeUse(b, segments, k - 1, j);
    } else {
      var items := IntervalOrderly(b, segments[j]);
      StreamUses(0, items);
    }
    InEither(BandTokens(b, segments, k - 1), IntervalTokens(b, segments[k - 1]), 0);
  }

  /** The table generator can work on the counts. */
  lemma BandModerate(b: Band, segments: seq<seq<Block>>)
    requires BandOk(b) && SomeBlock(segments) && BandInRange(b, segments, |segments|) && Countable(BandUses(b, segments))
    ensures Moderate(BandUses(b, segments))
  {
    hide BandTokens, IntervalInRange, Sized, SomeSym, Moderate, Countable, Uses;
    var j :| 0 <= j < |segments| && segments[j] != [];
    var xs := BandTokens(b, segments, |segments|);
    forall x | x in xs ensures Sized(x) { BandSized(b, segments, |segments|, x); }
    SomeUse(b, segments, |segments|, j);
    UsesModerate(xs, 0);
  }

  method EncodeInterval(e: RunEncoder, b: Band, srcs: seq<Block>) returns (ok: bool)
    requires e.Valid() && e.Pending() == NONE && e.acTblNo == 0 && BandOk(b)
    modifies e, e.sink, e.sink.w, e.bitBuffer
    ensures ok == (IntervalInRange(b, srcs) && e.sink.Can(IntervalTokens(b, srcs)))
    ensures ok ==> e.sink.Valid() && e.sink.sent == old(e.sink.sent) + IntervalTokens(b, srcs)
  {
    hide Sink.Valid, Sink.Can, Stream, AcFirst.Items, AcRefineScan.Items, AcFirst.AllInRange;
    if b.refine {
      ok := AcRefineScan.EncodeScan(e, srcs, b.order, b.ss, b.se, b.al);
    } else {
      ok := AcFirst.EncodeScan(e, srcs, b.order, b.ss, b.se, b.al);
    }
  }

  /** The statistics pass; counting never meets a missing code. */
  method GatherBand(b: Band, segments: seq<seq<Block>>) returns (ok: bool, counts: seq<nat>)
    requires BandOk(b)
    ensures ok == BandInRange(b, segments, |segments|)
    ensures ok ==> |counts| == 257 && forall s: byte :: counts[s] == Count(BandTokens(b, segments, |segments|), 0, s)
    ensures ok ==> forall x :: x in BandTokens(b, segments, |segments|) && x.Sym? ==> x.tab == 0
  {
    hide IntervalTokens, IntervalInRange, Count;
    ghost var none: Table := HuffTbl(seq(17, _ => 0), seq(256, _ => 0));
    var sink := new Sink.Gather([none], 1);
    counts := [];
    for k := 0 to |segments|
      invariant sink.Valid() && sink.gather && fresh(sink) && fresh(sink.w) && |sink.tabs| == 1
      invariant sink.sent == BandTokens(b, segments, k) && BandInRange(b, segments, k)
    {
      var e := new RunEncoder(sink, 0);
      ok := EncodeInterval(e, b, segments[k]);
      if !ok { return; }
    }
    ok := true;
    counts := sink.counts[0];
  }

  /** finish_pass_gather: tables with a code for every symbol of the scan. */
  method BandTables(b: Band, segments: seq<seq<Block>>) returns (ok: bool, ct: CTable, d: DTable)
    requires BandOk(b) && SomeBlock(segments) && Countable(BandUses(b, segments))
    ensures ok == (BandInRange(b, segments, |segments|) && Accepted(BandUses(b, segments)))
    ensures ok ==> Progression.TablesOk(ct, d) && AllSendable([d.pub], BandTokens(b, segments, |segments|))
  {
    hide BandTokens, BandInRange, Count, Moderate, Countable, Accepted, Derived, Good, Encodes, Sizes, Sendable;
    ghost var xs := BandTokens(b, segments, |segments|);
    var counts, t;
    ok, counts := GatherBand(b, segments);
    ct, d := CTable([], []), DTable([], [], [], [], HuffTbl(seq(17, _ => 0), seq(256, _ => 0)));
    if !ok { return; }
    BandModerate(b, segments);
    var freq := new nat[257](i requires 0 <= i < 257 => counts[i]);
    ok, ct, d, t := MakeTables(freq, false, Uses(xs, 0));
    if !ok { return; }
    forall u, s: byte | 0 <= u < 1 && Count(xs, u, s) > 0 ensures HasCode([t][u], s) { assert Uses(xs, 0)[s] == Count(xs, 0, s); }
    CountedSuffices([t], xs);
  }

  /** What suffices for all intervals suffices for each of them. */
  lemma {:induction false} EachInterval(b: Band, segments: seq<seq<Block>>, tabs: seq<Table>, k: nat, j: nat)
    requires BandOk(b) && j < k <= |segments| && AllSendable(tabs, BandTokens(b, segments, k))
    ensures AllSendable(tabs, IntervalTokens(b, segments[j]))
  {
    hide IntervalTokens, Sendable;
    StreamAppend(tabs, BandTokens(b, segments, k - 1), IntervalTokens(b, segments[k - 1]));
    if j < k - 1 { EachInterval(b, segments, tabs, k - 1, j); }
  }

  // ---- Round trips ----

  /** Every block of every interval is known with al low bits missing. */
  ghost predicate KnownTo(b: Band, al: nat, segments: seq<seq<Block>>, got: seq<seq<Block>>)
  {
    |got| == |segments| && forall k :: 0 <= k < |segments| ==> Progression.AllKnown(b.order, b.ss, b.se, al, segments[k], got[k])
  }

  /** The decoder's block is as the scan needs it. */
  predicate Ready(b: Band, src: Block, was: Block) {
    if b.refine then Progression.Known(b.order, b.ss, b.se, b.al + 1, src, was) else Progression.Blank(b.order, b.ss, b.se, was)
  }

  ghost predicate AllReady(b: Band, srcs: seq<Block>, olds: seq<Block>) {
    |olds| == |srcs| && forall i :: 0 <= i < |srcs| ==> Ready(b, srcs[i], olds[i])
  }

  ghost predicate AllMoved(b: Band, srcs: seq<Block>, olds: seq<Block>, got: seq<Block>) {
    |srcs| == |olds| == |got| && forall i :: 0 <= i < |srcs| ==> Progression.Moved(b.order, b.ss, b.se, b.al, srcs[i], olds[i], got[i])
  }

  /** One interval of a scan, through given tables. */
  method IntervalRoundTrip(b: Band, ct: CTable, d: DTable, srcs: seq<Block>, olds: seq<Block>, marker: seq<byte>) returns (got: seq<Block>)
    requires BandOk(b) && Progression.TablesOk(ct, d) && IsMarker(marker)
    requires IntervalInRange(b, srcs) && AllSendable([d.pub], IntervalTokens(b, srcs))
    requires AllReady(b, srcs, olds)
    ensures AllMoved(b, srcs, olds, got)
  {
    hide Derived, Good, Encodes, Progression.Known, Progression.Blank, Progression.Moved, Mixed, Refined, AcFirst.Decoded;
    hide AllSendable, Stream, AcFirst.Items, AcRefineScan.Items, AcFirst.AllInRange;
    var ok;
    if b.refine {
      var c := Refinement(d, b.ss, b.se, b.al, b.order);
      forall i | 0 <= i < |srcs| ensures Mixed(c, srcs[i], olds[i], olds[i], c.ss) { Progression.OneMoreKnown(c, srcs[i], olds[i], olds[i]); }
      ok, got := AcRefineScan.RefineRoundTrip(c, ct, srcs, olds, marker);
      forall i | 0 <= i < |srcs| ensures Progression.Moved(b.order, b.ss, b.se, b.al, srcs[i], olds[i], got[i]) {
        Progression.RefinedMoved(c, srcs[i], olds[i], got[i]);
      }
    } else {
      var first;
      ok, first := AcFirst.FirstRoundTrip(ct, d, b.order, b.ss, b.se, b.al, srcs, olds, marker);
      forall i | 0 <= i < |srcs|
        ensures |first[i]| == 64 && (forall p :: 0 <= p < 64 ==> -0x8000 <= first[i][p] < 0x8000)
        ensures Progression.Moved(b.order, b.ss, b.se, b.al, srcs[i], olds[i], first[i])
      {
        Progression.DecodedSize(first[i], olds[i], srcs[i], b.order, b.ss, b.se, b.al);
        Progression.FirstMoved(b.order, b.ss, b.se, b.al, srcs[i], olds[i], first[i]);
      }
      got := first;
    }
  }

  /** One scan: it cannot be coded exactly if a coefficient of a first scan is out of range, or the
      counts make a code too long. */
  method OptimizedScan(b: Band, segments: seq<seq<Block>>, olds: seq<seq<Block>>, marker: seq<byte>) returns (ok: bool, got: seq<seq<Block>>)
    requires BandOk(b) && IsMarker(marker) && SomeBlock(segments) && Countable(BandUses(b, segments))
    requires |olds| == |segments| && forall k :: 0 <= k < |segments| ==> AllReady(b, segments[k], olds[k])
    ensures ok == (BandInRange(b, segments, |segments|) && Accepted(BandUses(b, segments)))
    ensures ok ==> |got| == |segments| && forall k :: 0 <= k < |segments| ==> AllMoved(b, segments[k], olds[k], got[k])
  {
    hide Countable, Accepted, BandUses, BandTokens, IntervalTokens, IntervalInRange, AllSendable, Progression.TablesOk,
      AllReady, AllMoved, IsMarker, Behind;
    got := [];
    var ct, d;
    ok, ct, d := BandTables(b, segments);
    if !ok { return; }
    for k := 0 to |segments|
      invariant |got| == k && forall j :: 0 <= j < k ==> AllMoved(b, segments[j], olds[j], got[j])
    {
      EachInterval(b, segments, [d.pub], |segments|, k);
      BehindIsMarker(k, |segments|, marker);
      var blks := IntervalRoundTrip(b, ct, d, segments[k], olds[k], Behind(k, |segments|, marker));
      got := got + [blks];
    }
  }

  /** The scan for one bit of the band. */
  function BitBand(order: Order, ss: nat, se: nat, al: nat, bit: nat): Band { Band(bit < al, order, ss, se, bit) }

  /** The scans for the bits from low on have counts that the table generator accepts. */
  predicate AllAccepted(order: Order, ss: nat, se: nat, al: nat, segments: seq<seq<Block>>, low: nat)
    requires 1 <= ss <= se < 64 && al <= 13
  {
    forall bit :: low <= bit <= al ==> Accepted(BandUses(BitBand(order, ss, se, al, bit), segments))
  }

  /** A band in a first scan with the low al bits missing, and a scan for each of them, every scan
      with tables of its own: no scan meets a missing code, and the decoder ends up with exactly
      the coefficients of the encoder, exactly if none is out of range for the first scan and no scan
      has counts that make a code too long. */
  method OptimizedBandRoundTrip(order: Order, ss: nat, se: nat, al: nat, segments: seq<seq<Block>>, marker: seq<byte>)
      returns (ok: bool, got: seq<seq<Block>>)
    requires 1 <= ss <= se < 64 && al <= 13 && IsMarker(marker) && SomeBlock(segments)
    requires forall bit :: 0 <= bit <= al ==> Countable(BandUses(BitBand(order, ss, se, al, bit), segments))
    ensures ok == (BandInRange(BitBand(order, ss, se, al, al), segments, |segments|) && AllAccepted(order, ss, se, al, segments, 0))
    ensures ok ==> |got| == |segments| && forall k :: 0 <= k < |segments| ==> AllExact(order, ss, se, segments[k], got[k])
  {
    hide Countable, Accepted, BandUses, BandTokens, AcFirst.AllInRange, KnownTo, AllExact, IsMarker;
    var first := BitBand(order, ss, se, al, al);
    var zeros: seq<seq<Block>> := seq(|segments|, k requires 0 <= k < |segments| => seq(|segments[k]|, _ => Zeros()));
    ok, got := OptimizedScan(first, segments, zeros, marker);
    if !ok { return; }
    AllMovedKnown(first, segments, zeros, got);
    var bit := al;
    while bit > 0
      invariant ok && 0 <= bit <= al && KnownTo(first, bit, segments, got)
      invariant BandInRange(first, segments, |segments|) && AllAccepted(order, ss, se, al, segments, bit)
    {
      bit := bit - 1;
      var b := BitBand(order, ss, se, al, bit);
      SameBand(first, b, bit + 1, segments, got);
      KnownReady(b, segments, got);
      ghost var was := got;
      ok, got := OptimizedScan(b, segments, got, marker);
      if !ok { return; }
      AllMovedKnown(b, segments, was, got);
      SameBand(first, b, bit, segments, got);
    }
    KnownLength(first, segments, got);
    forall k | 0 <= k < |segments| ensures AllExact(order, ss, se, segments[k], got[k]) { KnownIsExact(first, segments, got, k); }
  }

  lemma AllMovedKnown(b: Band, segments: seq<seq<Block>>, olds: seq<seq<Block>>, got: seq<seq<Block>>)
    requires |olds| == |got| == |segments| && forall k :: 0 <= k < |segments| ==> AllMoved(b, segments[k], olds[k], got[k])
    ensures KnownTo(b, b.al, segments, got)
  {
    hide Progression.Known, Progression.Moved;
    forall k, i | 0 <= k < |segments| && 0 <= i < |segments[k]|
      ensures |got[k]| == |segments[k]| && Progression.Known(b.order, b.ss, b.se, b.al, segments[k][i], got[k][i])
    {
      Progression.MovedKnown(b.order, b.ss, b.se, b.al, segments[k][i], olds[k][i], got[k][i]);
    }
  }

  lemma KnownReady(b: Band, segments: seq<seq<Block>>, got: seq<seq<Block>>)
    requires b.refine && KnownTo(b, b.al + 1, segments, got)
    ensures |got| == |segments| && forall k :: 0 <= k < |segments| ==> AllReady(b, segments[k], got[k])
  {
    hide Progression.Known;
    forall k | 0 <= k < |segments| ensures AllReady(b, segments[k], got[k]) {
      assert Progression.AllKnown(b.order, b.ss, b.se, b.al + 1, segments[k], got[k]);
    }
  }

  lemma SameBand(a: Band, b: Band, al: nat, segments: seq<seq<Block>>, got: seq<seq<Block>>)
    requires a.order == b.order && a.ss == b.ss && a.se == b.se
    ensures KnownTo(a, al, segments, got) == KnownTo(b, al, segments, got)
  {
    hide Progression.AllKnown;
  }

  ghost predicate AllExact(order: Order, ss: nat, se: nat, srcs: seq<Block>, got: seq<Block>) {
    |got| == |srcs| && forall i, j :: 0 <= i < |srcs| && 0 <= j < 64 && ss <= j <= se ==> got[i][order[j]] == srcs[i][order[j]]
  }

  lemma KnownLength(b: Band, segments: seq<seq<Block>>, got: seq<seq<Block>>)
    requires KnownTo(b, 0, segments, got)
    ensures |got| == |segments|
  {
  }

  lemma KnownIsExact(b: Band, segments: seq<seq<Block>>, got: seq<seq<Block>>, k: nat)
    requires KnownTo(b, 0, segments, got) && k < |segments|
    ensures AllExact(b.order, b.ss, b.se, segments[k], got[k])
  {
    hide Progression.Known;
    assert Progression.AllKnown(b.order, b.ss, b.se, 0, segments[k], got[k]);
    forall i, j | 0 <= i < |segments[k]| && 0 <= j < 64 && b.ss <= j <= b.se
      ensures got[k][i][b.order[j]] == segments[k][i][b.order[j]]
    {
      Progression.KnownExactly(b.order, b.ss, b.se, segments[k][i], got[k][i], j);
    }
  }
}
