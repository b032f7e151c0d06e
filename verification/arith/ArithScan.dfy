/** A whole arithmetic-coded segment: start of pass, every MCU, end of pass; and back. */
module ArithScan {
  import opened Radix
  import opened ByteStream
  import opened ArithTable
  import opened ArithModel
  import opened Blocks
  import opened ArithBlock
  import opened ArithEncoder
  import opened ArithDecoder
  import opened ArithMcuEncoder
  import opened ArithMcuDecoder
  import opened ArithRoundTrip

  /** start_pass zeroes the statistics areas; the fixed bin is entry 113 of the table. */
  function FreshStats(): (s: Stats)
    ensures Areas(s)
  {
    (map tbl: nat, off: nat | tbl < NUM_ARITH_TBLS && off < DC_STAT_BINS :: Dc(tbl, off) := 0) +
    (map tbl: nat, off: nat | tbl < NUM_ARITH_TBLS && off < AC_STAT_BINS :: Ac(tbl, off) := 0) +
    map[Fixed := 113]
  }

  function FreshDcs(s: Scan): (p: Dcs)
    ensures DcsOk(s, p)
  {
    Dcs(seq(|s.comps|, _ => 0), seq(|s.comps|, _ => 0))
  }

  predicate Fits(s: Scan, mcus: seq<seq<Block>>) {
    ScanOk(s) && forall i :: 0 <= i < |mcus| ==> |mcus[i]| == |s.membership|
  }

  function ScanDecisions(s: Scan, i: nat, mcus: seq<seq<Block>>, p: Dcs): seq<Decision>
    requires Fits(s, mcus) && DcsOk(s, p) && i <= |mcus|
    decreases |mcus| - i
  {
    if i == |mcus| then []
    else McuDecisions(s, 0, mcus[i], p) + ScanDecisions(s, i + 1, mcus, McuNext(s, 0, mcus[i], p))
  }

  /** No DC difference of the segment is larger than the decoder takes. */
  predicate AllDiffsOk(s: Scan, i: nat, mcus: seq<seq<Block>>, p: Dcs)
    requires Fits(s, mcus) && DcsOk(s, p) && i <= |mcus|
    decreases |mcus| - i
  {
    i == |mcus| ||
    (DiffsOk(s, 0, mcus[i], p) && AllDiffsOk(s, i + 1, mcus, McuNext(s, 0, mcus[i], p)))
  }

  method EncodeScan(tab: Aritab, scan: Scan, mcus: seq<seq<Block>>) returns (out: seq<byte>, stats: Stats, ghost last: Coder)
    requires Fits(scan, mcus)
    ensures stats == last.stats
    ensures var ds := ScanDecisions(scan, 0, mcus, FreshDcs(scan));
      Known(Coder(START, FreshStats()), ds) && last == Run(tab, Coder(START, FreshStats()), ds)
    ensures forall tail :: IsMarker(tail) ==> Terminated(out + tail) && Contains(DataOf(out + tail), last.i)
  {
    hide Coded, Run, McuDecisions, McuNext, FreshStats, Areas, Stuff, DataOf, Terminated, IsMarker, Contains, Reaches;
    var e := new Encoder(tab, FreshStats());
    var dcs := new DcState(|scan.comps|);
    ghost var c0 := Coder(START, FreshStats());
    ghost var sofar, goal := [], ScanDecisions(scan, 0, mcus, dcs.View());
    assert Coded(e, c0, sofar) by { Started(e, c0); }
    assert dcs.View() == FreshDcs(scan);
    Join([], goal, []);
    assert [] + goal == goal;
    for i := 0 to |mcus|
      invariant fresh(e) && fresh(dcs) && e.tab == tab && Coded(e, c0, sofar) && DcsOk(scan, dcs.View())
      invariant sofar + ScanDecisions(scan, i, mcus, dcs.View()) == goal
    {
      ghost var ds := McuDecisions(scan, 0, mcus[i], dcs.View());
      EncodeMcu(e, scan, mcus[i], dcs, c0, sofar);
      Join(sofar, ds, ScanDecisions(scan, i + 1, mcus, dcs.View()));
      sofar := sofar + ds;
    }
    Join(sofar, [], []);
    last := Coder(e.Cur(), e.stats) by { Ended(e, c0, sofar); }
    Ended(e, c0, sofar);
    stats := e.stats;
    e.Finish();
    out := e.out;
    forall tail | IsMarker(tail) ensures Terminated(out + tail) && DataOf(out + tail) == e.data {
      Unstuff(e.data, tail);
    }
  }

  lemma Started(e: Encoder, c0: Coder)
    requires e.Valid() && Areas(e.stats) && e.View() == c0 && Ready(c0)
    ensures Coded(e, c0, [])
  {
  }

  lemma Ended(e: Encoder, c0: Coder, done: seq<Decision>)
    requires Coded(e, c0, done)
    ensures e.Valid() && Known(c0, done) && Ready(c0) && e.View() == Run(e.tab, c0, done)
  {
  }

  /** An MCU as the decoder hands it on: every block in zigzag order. */
  predicate McuRebuilt(s: Scan, got: seq<seq<int>>, mcu: seq<Block>) {
    s.se < 64 && |got| == |mcu| && forall b :: 0 <= b < |mcu| ==> got[b] == Rebuilt(s, Zeros(), mcu[b])
  }

  /** One MCU into zeroed buffers. */
  method DecodeOne(d: Decoder, scan: Scan, dcs: DcState, ghost mcu: seq<Block>, ghost rest: seq<Decision>, ghost last: Coder)
      returns (status: Status, got: seq<seq<int>>)
    requires Usable(d) && ScanOk(scan) && ContextsOk(scan, dcs.View()) && |mcu| == |scan.membership|
    modifies d, dcs
    ensures status == Fine ==> Usable(d) && ContextsOk(scan, dcs.View())
    ensures DcsOk(scan, old(dcs.View())) ==>
      old(Follows(d, McuDecisions(scan, 0, mcu, dcs.View()) + rest, last)) ==>
      && status != CantSuspend
      && (status == Fine <==> DiffsOk(scan, 0, mcu, old(dcs.View())))
      && (status == Fine ==>
            && Follows(d, rest, last) && dcs.View() == McuNext(scan, 0, mcu, old(dcs.View()))
            && McuRebuilt(scan, got, mcu))
  {
    hide Follows, Usable, McuDecisions, McuNext, Rebuilt, DiffsOk, ContextsOk, DcsOk;
    var blocks := NewBlocks(|scan.membership|);
    assert forall b :: 0 <= b < |blocks| ==> Zag(blocks[b], scan.order) == Zeros();
    got := [];
    status := DecodeMcu(d, scan, blocks, dcs, mcu, rest, last);
    if status != Fine { return; }
    got := Collect(blocks, scan.order);
  }

  /** The input goes on with MCU i and those behind it. */
  ghost predicate Comes(d: Decoder, scan: Scan, i: nat, mcus: seq<seq<Block>>, p: Dcs, last: Coder)
    requires Fits(scan, mcus) && i <= |mcus|
    reads d
  {
    DcsOk(scan, p) && Follows(d, ScanDecisions(scan, i, mcus, p) + [], last)
  }

  method DecodeNext(d: Decoder, scan: Scan, dcs: DcState, ghost i: nat, ghost mcus: seq<seq<Block>>, ghost last: Coder, ghost expected: bool)
      returns (status: Status, mcu: seq<seq<int>>)
    requires Usable(d) && Fits(scan, mcus) && i < |mcus| && ContextsOk(scan, dcs.View())
    requires expected ==> Comes(d, scan, i, mcus, dcs.View(), last)
    modifies d, dcs
    ensures status == Fine ==> Usable(d) && ContextsOk(scan, dcs.View())
    ensures expected && status != Fine ==> status != CantSuspend && !AllDiffsOk(scan, i, mcus, old(dcs.View()))
    ensures expected && status == Fine ==>
      && DcsOk(scan, dcs.View()) && Comes(d, scan, i + 1, mcus, dcs.View(), last) && McuRebuilt(scan, mcu, mcus[i])
      && AllDiffsOk(scan, i, mcus, old(dcs.View())) == AllDiffsOk(scan, i + 1, mcus, dcs.View())
  {
    hide Follows, Usable, McuDecisions, McuNext, McuRebuilt, DiffsOk, ContextsOk;
    ghost var p := dcs.View();
    ghost var rest := if expected then ScanDecisions(scan, i + 1, mcus, McuNext(scan, 0, mcus[i], p)) else [];
    if expected { JoinFollows(d, McuDecisions(scan, 0, mcus[i], p), rest, [], last); }
    status, mcu := DecodeOne(d, scan, dcs, mcus[i], rest + [], last);
  }

  /** All MCUs of a segment. */
  method DecodeAll(d: Decoder, scan: Scan, dcs: DcState, n: nat, ghost mcus: seq<seq<Block>>, ghost last: Coder, ghost expected: bool)
      returns (status: Status, got: seq<seq<seq<int>>>)
    requires Usable(d) && Fits(scan, mcus) && |mcus| == n && dcs.View() == FreshDcs(scan)
    requires expected ==> Comes(d, scan, 0, mcus, dcs.View(), last)
    modifies d, dcs
    ensures expected ==> status != CantSuspend && (status == Fine <==> AllDiffsOk(scan, 0, mcus, FreshDcs(scan)))
    ensures expected && status == Fine ==>
      d.stats == last.stats && |got| == n && forall i :: 0 <= i < n ==> McuRebuilt(scan, got[i], mcus[i])
  {
    ghost var p0 := FreshDcs(scan);
    hide Follows, Usable, ScanDecisions, McuRebuilt, AllDiffsOk, Comes, Fits;
    got := [];
    for i := 0 to n
      invariant Usable(d) && ContextsOk(scan, dcs.View())
      invariant expected ==> Comes(d, scan, i, mcus, dcs.View(), last)
      invariant expected ==> DcsOk(scan, dcs.View()) && AllDiffsOk(scan, i, mcus, dcs.View()) == AllDiffsOk(scan, 0, mcus, p0)
      invariant |got| == i && (expected ==> forall k :: 0 <= k < i ==> McuRebuilt(scan, got[k], mcus[k]))
    {
      var mcu;
      status, mcu := DecodeNext(d, scan, dcs, i, mcus, last, expected);
      if status != Fine { return; }
      got := got + [mcu];
    }
    status := Fine;
    if expected { ScanFinished(d, scan, mcus, dcs.View(), last); }
  }

  method DecodeScan(tab: Aritab, scan: Scan, input: seq<byte>, n: nat, ghost mcus: seq<seq<Block>>, ghost last: Coder)
      returns (status: Status, got: seq<seq<seq<int>>>, decoded: Stats)
    requires Fits(scan, mcus) && |mcus| == n
    ensures
      var ds := ScanDecisions(scan, 0, mcus, FreshDcs(scan));
      Terminated(input) && Known(Coder(START, FreshStats()), ds) && Run(tab, Coder(START, FreshStats()), ds) == last
        && Contains(DataOf(input), last.i) ==>
      && status != CantSuspend
      && (status == Fine <==> AllDiffsOk(scan, 0, mcus, FreshDcs(scan)))
      && (status == Fine ==> decoded == last.stats && |got| == n && forall i :: 0 <= i < n ==> McuRebuilt(scan, got[i], mcus[i]))
  {
    ghost var ds := ScanDecisions(scan, 0, mcus, FreshDcs(scan));
    hide Follows, Usable, Run, ScanDecisions, FreshStats, Areas, DataOf, Contains, McuRebuilt, AllDiffsOk, Comes, Known,
      Terminated, Fits;
    var d := new Decoder(tab, FreshStats(), input);
    var dcs := new DcState(|scan.comps|);
    assert dcs.View() == FreshDcs(scan);
    ghost var expected := Terminated(input) && Known(d.View(), ds) && Run(tab, d.View(), ds) == last && Contains(d.data, last.i);
    Begun(d, ds, last);
    if expected { ScanBegun(d, scan, mcus, last); }
    status, got := DecodeAll(d, scan, dcs, n, mcus, last, expected);
    decoded := d.stats;
  }

  lemma Begun(d: Decoder, ds: seq<Decision>, last: Coder)
    requires d.Valid() && Areas(d.stats)
    ensures Usable(d)
    ensures d.Supplied() && Known(d.View(), ds) && Run(d.tab, d.View(), ds) == last && Contains(d.data, last.i)
      ==> Follows(d, ds, last)
  {
  }

  lemma Finished(d: Decoder, last: Coder)
    requires Follows(d, [] + [], last)
    ensures d.stats == last.stats
  {
  }

  lemma ScanBegun(d: Decoder, scan: Scan, mcus: seq<seq<Block>>, last: Coder)
    requires Fits(scan, mcus) && Follows(d, ScanDecisions(scan, 0, mcus, FreshDcs(scan)), last)
    ensures Comes(d, scan, 0, mcus, FreshDcs(scan), last)
  {
    hide Follows;
    var ds := ScanDecisions(scan, 0, mcus, FreshDcs(scan));
    assert ds + [] == ds;
  }

  lemma ScanFinished(d: Decoder, scan: Scan, mcus: seq<seq<Block>>, p: Dcs, last: Coder)
    requires Fits(scan, mcus) && Comes(d, scan, |mcus|, mcus, p, last)
    ensures d.stats == last.stats && AllDiffsOk(scan, |mcus|, mcus, p)
  {
    hide Follows;
    Finished(d, last);
  }

  /** The round trip of a segment: coefficients to bytes and back to coefficients.  The
      decoder accepts exactly the segments in which every DC difference fits; then every
      coefficient of the band comes back, and every statistics bin ends the same. */
  method ScanRoundTrip(tab: Aritab, scan: Scan, mcus: seq<seq<Block>>, tail: seq<byte>)
      returns (status: Status, got: seq<seq<seq<int>>>, encoded: Stats, decoded: Stats)
    requires Fits(scan, mcus) && IsMarker(tail)
    ensures status != CantSuspend
    ensures status == Fine <==> AllDiffsOk(scan, 0, mcus, FreshDcs(scan))
    ensures status == Fine ==> |got| == |mcus| && forall i :: 0 <= i < |mcus| ==> McuRebuilt(scan, got[i], mcus[i])
    ensures status == Fine ==> decoded == encoded
  {
    hide FreshStats, Run, ScanDecisions, Contains, Known, AllDiffsOk;
    var out;
    ghost var last;
    out, encoded, last := EncodeScan(tab, scan, mcus);
    status, got, decoded := DecodeScan(tab, scan, out + tail, |mcus|, mcus, last);
  }

  /** With no point transform, a rebuilt block is the block itself over the whole band. */
  lemma RebuiltExactly(s: Scan, block: Block, k: nat)
    requires s.al == 0 && s.se < 64 && k <= s.se
    ensures Rebuilt(s, Zeros(), block)[k] == block[s.order[k]]
  {
    assert Pow2(0) == 1;
    assert Shrink(block[s.order[k]], 0) == block[s.order[k]];
    assert ZigZag(block, s.order, 0)[k] == block[s.order[k]];
  }

  /** Two blocks, the first with the largest DC value that a coefficient can have: the decoder takes
      what the encoder sends exactly if the second one is not below -1, a difference of -0x8000. */
  lemma Steepest(s: Scan, high: Block, low: Block)
    requires ScanOk(s) && s.membership == [0] && s.se == 63 && s.al == 0 && high[0] == 0x7FFF
    ensures Fits(s, [[high], [low]])
    ensures AllDiffsOk(s, 0, [[high], [low]], FreshDcs(s)) <==> -1 <= low[0]
  {
    var mcus, p := [[high], [low]], FreshDcs(s);
    assert Pow2(0) == 1;
    assert DcValue(s, high) == 0x7FFF && DcValue(s, low) == low[0];
    OneBlock(s, high, p);
    var q := McuNext(s, 0, mcus[0], p);
    OneBlock(s, low, q);
    var r := McuNext(s, 0, mcus[1], q);
    assert AllDiffsOk(s, 2, mcus, r);
    assert AllDiffsOk(s, 1, mcus, q) == DiffsOk(s, 0, mcus[1], q);
    assert DiffsOk(s, 0, mcus[0], p);
  }

  lemma OneBlock(s: Scan, block: Block, p: Dcs)
    requires ScanOk(s) && s.membership == [0] && s.al == 0 && DcsOk(s, p)
    ensures DiffsOk(s, 0, [block], p) <==> Abs(block[0] - p.last[0]) <= 0x8000
    ensures McuNext(s, 0, [block], p).last[0] == block[0]
  {
    assert Pow2(0) == 1;
    var q := DcNext(s, 0, block, p);
    assert DiffsOk(s, 1, [block], q) && McuNext(s, 1, [block], q) == q;
  }

  /** A segment that the encoder sends and the decoder refuses: the DC value falls from the largest
      to the smallest that a coefficient can have. */
  lemma TooSteep(s: Scan, high: Block, low: Block)
    requires ScanOk(s) && s.membership == [0] && s.se == 63 && s.al == 0 && high[0] == 0x7FFF && low[0] == -0x8000
    ensures Fits(s, [[high], [low]]) && !AllDiffsOk(s, 0, [[high], [low]], FreshDcs(s))
  {
    Steepest(s, high, low);
  }
}
