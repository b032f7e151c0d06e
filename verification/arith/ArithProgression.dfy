/** The other scans of a progressive file with arithmetic coding: first scans and refinement scans
    of AC bands, and refinement scans of the DC coefficients; and all scans of a band together. */
module ArithProgression {
  import opened Radix
  import opened ByteStream
  import opened ArithTable
  import opened ArithModel
  import opened Blocks
  import opened DcBits
  import opened ArithBlock
  import opened ArithEncoder
  import opened ArithDecoder
  import opened ArithMcuEncoder
  import opened ArithMcuDecoder
  import opened ArithRoundTrip
  import opened ArithScan
  import opened ArithRefine

  datatype Kind = AcFirst | AcRefine | DcRefine

  /** One scan; al is the low bit position. */
  datatype Pass = Pass(kind: Kind, comp: Component, order: Order, ss: nat, se: nat, al: nat)

  predicate PassOk(p: Pass) {
    p.comp.acTbl < NUM_ARITH_TBLS && p.se < 64 && p.al <= 13 && (p.kind != DcRefine ==> 1 <= p.ss <= p.se)
  }

  /** The decisions for one block. */
  function PassDecisions(p: Pass, src: Block): seq<Decision>
    requires PassOk(p)
  {
    match p.kind
    case AcFirst =>
      var z := ZigZag(src, p.order, p.al);
      AcBand(p.comp.acTbl, p.comp.kx, z, p.ss - 1, LastNonzero(z, p.se), p.se, true)
    case AcRefine => RefineBlock(p.comp.acTbl, src, p.order, p.al, p.ss, p.se)
    case DcRefine => [Decision(Fixed, DcBit(src[0], p.al))]
  }

  /** What the decoder has to know of a block before the scan; was is in zigzag order. */
  predicate Prepared(p: Pass, was: seq<int>, src: Block)
    requires PassOk(p) && |was| == 64
  {
    match p.kind
    case AcFirst => forall k :: p.ss <= k <= p.se ==> was[k] == 0
    case AcRefine => OneBitLess(was, src, p.order, p.al, p.ss, p.se)
    case DcRefine => true
  }

  /** What it knows after the scan. */
  function After(p: Pass, was: seq<int>, src: Block): seq<int>
    requires PassOk(p) && |was| == 64
  {
    if p.kind == DcRefine then was[0 := WithBit(was[0], DcBit(src[0], p.al), p.al)]
    else Finer(was, src, p.order, p.al, p.ss, p.se + 1)
  }

  // ---- One block ----

  method EncodeBlock(e: Encoder, p: Pass, src: Block, ghost c0: Coder, ghost done: seq<Decision>)
    requires Coded(e, c0, done) && PassOk(p)
    modifies e
    ensures Coded(e, c0, done + PassDecisions(p, src))
  {
    hide Coded, AcBand, RefineBlock, LastNonzero, ZigZag;
    match p.kind
    case AcFirst => EncodeAc(e, p.comp, src, p.order, p.al, p.ss, p.se, c0, done);
    case AcRefine => EncodeAcRefine(e, p.comp.acTbl, src, p.order, p.al, p.ss, p.se, c0, done);
    case DcRefine => Emit(e, Fixed, DcBit(src[0], p.al), c0, done);
  }

  /** A first scan fills zeros. */
  lemma GrownIsFiner(p: Pass, was: seq<int>, src: Block)
    requires PassOk(p) && p.kind == AcFirst && |was| == 64 && Prepared(p, was, src)
    ensures Grown(was, ZigZag(src, p.order, p.al), p.al, p.ss, p.se + 1) == After(p, was, src)
  {
    hide Shrink, Coarse, Pow2, Jcoef;
    forall k | p.ss <= k <= p.se
      ensures Shrink(src[p.order[k]], p.al) * Pow2(p.al) == Coarse(src[p.order[k]], p.al)
      ensures -0x8000 <= Coarse(src[p.order[k]], p.al) < 0x8000
      ensures Shrink(src[p.order[k]], p.al) == 0 ==> Coarse(src[p.order[k]], p.al) == 0
    {
      ShrinkIsShr(src[p.order[k]], p.al);
    }
  }

  method DecodeDcBit(d: Decoder, block: array<int>, order: Order, al: nat, ghost src: Block, ghost rest: seq<Decision>, ghost last: Coder)
      returns (status: Status)
    requires Usable(d) && block.Length == 64 && al <= 13
    modifies d, block
    ensures status == Fine ==> Usable(d)
    ensures old(Follows(d, [Decision(Fixed, DcBit(src[0], al))] + rest, last)) ==>
      status == Fine && Follows(d, rest, last) && Zag(block, order) == old(Zag(block, order))[0 := WithBit(old(block[0]), DcBit(src[0], al), al)]
  {
    hide Follows, Usable, DcBit, Pow2;
    ghost var was := Zag(block, order);
    var p1 := Pow2(al);
    var bit;
    status, bit := Next(d, Fixed, Decision(Fixed, DcBit(src[0], al)), rest, last);
    if status != Fine { return; }
    if bit && block[0] / p1 % 2 == 0 { block[0] := Jcoef(block[0] + p1); }
    assert Zag(block, order) == was[0 := WithBit(was[0], bit, al)];
  }

  method DecodeBlock(d: Decoder, p: Pass, block: array<int>, ghost src: Block, ghost rest: seq<Decision>, ghost last: Coder)
      returns (status: Status)
    requires Usable(d) && PassOk(p) && block.Length == 64
    modifies d, block
    ensures status == Fine ==> Usable(d)
    ensures old(Prepared(p, Zag(block, p.order), src) && Follows(d, PassDecisions(p, src) + rest, last)) ==>
      status == Fine && Follows(d, rest, last) && Zag(block, p.order) == After(p, old(Zag(block, p.order)), src)
  {
    hide Follows, Usable, AcBand, RefineBlock, LastNonzero, Grown, Finer, OneBitLess, DcCoarse, DcBit, ZigZag;
    ghost var was := Zag(block, p.order);
    match p.kind
    case AcFirst =>
      ZigZagRange(src, p.order, p.al);
      if Prepared(p, was, src) { GrownIsFiner(p, was, src); }
      status := DecodeAc(d, p.comp, block, p.order, p.al, p.ss, p.se, ZigZag(src, p.order, p.al), rest, last);
    case AcRefine => status := DecodeAcRefine(d, p.comp.acTbl, block, p.order, p.al, p.ss, p.se, src, rest, last);
    case DcRefine => status := DecodeDcBit(d, block, p.order, p.al, src, rest, last);
  }

  // ---- A whole scan ----

  function Decisions(p: Pass, srcs: seq<Block>, i: nat): seq<Decision>
    requires PassOk(p) && i <= |srcs|
    decreases |srcs| - i
  {
    if i == |srcs| then [] else PassDecisions(p, srcs[i]) + Decisions(p, srcs, i + 1)
  }

  method EncodePass(tab: Aritab, p: Pass, srcs: seq<Block>) returns (out: seq<byte>, stats: Stats, ghost last: Coder)
    requires PassOk(p)
    ensures stats == last.stats
    ensures var ds := Decisions(p, srcs, 0);
      Known(Coder(START, FreshStats()), ds) && last == Run(tab, Coder(START, FreshStats()), ds)
    ensures forall tail :: IsMarker(tail) ==> Terminated(out + tail) && Contains(DataOf(out + tail), last.i)
  {
    hide Coded, Run, PassDecisions, FreshStats, Areas, Stuff, DataOf, Terminated, IsMarker, Contains, Reaches;
    var e := new Encoder(tab, FreshStats());
    ghost var c0 := Coder(START, FreshStats());
    ghost var sofar, goal := [], Decisions(p, srcs, 0);
    assert Coded(e, c0, sofar) by { Started(e, c0); }
    assert [] + goal == goal;
    for i := 0 to |srcs|
      invariant fresh(e) && e.tab == tab && Coded(e, c0, sofar) && sofar + Decisions(p, srcs, i) == goal
    {
      EncodeBlock(e, p, srcs[i], c0, sofar);
      Join(sofar, PassDecisions(p, srcs[i]), Decisions(p, srcs, i + 1));
      sofar := sofar + PassDecisions(p, srcs[i]);
    }
    Join(sofar, [], []);
    last := Coder(e.Cur(), e.stats) by { Ended(e, c0, sofar); }
    Ended(e, c0, sofar);
    stats := e.stats;
    e.Finish();
    out := e.out;
    forall tail | IsMarker(tail) ensures Terminated(out + tail) && DataOf(out + tail) == e.data {
      Unstuff(e.data, tail);
    }
  }

  /** Every block of the file is as the scan needs it; blocks are in natural order. */
  ghost predicate AllPrepared(p: Pass, olds: seq<seq<int>>, srcs: seq<Block>)
    requires PassOk(p)
  {
    |olds| == |srcs| && forall i :: 0 <= i < |srcs| ==> |olds[i]| == 64 && Prepared(p, Zagged(olds[i], p.order), srcs[i])
  }

  ghost predicate Advanced(p: Pass, was: seq<int>, src: Block, got: seq<int>)
    requires PassOk(p)
  {
    |was| == |got| == 64 && Zagged(got, p.order) == After(p, Zagged(was, p.order), src)
  }

  method DecodePass(tab: Aritab, p: Pass, input: seq<byte>, olds: seq<seq<int>>, ghost srcs: seq<Block>, ghost last: Coder)
      returns (status: Status, got: seq<seq<int>>, decoded: Stats)
    requires PassOk(p) && AllPrepared(p, olds, srcs)
    requires var ds := Decisions(p, srcs, 0);
      Terminated(input) && Known(Coder(START, FreshStats()), ds) && Run(tab, Coder(START, FreshStats()), ds) == last
        && Contains(DataOf(input), last.i)
    ensures status == Fine && decoded == last.stats
    ensures |got| == |srcs| && forall i :: 0 <= i < |srcs| ==> Advanced(p, olds[i], srcs[i], got[i])
  {
    hide Follows, Usable, Run, PassDecisions, FreshStats, Areas, DataOf, Contains, Reaches, Prepared, After;
    var d := new Decoder(tab, FreshStats(), input);
    ghost var ds := Decisions(p, srcs, 0);
    Begun(d, ds, last);
    assert ds + [] == ds;
    got := [];
    for i := 0 to |olds|
      invariant Usable(d) && fresh(d) && Follows(d, Decisions(p, srcs, i) + [], last)
      invariant |got| == i && forall j :: 0 <= j < i ==> Advanced(p, olds[j], srcs[j], got[j])
    {
      var block := new int[64](j requires 0 <= j < 64 => olds[i][j]);
      ghost var rest := Decisions(p, srcs, i + 1) + [];
      JoinFollows(d, PassDecisions(p, srcs[i]), Decisions(p, srcs, i + 1), [], last);
      assert Zag(block, p.order) == Zagged(olds[i], p.order);
      status := DecodeBlock(d, p, block, srcs[i], rest, last);
      assert Zagged(block[..], p.order) == Zag(block, p.order);
      got := got + [block[..]];
    }
    status := Fine;
    decoded := d.stats;
    Finished(d, last);
  }

  /** Encoding a scan and decoding it again brings every block to the precision of the scan, and
      every statistics bin ends the same on both sides. */
  method PassRoundTrip(tab: Aritab, p: Pass, srcs: seq<Block>, olds: seq<seq<int>>, tail: seq<byte>)
      returns (got: seq<seq<int>>, encoded: Stats, decoded: Stats)
    requires PassOk(p) && AllPrepared(p, olds, srcs) && IsMarker(tail)
    ensures |got| == |srcs| && forall i :: 0 <= i < |srcs| ==> Advanced(p, olds[i], srcs[i], got[i])
    ensures decoded == encoded
  {
    hide FreshStats, Run, Decisions, Contains, Known, AllPrepared, Advanced;
    var out;
    ghost var last;
    out, encoded, last := EncodePass(tab, p, srcs);
    var status;
    status, got, decoded := DecodePass(tab, p, out + tail, olds, srcs, last);
  }

  // ---- All scans of a band ----

  /** The band of got is that of src with al low bits missing. */
  predicate KnownTo(order: Order, ss: nat, se: nat, al: nat, src: Block, got: seq<int>) {
    |got| == 64 && forall k :: 0 <= k < 64 && ss <= k <= se ==> got[order[k]] == Coarse(src[order[k]], al)
  }

  lemma AdvancedKnown(p: Pass, was: seq<int>, src: Block, got: seq<int>)
    requires PassOk(p) && p.kind != DcRefine && Advanced(p, was, src, got)
    ensures KnownTo(p.order, p.ss, p.se, p.al, src, got)
  {
    hide Coarse;
    forall k | 0 <= k < 64 && p.ss <= k <= p.se
      ensures got[p.order[k]] == Coarse(src[p.order[k]], p.al)
    {
      assert Zagged(got, p.order)[k] == After(p, Zagged(was, p.order), src)[k];
    }
  }

  lemma KnownPrepares(p: Pass, was: seq<int>, src: Block)
    requires PassOk(p) && p.kind == AcRefine && KnownTo(p.order, p.ss, p.se, p.al + 1, src, was)
    ensures Prepared(p, Zagged(was, p.order), src)
  {
    hide Coarse;
    forall k | p.ss <= k <= p.se
      ensures Zagged(was, p.order)[k] == Coarse(src[p.order[k]], p.al + 1)
    {
      assert 0 <= k < 64;
    }
  }

  predicate BandExact(order: Order, ss: nat, se: nat, src: Block, got: seq<int>) {
    |got| == 64 && forall k :: 0 <= k < 64 && ss <= k <= se ==> got[order[k]] == src[order[k]]
  }

  /** An AC band in a first scan with the low al bits missing and one refinement scan for each of
      them: the decoder ends with exactly the coefficients of the encoder, for all blocks. */
  method BandRoundTrip(tab: Aritab, comp: Component, order: Order, ss: nat, se: nat, al: nat, srcs: seq<Block>, tail: seq<byte>)
      returns (got: seq<seq<int>>)
    requires comp.acTbl < NUM_ARITH_TBLS && 1 <= ss <= se < 64 && al <= 13 && IsMarker(tail)
    ensures |got| == |srcs|
    ensures forall i :: 0 <= i < |srcs| ==> BandExact(order, ss, se, srcs[i], got[i])
  {
    hide Coarse, Prepared, Advanced, KnownTo, BandExact;
    var first := Pass(AcFirst, comp, order, ss, se, al);
    var zeros := seq(|srcs|, _ => Zeros());
    forall i | 0 <= i < |srcs| ensures Prepared(first, Zagged(zeros[i], order), srcs[i]) { ZerosPrepare(first, srcs[i]); }
    var encoded, decoded;
    got, encoded, decoded := PassRoundTrip(tab, first, srcs, zeros, tail);
    forall i | 0 <= i < |srcs| ensures KnownTo(order, ss, se, al, srcs[i], got[i]) { AdvancedKnown(first, zeros[i], srcs[i], got[i]); }
    var bit := al;
    while bit > 0
      invariant 0 <= bit <= al && |got| == |srcs| && forall i :: 0 <= i < |srcs| ==> KnownTo(order, ss, se, bit, srcs[i], got[i])
    {
      bit := bit - 1;
      var p, olds := Pass(AcRefine, comp, order, ss, se, bit), got;
      forall i | 0 <= i < |srcs| ensures |olds[i]| == 64 && Prepared(p, Zagged(olds[i], order), srcs[i]) {
        KnownLength(order, ss, se, bit + 1, srcs[i], olds[i]);
        KnownPrepares(p, olds[i], srcs[i]);
      }
      got, encoded, decoded := PassRoundTrip(tab, p, srcs, olds, tail);
      forall i | 0 <= i < |srcs| ensures KnownTo(order, ss, se, bit, srcs[i], got[i]) { AdvancedKnown(p, olds[i], srcs[i], got[i]); }
    }
    forall i | 0 <= i < |srcs| ensures BandExact(order, ss, se, srcs[i], got[i]) { KnownAll(order, ss, se, srcs[i], got[i]); }
  }

  lemma ZerosPrepare(p: Pass, src: Block)
    requires PassOk(p) && p.kind == AcFirst
    ensures Prepared(p, Zagged(Zeros(), p.order), src)
  {
  }

  lemma KnownLength(order: Order, ss: nat, se: nat, al: nat, src: Block, got: seq<int>)
    requires KnownTo(order, ss, se, al, src, got)
    ensures |got| == 64
  {
  }

  lemma KnownAll(order: Order, ss: nat, se: nat, src: Block, got: seq<int>)
    requires KnownTo(order, ss, se, 0, src, got)
    ensures BandExact(order, ss, se, src, got)
  {
    hide Coarse;
    forall k | 0 <= k < 64 && ss <= k <= se ensures got[order[k]] == src[order[k]] { NothingMissing(src[order[k]]); }
  }

  /** A first DC scan leaves what a DC refinement scan needs. */
  lemma DcFirstPrepares(s: Scan, block: Block)
    requires s.se == 0 && s.al <= 13
    ensures Rebuilt(s, Zeros(), block)[0] == DcCoarse(block[0], s.al)
  {
    hide Pow2;
    DcRange(block[0], s.al);
  }

  predicate DcKnown(order: Order, al: nat, src: Block, got: seq<int>) {
    |got| == 64 && got[order[0]] == DcCoarse(src[0], al)
  }

  /** The refinement scans for the DC coefficients bring back all their bits. */
  method DcRoundTrip(tab: Aritab, comp: Component, order: Order, al: nat, srcs: seq<Block>, olds: seq<seq<int>>, tail: seq<byte>)
      returns (got: seq<seq<int>>)
    requires comp.acTbl < NUM_ARITH_TBLS && al <= 13 && IsMarker(tail)
    requires |olds| == |srcs| && forall i :: 0 <= i < |srcs| ==> DcKnown(order, al, srcs[i], olds[i])
    ensures |got| == |srcs| && forall i :: 0 <= i < |srcs| ==> |got[i]| == 64 && got[i][0] == srcs[i][0]
  {
    hide DcCoarse;
    got := olds;
    var bit := al;
    while bit > 0
      invariant 0 <= bit <= al && |got| == |srcs| && forall i :: 0 <= i < |srcs| ==> DcKnown(order, bit, srcs[i], got[i])
    {
      bit := bit - 1;
      var p, was := Pass(DcRefine, comp, order, 0, 0, bit), got;
      var encoded, decoded;
      got, encoded, decoded := PassRoundTrip(tab, p, srcs, was, tail);
      forall i | 0 <= i < |srcs| ensures DcKnown(order, bit, srcs[i], got[i]) {
        assert Zagged(got[i], order)[0] == After(p, Zagged(was[i], order), srcs[i])[0];
        BitAdded(srcs[i][0], bit);
      }
    }
    forall i | 0 <= i < |srcs| ensures got[i][0] == srcs[i][0] { DcAll(srcs[i][0]); }
  }
}
