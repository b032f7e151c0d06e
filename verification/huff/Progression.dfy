/** A band of AC coefficients through all the scans of a progressive file: a first scan with
    some low bits missing, and one refinement scan for each of them. */
module Progression {
  import opened Radix
  import opened ByteStream
  import opened Blocks
  import opened HuffDecode
  import opened HuffTables
  import opened HuffTokens
  import opened EobRuns
  import opened AcRefineDecoder
  import opened AcRefineRoundTrip
  import AcFirst
  import AcRefineScan

  /** The band of blk is that of src with al low bits of the magnitudes missing. */
  predicate Known(order: Order, ss: nat, se: nat, al: nat, src: Block, blk: Block) {
    forall j :: 0 <= j < 64 && ss <= j <= se ==> blk[order[j]] == Coarse(src[order[j]], al)
  }

  /** Nothing of the band is there. */
  predicate Blank(order: Order, ss: nat, se: nat, was: Block) {
    forall j :: 0 <= j < 64 && ss <= j <= se ==> was[order[j]] == 0
  }

  /** The band has been replaced by that of src with al low bits missing; the rest is as it was. */
  predicate Moved(order: Order, ss: nat, se: nat, al: nat, src: Block, was: Block, got: Block) {
    forall j :: 0 <= j < 64 ==> got[order[j]] == if ss <= j <= se then Coarse(src[order[j]], al) else was[order[j]]
  }

  lemma MovedKnown(order: Order, ss: nat, se: nat, al: nat, src: Block, was: Block, got: Block)
    requires Moved(order, ss, se, al, src, was, got)
    ensures Known(order, ss, se, al, src, got)
  {
    hide Coarse;
  }

  /** What the first scan leaves. */
  lemma FirstMoved(order: Order, ss: nat, se: nat, al: nat, src: Block, was: Block, got: seq<int>)
    requires ss <= se < 64 && AcFirst.Decoded(got, was, src, order, ss, se, al) && Blank(order, ss, se, was)
    ensures forall p :: 0 <= p < 64 ==> -0x8000 <= got[p] < 0x8000
    ensures Moved(order, ss, se, al, src, was, got)
  {
    hide Coarse, Pow2, Jcoef, Shrink;
    forall p: nat | p < 64 ensures -0x8000 <= got[p] < 0x8000 {
      var k := OrderOnto(order, p);
      assert got[p] == Zagged(got, order)[k];
    }
    forall j | 0 <= j < 64 ensures got[order[j]] == if ss <= j <= se then Coarse(src[order[j]], al) else was[order[j]] {
      ShrinkIsShr(src[order[j]], al);
      assert got[order[j]] == Zagged(got, order)[j];
      ZeroShrunk(src[order[j]], al);
    }
  }

  lemma ZeroShrunk(v: int, al: nat)
    ensures Shrink(v, al) == 0 ==> Shrink(v, al) * Pow2(al) == 0
  {
  }

  /** What a refinement scan starts from, and what it leaves. */
  lemma OneMoreKnown(c: Refinement, src: Block, was: Block, blk: Block)
    requires RefinementOk(c)
    ensures Known(c.order, c.ss, c.se, c.al + 1, src, was) ==> Mixed(c, src, was, was, c.ss)
    ensures Refined(c, src, was, blk) ==> Known(c.order, c.ss, c.se, c.al, src, blk)
  {
    hide Coarse, Derived;
  }

  /** A refinement scan touches the band only. */
  lemma RefinedMoved(c: Refinement, src: Block, was: Block, got: Block)
    requires RefinementOk(c) && Refined(c, src, was, got)
    ensures Moved(c.order, c.ss, c.se, c.al, src, was, got)
  {
    hide Coarse, Derived;
  }

  predicate AllKnown(order: Order, ss: nat, se: nat, al: nat, srcs: seq<Block>, blks: seq<Block>) {
    |srcs| == |blks| && forall i :: 0 <= i < |srcs| ==> Known(order, ss, se, al, srcs[i], blks[i])
  }

  /** The tables of one scan, for both sides. */
  ghost predicate TablesOk(ct: CTable, d: DTable) {
    Derived(d) && Good(d.pub) && Encodes(ct, d.pub, |Szs(d.pub)|)
  }

  /** The scan for one bit has coefficients in range and a code for every symbol it needs. */
  predicate ScanSendable(order: Order, ss: nat, se: nat, al: nat, bit: nat, ds: seq<DTable>, srcs: seq<Block>)
    requires 1 <= ss <= se < 64 && bit <= al < |ds|
  {
    if bit == al then
      AcFirst.AllInRange(ss, se, al, order, srcs) &&
      AllSendable([ds[bit].pub], Stream(0, AcFirst.Items(0, ss, se, al, order, srcs), 0, 0))
    else
      AllSendable([ds[bit].pub], Stream(0, AcRefineScan.Items(0, ss, se, bit, order, srcs), 0, 0))
  }

  /** The first scan of the band. */
  method FirstScan(order: Order, ss: nat, se: nat, al: nat, ct: CTable, ds: seq<DTable>, srcs: seq<Block>, marker: seq<byte>)
      returns (ok: bool, blks: seq<Block>)
    requires 1 <= ss <= se < 64 && al <= 13 && |ds| == al + 1 && IsMarker(marker) && TablesOk(ct, ds[al])
    ensures ok == ScanSendable(order, ss, se, al, al, ds, srcs)
    ensures ok ==> AllKnown(order, ss, se, al, srcs, blks)
  {
    hide Derived, Good, Encodes, Known, AcFirst.Decoded, AllSendable, Stream, AcFirst.Items, AcFirst.AllInRange;
    var first;
    var zeros: seq<Block> := seq(|srcs|, _ => Zeros());
    ok, first := AcFirst.FirstRoundTrip(ct, ds[al], order, ss, se, al, srcs, zeros, marker);
    blks := [];
    if !ok { return; }
    forall i | 0 <= i < |srcs|
      ensures |first[i]| == 64 && (forall p :: 0 <= p < 64 ==> -0x8000 <= first[i][p] < 0x8000)
      ensures Known(order, ss, se, al, srcs[i], first[i])
    {
      DecodedSize(first[i], zeros[i], srcs[i], order, ss, se, al);
      FirstMoved(order, ss, se, al, srcs[i], zeros[i], first[i]);
      MovedKnown(order, ss, se, al, srcs[i], zeros[i], first[i]);
    }
    blks := first;
  }

  /** The scan that adds a bit. */
  method RefineScan(order: Order, ss: nat, se: nat, al: nat, bit: nat, ct: CTable, ds: seq<DTable>, srcs: seq<Block>, was: seq<Block>,
                    marker: seq<byte>) returns (ok: bool, blks: seq<Block>)
    requires 1 <= ss <= se < 64 && bit < al <= 13 && |ds| == al + 1 && IsMarker(marker) && TablesOk(ct, ds[bit])
    requires AllKnown(order, ss, se, bit + 1, srcs, was)
    ensures ok == ScanSendable(order, ss, se, al, bit, ds, srcs)
    ensures ok ==> AllKnown(order, ss, se, bit, srcs, blks)
  {
    hide Derived, Good, Encodes, Known, Mixed, Refined, AllSendable, Stream, AcRefineScan.Items;
    var c := Refinement(ds[bit], ss, se, bit, order);
    forall i | 0 <= i < |srcs| ensures Mixed(c, srcs[i], was[i], was[i], c.ss) { OneMoreKnown(c, srcs[i], was[i], was[i]); }
    ok, blks := AcRefineScan.RefineRoundTrip(c, ct, srcs, was, marker);
    if !ok { return; }
    forall i | 0 <= i < |srcs| ensures Known(order, ss, se, bit, srcs[i], blks[i]) { OneMoreKnown(c, srcs[i], was[i], blks[i]); }
  }

  /** A band of all blocks is sent with the low al bits missing, and then bit by bit; scan i, the
      one for bit i, uses the i'th tables.  The decoder ends up with exactly the coefficients of
      the encoder, unless a scan cannot be sent at all. */
  method BandRoundTrip(order: Order, ss: nat, se: nat, al: nat, cts: seq<CTable>, ds: seq<DTable>, srcs: seq<Block>, marker: seq<byte>)
      returns (ok: bool, blks: seq<Block>)
    requires 1 <= ss <= se < 64 && al <= 13 && |cts| == |ds| == al + 1 && IsMarker(marker)
    requires forall i :: 0 <= i <= al ==> TablesOk(cts[i], ds[i])
    ensures ok <==> forall bit :: 0 <= bit <= al ==> ScanSendable(order, ss, se, al, bit, ds, srcs)
    ensures ok ==> |blks| == |srcs|
    ensures ok ==> forall i, j :: 0 <= i < |srcs| && 0 <= j < 64 && ss <= j <= se ==> blks[i][order[j]] == srcs[i][order[j]]
  {
    hide TablesOk, ScanSendable, Known, IsMarker;
    ok, blks := FirstScan(order, ss, se, al, cts[al], ds, srcs, marker);
    if !ok { return; }
    var bit := al;
    while bit > 0
      invariant 0 <= bit <= al && AllKnown(order, ss, se, bit, srcs, blks) && ok
      invariant forall b :: bit <= b <= al ==> ScanSendable(order, ss, se, al, b, ds, srcs)
    {
      bit := bit - 1;
      ok, blks := RefineScan(order, ss, se, al, bit, cts[bit], ds, srcs, blks, marker);
      if !ok { return; }
    }
    forall i, j | 0 <= i < |srcs| && 0 <= j < 64 && ss <= j <= se ensures blks[i][order[j]] == srcs[i][order[j]] {
      KnownExactly(order, ss, se, srcs[i], blks[i], j);
    }
  }

  lemma DecodedSize(got: seq<int>, was: seq<int>, src: Block, order: Order, ss: nat, se: nat, al: nat)
    requires ss <= 64 && AcFirst.Decoded(got, was, src, order, ss, se, al)
    ensures |got| == 64
  {
  }

  lemma KnownExactly(order: Order, ss: nat, se: nat, src: Block, blk: Block, j: nat)
    requires j < 64 && ss <= j <= se && Known(order, ss, se, 0, src, blk)
    ensures blk[order[j]] == src[order[j]]
  {
    NothingMissing(src[order[j]]);
  }
}
