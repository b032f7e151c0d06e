/** A whole refinement scan: encoded, packed into stuffed bytes, and decoded again. */
module AcRefineScan {
  import opened Radix
  import opened Bits
  import opened ByteStream
  import opened Blocks
  import HuffCode
  import opened HuffDecode
  import opened HuffTables
  import opened HuffReader
  import opened HuffTokens
  import opened BitIo
  import opened HuffSegment
  import opened EobRuns
  import AcRefine
  import AcRefineEncoder
  import opened AcRefineDecoder
  import opened TokenStream
  import opened AcRefineRoundTrip

  function Items(tab: nat, ss: nat, se: nat, al: nat, order: Order, srcs: seq<Block>): (items: seq<Item>)
    requires 1 <= ss <= se < 64
    ensures |items| == |srcs| && ItemsOk(items)
    ensures forall i :: 0 <= i < |srcs| ==> items[i] == AcRefine.ItemOf(AcRefine.BandOf(tab, ss, se, srcs[i], order, al))
  {
    seq(|srcs|, i requires 0 <= i < |srcs| => AcRefine.ItemOf(AcRefine.BandOf(tab, ss, se, srcs[i], order, al)))
  }

  /** All MCUs of a scan, and finish_pass.  What is sent is the stream that announces every
      end-of-band run at its start; the only error is a symbol without a code. */
  method EncodeScan(e: RunEncoder, srcs: seq<Block>, order: Order, ss: nat, se: nat, al: nat) returns (ok: bool)
    requires e.Valid() && e.Pending() == NONE && 1 <= ss <= se < 64
    modifies e, e.sink, e.sink.w, e.bitBuffer
    ensures var xs := Stream(e.acTblNo, Items(e.acTblNo, ss, se, al, order, srcs), 0, 0);
      ok == e.sink.Can(xs) && (ok ==> e.sink.Valid() && e.sink.sent == old(e.sink.sent) + xs)
  {
    hide Sink.Valid, Sink.Can, Flush, Out, Stream, Small, AcRefine.ItemOf;
    var tab := e.acTblNo;
    ghost var items, sent := Items(tab, ss, se, al, order, srcs), e.sink.sent;
    ghost var total, done: seq<Token> := Sent(tab, items, 0, NONE), [];
    SentIsStream(tab, items, 0, NONE);
    EmptySides(total);
    EmptySides(sent);
    for i := 0 to |srcs|
      invariant e.Valid() && e.sink.sent == sent + done
      invariant done + Sent(tab, items, i, e.Pending()) == total
    {
      ghost var h := e.Pending();
      SentStep(tab, items, i, h);
      ghost var x, rest := Out(tab, h, items[i]), Sent(tab, items, i + 1, Next(h, items[i]));
      Concat(done, x, rest);
      Concat(sent, done, x);
      CanSplit(e.sink, done + x, rest);
      CanSplit(e.sink, done, x);
      ok := AcRefineEncoder.EncodeMcuAcRefine(e, srcs[i], order, ss, se, al);
      if !ok { return; }
      done := done + x;
    }
    ghost var last := Flush(tab, e.Pending());
    SentEnd(tab, items, e.Pending());
    CanSplit(e.sink, done, last);
    Concat(sent, done, last);
    ok := e.EmitEobrun();
    if ok { SentCan(e.sink, sent, total); }
  }

  // ---- Decoding ----

  /** Each block of the file so far is the band to one bit less. */
  ghost predicate OneBitLess(c: Refinement, srcs: seq<Block>, olds: seq<Block>) {
    |srcs| == |olds| && forall i :: 0 <= i < |srcs| ==> Mixed(c, srcs[i], olds[i], olds[i], c.ss)
  }

  /** The decoder, at block i with m blocks of the run to go, finds block i and is then at
      block i + 1. */
  lemma StepDecodes(c: Refinement, tab: nat, srcs: seq<Block>, was: Block, s: seq<bool>, i: nat, m: nat,
                    tabs: seq<HuffCode.Table>, tail: seq<bool>)
    requires Tables(c, tab, tabs) && i < |srcs| && Mixed(c, srcs[i], was, was, c.ss)
    requires var items := Items(tab, c.ss, c.se, c.al, c.order, srcs);
      Within(items, i, m) && On(s, 0, tabs, Stream(tab, items, i, m), tail)
    ensures var items := Items(tab, c.ss, c.se, c.al, c.order, srcs);
      var o := AcRefineDecoder.Band(c, s, 0, was, m);
      && Done(c, srcs[i], was, s, o, o.eobrun, tabs, Stream(tab, items, i + 1, o.eobrun), tail)
      && Within(items, i + 1, o.eobrun)
  {
    hide *;
    if m > 0 {
      StepInRun(c, tab, srcs, was, s, i, m, tabs, tail);
    } else {
      StepAfterRun(c, tab, srcs, was, s, i, tabs, tail);
    }
  }

  /** A block without a head has nothing but correction bits. */
  lemma InRunItem(c: Refinement, tab: nat, srcs: seq<Block>, i: nat)
    requires 1 <= c.ss <= c.se < 64 && i < |srcs| && Items(tab, c.ss, c.se, c.al, c.order, srcs)[i].head == []
    ensures var b := Source(c, tab, srcs[i]);
      AcRefine.Eob(b) == 0 && Items(tab, c.ss, c.se, c.al, c.order, srcs)[i].tail == AcRefine.Tail(b, c.ss)
  {
    hide AcRefine.Tail, AcRefine.BandOf, AcRefine.LastNew;
    BandEntries(c, tab, srcs[i]);
  }

  lemma StepInRun(c: Refinement, tab: nat, srcs: seq<Block>, was: Block, s: seq<bool>, i: nat, m: nat,
                  tabs: seq<HuffCode.Table>, tail: seq<bool>)
    requires Tables(c, tab, tabs) && i < |srcs| && Mixed(c, srcs[i], was, was, c.ss) && m > 0
    requires var items := Items(tab, c.ss, c.se, c.al, c.order, srcs);
      Within(items, i, m) && On(s, 0, tabs, Stream(tab, items, i, m), tail)
    ensures var items := Items(tab, c.ss, c.se, c.al, c.order, srcs);
      var o := AcRefineDecoder.Band(c, s, 0, was, m);
      && Done(c, srcs[i], was, s, o, o.eobrun, tabs, Stream(tab, items, i + 1, o.eobrun), tail)
      && Within(items, i + 1, o.eobrun)
  {
    hide Derived, On, Mixed, AcRefine.Eob, AcRefine.Tail, AcRefine.BandOf, Stream, Done, AcRefineDecoder.Band, Items;
    var items := Items(tab, c.ss, c.se, c.al, c.order, srcs);
    hide AcRefine.Head;
    InRunItem(c, tab, srcs, i);
    StreamStep(tab, items, i);
    var rest := Stream(tab, items, i + 1, m - 1);
    RunDecodes(c, tab, srcs[i], was, s, 0, m, tabs, rest, tail);
    DoneRun(c, srcs[i], was, s, AcRefineDecoder.Band(c, s, 0, was, m), m - 1, tabs, rest, tail);
  }

  lemma StepAfterRun(c: Refinement, tab: nat, srcs: seq<Block>, was: Block, s: seq<bool>, i: nat,
                     tabs: seq<HuffCode.Table>, tail: seq<bool>)
    requires Tables(c, tab, tabs) && i < |srcs| && Mixed(c, srcs[i], was, was, c.ss)
    requires var items := Items(tab, c.ss, c.se, c.al, c.order, srcs);
      Within(items, i, 0) && On(s, 0, tabs, Stream(tab, items, i, 0), tail)
    ensures var items := Items(tab, c.ss, c.se, c.al, c.order, srcs);
      var o := AcRefineDecoder.Band(c, s, 0, was, 0);
      && Done(c, srcs[i], was, s, o, o.eobrun, tabs, Stream(tab, items, i + 1, o.eobrun), tail)
      && Within(items, i + 1, o.eobrun)
  {
    hide Derived, On, Mixed, AcRefine.Eob, AcRefine.Tail, AcRefine.BandOf, AcRefine.Head, AcRefine.TailStart, Stream, Done;
    hide EobTokens, AcRefineDecoder.Band, RunOf, Items, Raws;
    var items := Items(tab, c.ss, c.se, c.al, c.order, srcs);
    var b := Source(c, tab, srcs[i]);
    BandEntries(c, tab, srcs[i]);
    var run := if items[i].eob then RunOf(items, i + 1, Held(1, items[i].tail)) else 1;
    var rest := Stream(tab, items, i + 1, RunLeft(b, run));
    StreamStep(tab, items, i);
    assert Stream(tab, items, i, 0) == AcRefine.Head(b, c.ss) + (Ending(b, run) + rest) by {
      if items[i].eob {
        Assoc(AcRefine.Head(b, c.ss) + EobTokens(tab, run), Raws(items[i].tail), rest);
        Assoc(AcRefine.Head(b, c.ss), EobTokens(tab, run), Raws(items[i].tail) + rest);
        Assoc(EobTokens(tab, run), Raws(items[i].tail), rest);
      } else {
        EmptySides(rest);
      }
    }
    BlockDecodes(c, tab, srcs[i], was, s, 0, run, tabs, rest, tail);
    DoneRun(c, srcs[i], was, s, AcRefineDecoder.Band(c, s, 0, was, 0), RunLeft(b, run), tabs, rest, tail);
  }

  lemma DoneRun(c: Refinement, src: Block, was: Block, s: seq<bool>, o: Outcome, run: nat,
                tabs: seq<HuffCode.Table>, rest: seq<Token>, tail: seq<bool>)
    ensures Done(c, src, was, s, o, run, tabs, rest, tail) ==> o.eobrun == run
  {
  }

  /** All MCUs of a scan.  No zeros are made up on the way. */
  method DecodeScan(e: RefineDecoder, c: Refinement, olds: seq<Block>,
                    ghost tab: nat, ghost srcs: seq<Block>, ghost tabs: seq<HuffCode.Table>, ghost tail: seq<bool>)
      returns (blocks: seq<Block>)
    requires Tables(c, tab, tabs) && OneBitLess(c, srcs, olds)
    requires e.r.Valid() && !e.r.insufficientData && e.r.Supplied() && e.eobrun == 0
    requires On(e.r.Bits(), 0, tabs, Stream(tab, Items(tab, c.ss, c.se, c.al, c.order, srcs), 0, 0), tail)
    modifies e, e.r
    ensures e.r.Valid() && !e.r.insufficientData && e.r.Bits() == tail && e.eobrun == 0
    ensures |blocks| == |srcs| && forall i :: 0 <= i < |srcs| ==> Refined(c, srcs[i], olds[i], blocks[i])
  {
    hide Derived, On, Mixed, Refined, Stream, AcRefineDecoder.Band, BitReader.Valid, BitReader.Supplied, BitReader.Bits,
      Items, Moved;
    ghost var items := Items(tab, c.ss, c.se, c.al, c.order, srcs);
    blocks := [];
    for i := 0 to |olds|
      invariant e.r.Valid() && !e.r.insufficientData && e.r.Supplied() && Within(items, i, e.eobrun)
      invariant On(e.r.Bits(), 0, tabs, Stream(tab, items, i, e.eobrun), tail)
      invariant |blocks| == i && forall j :: 0 <= j < i ==> Refined(c, srcs[j], olds[j], blocks[j])
    {
      var block := DecodeOne(e, c, olds[i], tab, srcs, i, tabs, tail);
      blocks := blocks + [block];
    }
    AtTail(e.r.Bits(), tabs, tab, items, e.eobrun, tail);
  }

  /** One MCU, in a copy of the block. */
  method DecodeOne(e: RefineDecoder, c: Refinement, was: Block, ghost tab: nat, ghost srcs: seq<Block>, ghost i: nat,
                   ghost tabs: seq<HuffCode.Table>, ghost tail: seq<bool>)
      returns (got: Block)
    requires Tables(c, tab, tabs) && i < |srcs| && Mixed(c, srcs[i], was, was, c.ss)
    requires e.r.Valid() && !e.r.insufficientData && e.r.Supplied()
    requires var items := Items(tab, c.ss, c.se, c.al, c.order, srcs);
      Within(items, i, e.eobrun) && On(e.r.Bits(), 0, tabs, Stream(tab, items, i, e.eobrun), tail)
    modifies e, e.r
    ensures e.r.Valid() && !e.r.insufficientData && e.r.Supplied() && Refined(c, srcs[i], was, got)
    ensures var items := Items(tab, c.ss, c.se, c.al, c.order, srcs);
      Within(items, i + 1, e.eobrun) && On(e.r.Bits(), 0, tabs, Stream(tab, items, i + 1, e.eobrun), tail)
  {
    hide Derived, On, Mixed, Refined, Stream, AcRefineDecoder.Band, BitReader.Valid, BitReader.Supplied, BitReader.Bits,
      Items, Moved, Within;
    ghost var items := Items(tab, c.ss, c.se, c.al, c.order, srcs);
    var block := Copy(was);
    ghost var s, o := e.r.Bits(), AcRefineDecoder.Band(c, e.r.Bits(), 0, was, e.eobrun);
    StepDecodes(c, tab, srcs, was, s, i, e.eobrun, tabs, tail);
    var _ := e.DecodeMcu(c, block);
    OnAfter(e.r, s, o.used, tabs, Stream(tab, items, i + 1, o.eobrun), tail);
    got := block[..];
  }

  method Copy(b: Block) returns (a: array<int>)
    ensures fresh(a) && IsBlock(a) && a[..] == b
  {
    a := new int[64](j requires 0 <= j < 64 => b[j]);
  }

  lemma OnAfter(r: BitReader, s: seq<bool>, n: nat, tabs: seq<HuffCode.Table>, xs: seq<Token>, tail: seq<bool>)
    requires r.Valid() && Moved(r, s, n, false) && On(s, n, tabs, xs, tail)
    ensures On(r.Bits(), 0, tabs, xs, tail) && !r.insufficientData
  {
    assert r.Bits()[0..] == s[n..];
  }

  lemma AtTail(s: seq<bool>, tabs: seq<HuffCode.Table>, tab: nat, items: seq<Item>, m: nat, tail: seq<bool>)
    requires Within(items, |items|, m) && On(s, 0, tabs, Stream(tab, items, |items|, m), tail)
    ensures s == tail && m == 0
  {
    assert s[0..] == s;
  }

  /** Encoding a refinement scan, packing it into bytes and decoding it again brings every block
      from one bit less to the full precision of the scan.  It fails exactly when a symbol is
      needed for which the table has no code. */
  method RefineRoundTrip(c: Refinement, ct: CTable, srcs: seq<Block>, olds: seq<Block>, marker: seq<byte>)
      returns (ok: bool, blocks: seq<Block>)
    requires RefinementOk(c) && Good(c.d.pub) && Encodes(ct, c.d.pub, |Szs(c.d.pub)|)
    requires OneBitLess(c, srcs, olds) && IsMarker(marker)
    ensures ok == AllSendable([c.d.pub], Stream(0, Items(0, c.ss, c.se, c.al, c.order, srcs), 0, 0))
    ensures ok ==> |blocks| == |srcs| && forall i :: 0 <= i < |srcs| ==> Refined(c, srcs[i], olds[i], blocks[i])
  {
    hide Derived, On, Mixed, Refined, Stream, Items, Good, Encodes, Sink.Valid, Stuff, ByteBits, StreamBits, Sendable;
    ghost var tabs := [c.d.pub];
    var sink := new Sink.Output(tabs, [ct]);
    var e := new RunEncoder(sink, 0);
    blocks := [];
    ok := EncodeScan(e, srcs, c.order, c.ss, c.se, c.al);
    if !ok { return; }
    assert sink.sent == Stream(0, Items(0, c.ss, c.se, c.al, c.order, srcs), 0, 0);
    var bytes, data, pad := CloseSegment(sink);
    var r := OpenSegment(bytes + marker, data, tabs, sink.sent, pad);
    var d := new RefineDecoder(r);
    blocks := DecodeScan(d, c, olds, 0, srcs, tabs, pad);
  }
}
