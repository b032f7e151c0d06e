/** The first AC scans of a progressive file: encode_mcu_AC_first of jchuff.c,
    decode_mcu_AC_first of jdhuff.c, and the round trip of a whole scan. */
module AcFirst {
  import opened Radix
  import opened Bits
  import opened ByteStream
  import opened Blocks
  import HuffCode
  import opened HuffDecode
  import opened HuffTables
  import opened HuffTokens
  import opened BitIo
  import opened TokenStream
  import opened HuffSegment
  import opened EobRuns
  import opened RunSender
  import opened HuffBlock
  import opened HuffMcuEncoder
  import opened HuffMcuDecoder

  // ---- Encoding ----

  /** The run of ended blocks goes out before anything else of a block does. */
  method FlushPending(e: RunEncoder, ghost h: Held, ghost sent: seq<Token>, ghost x: seq<Token>) returns (ok: bool)
    requires Sending(e, h, sent, x)
    modifies e, e.sink, e.sink.w
    ensures !ok ==> !e.sink.Can(Flush(e.acTblNo, h))
    ensures ok ==> e.Loose() && e.Pending() == NONE && e.sink.sent == sent + Flush(e.acTblNo, h) + x
  {
    hide Sink.Valid, Sink.Can, Flush;
    NothingPending(e.acTblNo);
    EmptySides(e.sink.sent);
    EmptySides(sent + Flush(e.acTblNo, h));
    EmptySides(sent);
    ok := true;
    if e.eobrun > 0 {
      ok := e.EmitEobrun();
    } else {
      NoFlush(e.acTblNo, e.Pending());
    }
  }

  /** A value behind its run of zeros; the first one is preceded by the pending end-of-band run. */
  method SendValue(e: RunEncoder, r: nat, v: int, ghost z: seq<int>, ghost ss: nat, ghost k: nat, ghost se: nat,
                   ghost h: Held, ghost sent: seq<Token>, ghost x0: seq<Token>) returns (ok: bool, ghost x: seq<Token>)
    requires ss <= k <= se < |z| && Sending(e, h, sent, x0) && Scanning(e.acTblNo, z, ss, k, se, r, x0) && v == z[k] != 0
    modifies e, e.sink, e.sink.w
    ensures !ok ==> NBits(v) > MAX_COEF_BITS || !e.sink.Can(Out(e.acTblNo, h, ItemOf(e.acTblNo, z, ss, se)))
    ensures ok ==> NBits(v) <= MAX_COEF_BITS && Sending(e, h, sent, x) && Scanning(e.acTblNo, z, ss, k + 1, se, 0, x)
  {
    hide Sink.Valid, Sink.Can, Flush, BandHead, NBits, Scanning, Out;
    x := x0;
    ghost var f, item := Flush(e.acTblNo, h), ItemOf(e.acTblNo, z, ss, se);
    SomeHead(e.acTblNo, z, ss, k, se, r, x0);
    CanSplit(e.sink, f, item.head);
    OutParts(e.sink, e.acTblNo, h, item);
    ok := FlushPending(e, h, sent, x);
    if !ok { return; }
    ok, x := EmitRunValue(e.sink, e.acTblNo, r, v, z, ss, k, se, sent + f, x);
  }

  lemma NoFlush(tab: nat, h: Held)
    requires h.run == 0
    ensures Flush(tab, h) == []
  {
  }

  lemma SomeHead(tab: nat, z: seq<int>, ss: nat, k: nat, se: nat, r: nat, x: seq<Token>)
    requires Scanning(tab, z, ss, k, se, r, x) && ss <= k <= se && z[k] != 0
    ensures se < |z| && BandHead(tab, z, ss, se) != []
  {
    hide BandHead, ValueTokens;
    ScanStep(tab, z, ss, k, se, r, x);
    if r <= 15 { SomeValue(tab, r, z[k]); }
  }

  /** Figure G.3 for the band of one block. */
  method EncodeMcuAcFirst(e: RunEncoder, block: Block, order: Order, ss: nat, se: nat, al: nat) returns (ok: bool)
    requires e.Valid() && 1 <= ss <= se < 64
    modifies e, e.sink, e.sink.w
    ensures var z := ZigZag(block, order, al);
      var x := ItemOf(e.acTblNo, z, ss, se);
      && ok == (BandInRange(z, ss, se) && e.sink.Can(Out(e.acTblNo, old(e.Pending()), x)))
      && (ok ==> e.Valid() && e.Pending() == Next(old(e.Pending()), x))
      && (ok ==> e.sink.sent == old(e.sink.sent) + Out(e.acTblNo, old(e.Pending()), x))
  {
    hide Sink.Valid, Sink.Can, Flush, BandHead, NBits, Scanning, Out, Next, Sending, Shrink;
    ghost var z := ZigZag(block, order, al);
    ghost var h, sent, tab := e.Pending(), e.sink.sent, e.acTblNo;
    var r, k := 0, ss;
    ghost var x: seq<Token> := [];
    ScanBegin(tab, z, ss, se);
    SendBegin(e);
    ok := true;
    while k <= se
      invariant ss <= k <= se + 1 && r >= 0 && Sending(e, h, sent, x) && Scanning(tab, z, ss, k, se, r, x)
      invariant BandInRange(z, ss, k - 1) && (r > 0 <==> k > ss && z[k - 1] == 0)
      decreases se + 1 - k
    {
      // rounding toward zero may leave nothing of it
      var temp := Shrink(block[order[k]], al);
      if temp == 0 {
        NextZero(tab, z, ss, k, se, r, x);
        r := r + 1;
      } else {
        InLimits(temp);
        ok, x := SendValue(e, r, temp, z, ss, k, se, h, sent, x);
        if !ok { return; }
        r := 0;
      }
      k := k + 1;
    }
    ScanEnd(tab, z, ss, se, r, x);
    NoBits(e, h, sent, x);
    ok := CountEob(e, r > 0, 0, ItemOf(tab, z, ss, se), h, sent);
  }

  lemma SendBegin(e: RunEncoder)
    requires e.Valid()
    ensures Sending(e, e.Pending(), e.sink.sent, [])
  {
    hide Sink.Valid;
  }

  lemma NoBits(e: RunEncoder, h: Held, sent: seq<Token>, x: seq<Token>)
    requires Sending(e, h, sent, x)
    ensures e.be <= MAX_CORR_BITS == e.bitBuffer.Length && e.bitBuffer[e.be..e.be + 0] == []
  {
  }

  function Items(tab: nat, ss: nat, se: nat, al: nat, order: Order, blocks: seq<Block>): (items: seq<Item>)
    requires ss <= se < 64
    ensures |items| == |blocks| && ItemsOk(items)
    ensures forall i :: 0 <= i < |blocks| ==> items[i] == ItemOf(tab, ZigZag(blocks[i], order, al), ss, se)
  {
    seq(|blocks|, i requires 0 <= i < |blocks| => ItemOf(tab, ZigZag(blocks[i], order, al), ss, se))
  }

  predicate AllInRange(ss: nat, se: nat, al: nat, order: Order, blocks: seq<Block>)
    requires se < 64
  {
    forall i :: 0 <= i < |blocks| ==> BandInRange(ZigZag(blocks[i], order, al), ss, se)
  }

  /** All MCUs of a scan, and finish_pass. */
  method EncodeScan(e: RunEncoder, blocks: seq<Block>, order: Order, ss: nat, se: nat, al: nat) returns (ok: bool)
    requires e.Valid() && e.Pending() == NONE && 1 <= ss <= se < 64
    modifies e, e.sink, e.sink.w
    ensures var xs := Stream(e.acTblNo, Items(e.acTblNo, ss, se, al, order, blocks), 0, 0);
      && ok == (AllInRange(ss, se, al, order, blocks) && e.sink.Can(xs))
      && (ok ==> e.sink.Valid() && e.sink.sent == old(e.sink.sent) + xs)
  {
    hide Sink.Valid, Sink.Can, Flush, Out, Stream, Small, ItemOf, BandInRange, ZigZag;
    var tab := e.acTblNo;
    ghost var items, sent := Items(tab, ss, se, al, order, blocks), e.sink.sent;
    ghost var total, done: seq<Token> := Sent(tab, items, 0, NONE), [];
    SentIsStream(tab, items, 0, NONE);
    EmptySides(total);
    EmptySides(sent);
    for i := 0 to |blocks|
      invariant e.Valid() && e.sink.sent == sent + done
      invariant done + Sent(tab, items, i, e.Pending()) == total
      invariant forall j :: 0 <= j < i ==> BandInRange(ZigZag(blocks[j], order, al), ss, se)
    {
      ghost var h := e.Pending();
      SentStep(tab, items, i, h);
      ghost var x, rest := Out(tab, h, items[i]), Sent(tab, items, i + 1, Next(h, items[i]));
      Concat(done, x, rest);
      Concat(sent, done, x);
      CanSplit(e.sink, done + x, rest);
      CanSplit(e.sink, done, x);
      ok := EncodeMcuAcFirst(e, blocks[i], order, ss, se, al);
      if !ok { return; }
      done := done + x;
    }
    ghost var last := Flush(tab, e.Pending());
    SentEnd(tab, items, e.Pending());
    CanSplit(e.sink, done, last);
    Concat(sent, done, last);
    ok := e.EmitEobrun();
    if ok { SentCan(e.sink, sent, total); }
  }

  // ---- Decoding ----

  class FirstDecoder {
    const r: BitReader
    var eobrun: nat  // blocks still to be skipped

    constructor (r: BitReader)
      ensures this.r == r && eobrun == 0
    {
      this.r, eobrun := r, 0;
    }

    /** One MCU on a working copy w of the reader: nothing if it is inside an end-of-band run, else its codes. */
    method Attempt(w: BitReader, d: seq<DTable>, tab: nat, block: array<int>, order: Order, ss: nat, se: nat, al: nat,
                   ghost tabs: seq<HuffCode.Table>, ghost items: seq<Item>, ghost i: nat, ghost z: seq<int>, ghost tail: seq<bool>)
        returns (ok: bool, run: nat)
      requires w.Valid() && Matching(d, tabs) && tab < |d| && block.Length == 64 && 1 <= ss <= se < 64
      modifies w, block
      ensures w.Valid() && (!ok ==> w.unreadMarker == 0)
      ensures old(w.Supplied()) ==> ok && w.Supplied()
      ensures old(Comes(w, tabs, tab, items, i, eobrun, z, ss, se, tail)) ==>
        if ok then
          && Within(items, i + 1, run) && Follows(w, tabs, Stream(tab, items, i + 1, run), tail)
          && Zag(block, order) == Grown(old(Zag(block, order)), z, al, ss, se + 1)
        else
          Half(Zag(block, order), old(Zag(block, order)), z, al, ss, se)
    {
      hide BitReader.Valid, BitReader.Supplied, Follows, Matching, Zag, Stream, BandAhead, AtBand, BandInRange, Pow2,
        Jcoef, RunOf, ItemOf, Filled, Half;
      ghost var expected := Comes(w, tabs, tab, items, i, eobrun, z, ss, se, tail);
      ghost var was := Zag(block, order);
      ok, run := true, eobrun;
      if run > 0 {
        if expected { InsideRun(tab, items, i, run, z, ss, se, was, al); }
        run := run - 1;
        return;
      }
      ghost var length, rest, after: seq<Token> := 1, [], [];
      if expected { length, rest, after := SplitBand(w, tabs, tab, items, i, z, ss, se, tail); }
      var k, eob;
      ok, k, eob := DecodeBand(w, d, tab, block, order, ss, se + 1, true, al, tabs, z, se, EobSize(length), rest, after, tail);
      if !ok {
        if expected { IsHalf(Zag(block, order), was, z, al, ss, k, se); }
        return;
      }
      if eob < 0 {
        if expected { EndsWithValue(w, tabs, tab, items, i, z, k, ss, se, rest, tail, Zag(block, order), was, al); }
      } else {
        ok, run := TakeRun(w, eob, tabs, items, i, tab, z, ss, se, length, after, tail, expected);
        if expected {
          if !ok { IsHalf(Zag(block, order), was, z, al, ss, se + 1, se); }
          FilledAll(Zag(block, order), was, z, al, ss, se);
        }
      }
    }

    /** Start on a run of 2^size and more ended blocks, of which the band at hand is the first. */
    method TakeRun(w: BitReader, size: nat, ghost tabs: seq<HuffCode.Table>, ghost items: seq<Item>, ghost i: nat, ghost tab: nat,
                   ghost z: seq<int>, ghost ss: nat, ghost se: nat, ghost length: nat, ghost after: seq<Token>, ghost tail: seq<bool>, ghost expected: bool)
        returns (ok: bool, run: nat)
      requires w.Valid() && size <= 14
      requires expected ==> 0 < length <= 0x7FFF && size == EobSize(length) && Follows(w, tabs, after, tail) && i < |items|
      requires expected ==> Within(items, i + 1, length - 1)
      requires expected ==> after == Raws(BitsOf(length % Pow2(EobSize(length)), EobSize(length))) + Stream(tab, items, i + 1, length - 1)
      modifies w
      ensures w.Valid() && (!ok ==> w.unreadMarker == 0)
      ensures old(w.Supplied()) ==> ok && w.Supplied()
      ensures ok && expected ==> Within(items, i + 1, run) && Follows(w, tabs, Stream(tab, items, i + 1, run), tail)
    {
      hide BitReader.Valid, BitReader.Supplied, Follows, Stream, Pow2, BitsOf, Raws;
      ok, run := true, 0;
      ghost var more := if expected then Stream(tab, items, i + 1, length - 1) else [];
      if expected { RunBits(length, more); }
      if size != 0 {
        var bits;
        ok, bits := NextBits(w, size, tabs, length % Pow2(size), more, tail);
        if !ok { return; }
        run := Pow2(size) + bits - 1;
      }
    }

    /** Decode one MCU, into a block whose band is zero.  If the data runs out, the state is as
        before, and the block holds nothing but coefficients that belong there; once data has been
        made up, nothing is read. */
    method DecodeMcu(d: seq<DTable>, tab: nat, block: array<int>, order: Order, ss: nat, se: nat, al: nat,
                     ghost tabs: seq<HuffCode.Table>, ghost items: seq<Item>, ghost i: nat, ghost z: seq<int>, ghost tail: seq<bool>)
        returns (ok: bool)
      requires r.Valid() && Matching(d, tabs) && tab < |d| && block.Length == 64 && 1 <= ss <= se < 64
      modifies this, r, block
      ensures r.Valid() && (!ok ==> unchanged(this, r) && r.unreadMarker == 0)
      ensures old(r.insufficientData) ==> ok && unchanged(this, r, block)
      ensures old(r.Supplied()) ==> ok && r.Supplied()
      ensures old(Comes(r, tabs, tab, items, i, eobrun, z, ss, se, tail)) ==>
        if ok then
          && Within(items, i + 1, eobrun) && Follows(r, tabs, Stream(tab, items, i + 1, eobrun), tail)
          && Zag(block, order) == Grown(old(Zag(block, order)), z, al, ss, se + 1)
        else
          Half(Zag(block, order), old(Zag(block, order)), z, al, ss, se)
    {
      hide BitReader.Valid, BitReader.Supplied, Follows, Matching, Zag, Stream, BandInRange, Pow2, ItemOf, Half, Grown;
      ok := true;
      if r.insufficientData {
        if Comes(r, tabs, tab, items, i, eobrun, z, ss, se, tail) { NotExpected(r, tabs, Stream(tab, items, i, eobrun), tail); }
        return;
      }
      r.Unmarked();
      var w := new BitReader.Copy(r);
      if i < |items| { SameReader(r, w, tabs, Stream(tab, items, i, eobrun), tail); }
      var run;
      ok, run := Attempt(w, d, tab, block, order, ss, se, al, tabs, items, i, z, tail);
      if ok {
        r.Take(w);
        eobrun := run;
        if i < |items| { SameReader(w, r, tabs, Stream(tab, items, i + 1, eobrun), tail); }
      }
    }
  }

  /** The input goes on with the stream from block i on, of which the band at hand is a part. */
  ghost predicate Comes(r: BitReader, tabs: seq<HuffCode.Table>, tab: nat, items: seq<Item>, i: nat, run: nat, z: seq<int>, ss: nat, se: nat, tail: seq<bool>)
    requires 1 <= ss <= se < 64
    reads r
  {
    && |z| == 64 && BandInRange(z, ss, se) && Within(items, i, run) && i < |items| && items[i] == ItemOf(tab, z, ss, se)
    && Follows(r, tabs, Stream(tab, items, i, run), tail)
  }

  /** The first coefficients of the band may be there already. */
  predicate Half(now: seq<int>, was: seq<int>, z: seq<int>, al: nat, ss: nat, se: nat) {
    |was| == |z| == 64 && ss <= 64 && exists k: nat :: k <= se + 1 && now == Grown(was, z, al, ss, k)
  }

  lemma IsHalf(now: seq<int>, was: seq<int>, z: seq<int>, al: nat, ss: nat, k: nat, se: nat)
    requires Filled(now, was, z, al, ss, k, true) && k <= se + 1
    ensures Half(now, was, z, al, ss, se)
  {
  }

  /** So another attempt that ends well comes to the same block. */
  lemma HalfAgain(x: seq<int>, y: seq<int>, now: seq<int>, z: seq<int>, al: nat, ss: nat, se: nat)
    requires Half(y, x, z, al, ss, se)
    ensures Grown(y, z, al, ss, se + 1) == Grown(x, z, al, ss, se + 1)
    ensures Half(now, y, z, al, ss, se) ==> Half(now, x, z, al, ss, se)
  {
    hide Jcoef, Pow2;
    var k: nat :| k <= se + 1 && y == Grown(x, z, al, ss, k);
    if Half(now, y, z, al, ss, se) {
      var m: nat :| m <= se + 1 && now == Grown(y, z, al, ss, m);
      assert now == Grown(x, z, al, ss, if k < m then m else k);
    }
  }

  /** The size category of an end-of-band run. */
  function EobSize(run: nat): nat { if run == 0 then 0 else Log2(run) }

  lemma RunBits(run: nat, more: seq<Token>)
    requires 0 < run <= 0x7FFF
    ensures run % Pow2(EobSize(run)) < Pow2(EobSize(run)) && run == Pow2(EobSize(run)) + run % Pow2(EobSize(run))
    ensures EobSize(run) == 0 ==> run == 1 && Raws(BitsOf(run % Pow2(EobSize(run)), EobSize(run))) + more == more
  {
    hide Pow2, Log2;
    RunLog(run);
    var q := DivMod(run, Pow2(EobSize(run)));
    Squeeze(run, Pow2(EobSize(run)), q, 1);
    if EobSize(run) == 0 {
      Pow2Values();
      NoRaws(BitsOf(run % Pow2(EobSize(run)), EobSize(run)));
      EmptySides(more);
    }
  }

  lemma NotExpected(r: BitReader, tabs: seq<HuffCode.Table>, xs: seq<Token>, tail: seq<bool>)
    requires r.insufficientData
    ensures !Follows(r, tabs, xs, tail)
  {
  }

  /** Inside a run there is nothing to read and nothing to store. */
  lemma InsideRun(tab: nat, items: seq<Item>, i: nat, m: nat, z: seq<int>, ss: nat, se: nat, was: seq<int>, al: nat)
    requires 1 <= ss <= se < 64 == |z| && |was| == 64 && m > 0 && Within(items, i, m) && items[i] == ItemOf(tab, z, ss, se)
    ensures Within(items, i + 1, m - 1) && Stream(tab, items, i, m) == Stream(tab, items, i + 1, m - 1)
    ensures was == Grown(was, z, al, ss, se + 1)
  {
    hide Jcoef, Pow2, NBits, Stream;
    StreamStep(tab, items, i);
    NoRaws(items[i].tail);
    EmptySides(Stream(tab, items, i + 1, m - 1));
    assert NextNonzero(z, ss, se) > se;
  }

  /** The stream at the start of a block outside a run. */
  lemma SplitBand(r: BitReader, tabs: seq<HuffCode.Table>, tab: nat, items: seq<Item>, i: nat, z: seq<int>, ss: nat, se: nat, tail: seq<bool>)
      returns (run: nat, rest: seq<Token>, after: seq<Token>)
    requires 1 <= ss <= se < 64 == |z| && BandInRange(z, ss, se) && i < |items| && items[i] == ItemOf(tab, z, ss, se)
    requires Follows(r, tabs, Stream(tab, items, i, 0), tail)
    ensures AtBand(r, tabs, tab, z, ss, se, rest, tail)
    ensures 0 < run <= 0x7FFF && BandAhead(z, ss, se, EobSize(run), tab, rest, after)
    ensures z[se] != 0 ==> rest == Stream(tab, items, i + 1, 0)
    ensures z[se] == 0 ==> Within(items, i + 1, run - 1)
    ensures z[se] == 0 ==> after == Raws(BitsOf(run % Pow2(EobSize(run)), EobSize(run))) + Stream(tab, items, i + 1, run - 1)
  {
    hide Follows, BandHead, BandInRange, NBits, Pow2, BitsOf, Raws, Stream, Log2;
    StreamStep(tab, items, i);
    run := 1;
    after := Stream(tab, items, i + 1, 0);
    if z[se] == 0 {
      run := RunOf(items, i + 1, Held(1, items[i].tail));
      RunLog(run);
      var more := Stream(tab, items, i + 1, run - 1);
      var sym, low := [Sym(tab, Log2(run) * 16)], Raws(BitsOf(run % Pow2(Log2(run)), Log2(run)));
      after := low + more;
      NoRaws(items[i].tail);
      EmptySides(items[i].head + EobTokens(tab, run));
      Concat(items[i].head, EobTokens(tab, run), more);
      Concat(sym, low, more);
    } else {
      RunLog(1);
    }
    rest := if z[se] == 0 then [Sym(tab, EobSize(run) * 16)] + after else after;
  }

  lemma FilledAll(now: seq<int>, was: seq<int>, z: seq<int>, al: nat, ss: nat, se: nat)
    requires Filled(now, was, z, al, ss, se + 1, true)
    ensures now == Grown(was, z, al, ss, se + 1)
  {
  }

  /** A band whose last coefficient is not zero has no end-of-band code. */
  lemma EndsWithValue(r: BitReader, tabs: seq<HuffCode.Table>, tab: nat, items: seq<Item>, i: nat, z: seq<int>, k: nat, ss: nat, se: nat,
                      rest: seq<Token>, tail: seq<bool>, now: seq<int>, was: seq<int>, al: nat)
    requires se + 1 <= k && i < |items| && AtBand(r, tabs, tab, z, k, se, rest, tail) && Filled(now, was, z, al, ss, k, true)
    requires z[se] != 0 ==> rest == Stream(tab, items, i + 1, 0)
    ensures Within(items, i + 1, 0) && Follows(r, tabs, Stream(tab, items, i + 1, 0), tail) && now == Grown(was, z, al, ss, se + 1)
  {
    hide Follows, Stream;
    EmptySides(rest);
    assert BandHead(tab, z, se + 1, se) == [];
  }

  // ---- A whole scan ----

  /** The block has taken up what the scan says of the band of src; the rest is as it was. */
  predicate Decoded(got: seq<int>, was: seq<int>, src: Block, order: Order, ss: nat, se: nat, al: nat)
    requires ss <= 64
  {
    |got| == |was| == 64 && Zagged(got, order) == Grown(Zagged(was, order), ZigZag(src, order, al), al, ss, se + 1)
  }

  lemma IsDecoded(a: array<int>, was: seq<int>, src: Block, order: Order, ss: nat, se: nat, al: nat)
    requires a.Length == |was| == 64 && ss <= 64 && Zag(a, order) == Grown(Zagged(was, order), ZigZag(src, order, al), al, ss, se + 1)
    ensures Decoded(a[..], was, src, order, ss, se, al)
  {
    assert Zagged(a[..], order) == Zag(a, order);
  }

  method DecodeScan(e: FirstDecoder, d: seq<DTable>, tab: nat, order: Order, ss: nat, se: nat, al: nat, olds: seq<seq<int>>,
                    ghost tabs: seq<HuffCode.Table>, ghost blocks: seq<Block>, ghost tail: seq<bool>)
      returns (got: seq<seq<int>>)
    requires e.r.Valid() && e.r.Supplied() && Matching(d, tabs) && tab < |d| && 1 <= ss <= se < 64 && e.eobrun == 0
    requires |olds| == |blocks| && AllInRange(ss, se, al, order, blocks) && forall i :: 0 <= i < |olds| ==> |olds[i]| == 64
    requires Follows(e.r, tabs, Stream(tab, Items(tab, ss, se, al, order, blocks), 0, 0), tail)
    modifies e, e.r
    ensures e.r.Valid() && Follows(e.r, tabs, [], tail) && e.eobrun == 0
    ensures |got| == |olds| && forall i :: 0 <= i < |olds| ==> Decoded(got[i], olds[i], blocks[i], order, ss, se, al)
  {
    hide BitReader.Valid, BitReader.Supplied, Follows, Matching, Stream, ItemOf, BandInRange, Grown, Decoded, ZigZag;
    ghost var items := Items(tab, ss, se, al, order, blocks);
    got := [];
    for i := 0 to |olds|
      invariant e.r.Valid() && e.r.Supplied() && Within(items, i, e.eobrun)
      invariant Follows(e.r, tabs, Stream(tab, items, i, e.eobrun), tail)
      invariant |got| == i && forall j :: 0 <= j < i ==> Decoded(got[j], olds[j], blocks[j], order, ss, se, al)
    {
      var buffer := new int[64](k requires 0 <= k < 64 => olds[i][k]);
      assert Zag(buffer, order) == Zagged(olds[i], order);
      var _ := e.DecodeMcu(d, tab, buffer, order, ss, se, al, tabs, items, i, ZigZag(blocks[i], order, al), tail);
      IsDecoded(buffer, olds[i], blocks[i], order, ss, se, al);
      got := got + [buffer[..]];
    }
    assert Stream(tab, items, |olds|, e.eobrun) == [] by { StreamEnd(tab, items, e.eobrun); }
  }

  lemma StreamEnd(tab: nat, items: seq<Item>, m: nat)
    ensures Stream(tab, items, |items|, m) == []
  {
  }

  /** Encoding a first AC scan, packing it into bytes and decoding it again gives the band of
      every block at the precision of the scan. */
  method FirstRoundTrip(ct: CTable, d: DTable, order: Order, ss: nat, se: nat, al: nat, blocks: seq<Block>, olds: seq<seq<int>>, marker: seq<byte>)
      returns (ok: bool, got: seq<seq<int>>)
    requires |olds| == |blocks| && forall i :: 0 <= i < |olds| ==> |olds[i]| == 64
    requires Derived(d) && Good(d.pub) && Encodes(ct, d.pub, |Szs(d.pub)|) && 1 <= ss <= se < 64 && IsMarker(marker)
    ensures ok == (AllInRange(ss, se, al, order, blocks) && AllSendable([d.pub], Stream(0, Items(0, ss, se, al, order, blocks), 0, 0)))
    ensures ok ==> |got| == |blocks| && forall i :: 0 <= i < |blocks| ==> Decoded(got[i], olds[i], blocks[i], order, ss, se, al)
  {
    hide Derived, On, Stream, Items, Good, Encodes, Sink.Valid, Stuff, ByteBits, StreamBits, Sendable, AllInRange, Decoded, Follows;
    ghost var tabs := [d.pub];
    var sink := new Sink.Output(tabs, [ct]);
    var e := new RunEncoder(sink, 0);
    got := [];
    ok := EncodeScan(e, blocks, order, ss, se, al);
    if !ok { return; }
    EmptySides(Stream(0, Items(0, ss, se, al, order, blocks), 0, 0));
    var bytes, data, pad := CloseSegment(sink);
    var r := OpenSegment(bytes + marker, data, tabs, sink.sent, pad);
    FollowsStart(r, tabs, sink.sent, pad);
    var f := new FirstDecoder(r);
    got := DecodeScan(f, [d], 0, order, ss, se, al, olds, tabs, blocks, pad);
  }
}
