/** End-of-band runs of progressive scans (sections G.1.2.2 and G.1.2.3 of ITU-T T.81).  The
    encoder holds back end-of-band codes, and the correction bits that go with them, until the
    run of blocks they cover is over; the decoder reads the length of the run first. */
module EobRuns {
  import opened Radix
  import opened Bits
  import opened BitIo
  import opened HuffTokens

  const MAX_CORR_BITS := 1000
  const DCTSIZE2 := 64

  /** What coding one block takes: tokens up to its last nonzero coefficient, and, if anything
      is left of the band after that, an end-of-band with the correction bits of the rest. */
  datatype Item = Item(head: seq<Token>, eob: bool, tail: seq<bool>)

  predicate ItemOk(x: Item) {
    (x.head == [] ==> x.eob) && (!x.eob ==> x.tail == []) && |x.tail| < DCTSIZE2
  }

  predicate ItemsOk(items: seq<Item>) { forall x :: x in items ==> ItemOk(x) }

  function Log2(v: nat): (l: nat)
    requires 0 < v
  {
    if v == 1 then 0 else 1 + Log2(v / 2)
  }

  lemma {:induction false} Log2Bounds(v: nat)
    requires 0 < v
    ensures Pow2(Log2(v)) <= v < 2 * Pow2(Log2(v))
  {
    if v > 1 { Log2Bounds(v / 2); }
  }

  lemma RunLog(run: nat)
    requires 0 < run <= 0x7FFF
    ensures Log2(run) <= 14 && Pow2(Log2(run)) <= run < 2 * Pow2(Log2(run))
  {
    hide Pow2, Log2;
    Log2Bounds(run);
    Pow2Values();
    if 15 < Log2(run) { Pow2Grows(15, Log2(run)); }
  }

  /** An end-of-band run: its size category and the bits below the leading one. */
  function EobTokens(tab: nat, run: nat): seq<Token>
    requires 0 < run <= 0x7FFF
  {
    RunLog(run);
    var n := Log2(run);
    [Sym(tab, n * 16)] + Raws(BitsOf(run % Pow2(n), n))
  }

  // ---- The encoder's side ----

  /** A pending run and the correction bits of its blocks. */
  datatype Held = Held(run: nat, bits: seq<bool>)

  const NONE := Held(0, [])

  predicate Full(h: Held) { h.run == 0x7FFF || |h.bits| > MAX_CORR_BITS - DCTSIZE2 + 1 }

  /** What holds between blocks. */
  predicate Small(h: Held) { h.run < 0x7FFF && |h.bits| <= MAX_CORR_BITS - DCTSIZE2 + 1 && (h.run == 0 ==> h.bits == []) }

  function Flush(tab: nat, h: Held): seq<Token>
    requires h.run <= 0x7FFF
  {
    if h.run == 0 then [] else EobTokens(tab, h.run) + Raws(h.bits)
  }

  function Begin(h: Held, x: Item): Held { if x.head == [] then h else NONE }

  function Add(h: Held, x: Item): Held { Held(h.run + 1, h.bits + x.tail) }

  /** What is sent while block x is coded. */
  function Out(tab: nat, h: Held, x: Item): seq<Token>
    requires Small(h)
  {
    var h1 := Begin(h, x);
    (if x.head == [] then [] else Flush(tab, h) + x.head) +
    (if x.eob && Full(Add(h1, x)) then Flush(tab, Add(h1, x)) else [])
  }

  /** What is pending after block x.  The correction bits of one more block always fit. */
  function Next(h: Held, x: Item): (r: Held)
    requires Small(h) && ItemOk(x)
    ensures Small(r)
    ensures |Add(Begin(h, x), x).bits| <= MAX_CORR_BITS
  {
    var h1 := Begin(h, x);
    if !x.eob then h1 else if Full(Add(h1, x)) then NONE else Add(h1, x)
  }

  /** Everything sent for blocks i, i + 1, ... and at the end of the scan. */
  function Sent(tab: nat, items: seq<Item>, i: nat, h: Held): seq<Token>
    requires ItemsOk(items) && i <= |items| && Small(h)
    decreases |items| - i
  {
    if i == |items| then Flush(tab, h)
    else Out(tab, h, items[i]) + Sent(tab, items, i + 1, Next(h, items[i]))
  }

  lemma SentEnd(tab: nat, items: seq<Item>, h: Held)
    requires ItemsOk(items) && Small(h)
    ensures Sent(tab, items, |items|, h) == Flush(tab, h)
  {
  }

  // ---- The decoder's side ----

  /** The length that the pending run will have in the end. */
  function RunOf(items: seq<Item>, i: nat, h: Held): (r: nat)
    requires i <= |items| && 0 < h.run <= 0x7FFF
    ensures h.run <= r <= 0x7FFF && r - h.run <= |items| - i
    ensures forall j :: i <= j < i + (r - h.run) ==> items[j].head == []
    decreases |items| - i
  {
    if Full(h) || i == |items| || items[i].head != [] then h.run else RunOf(items, i + 1, Add(h, items[i]))
  }

  /** The stream as the decoder takes it apart: m more blocks of the current run, which have
      correction bits only, and then block by block. */
  function Stream(tab: nat, items: seq<Item>, i: nat, m: nat): seq<Token>
    requires i <= |items|
    decreases |items| - i
  {
    if i == |items| then []
    else if m > 0 then Raws(items[i].tail) + Stream(tab, items, i + 1, m - 1)
    else if !items[i].eob then items[i].head + Stream(tab, items, i + 1, 0)
    else
      var run := RunOf(items, i + 1, Held(1, items[i].tail));
      items[i].head + EobTokens(tab, run) + Raws(items[i].tail) + Stream(tab, items, i + 1, run - 1)
  }

  /** The blocks i, ..., i + m - 1 belong to the current end-of-band run. */
  ghost predicate Within(items: seq<Item>, i: nat, m: nat) {
    i + m <= |items| && forall j :: i <= j < i + m ==> items[j].head == []
  }

  lemma RawsAppend(x: seq<bool>, y: seq<bool>)
    ensures Raws(x + y) == Raws(x) + Raws(y)
  {
  }

  /** The stream from block i on when the run h is pending: it is announced first. */
  function Announced(tab: nat, items: seq<Item>, i: nat, h: Held): seq<Token>
    requires i <= |items| && h.run <= 0x7FFF
  {
    if h.run == 0 then Stream(tab, items, i, 0)
    else
      var run := RunOf(items, i, h);
      EobTokens(tab, run) + Raws(h.bits) + Stream(tab, items, i, run - h.run)
  }

  /** Holding runs back changes nothing: what the encoder sends is the stream that the decoder
      takes apart, with every run announced at its start. */
  lemma {:induction false} SentIsStream(tab: nat, items: seq<Item>, i: nat, h: Held)
    requires ItemsOk(items) && i <= |items| && Small(h)
    ensures Sent(tab, items, i, h) == Announced(tab, items, i, h)
    decreases |items| - i
  {
    if i == |items| {
      assert Stream(tab, items, i, 0) == [];
    } else {
      hide *;
      SentStep(tab, items, i, h);
      SentIsStream(tab, items, i + 1, Next(h, items[i]));
      SendsAnnounced(tab, items, i, h);
    }
  }

  lemma SentStep(tab: nat, items: seq<Item>, i: nat, h: Held)
    requires ItemsOk(items) && i < |items| && Small(h)
    ensures ItemOk(items[i])
    ensures Sent(tab, items, i, h) == Out(tab, h, items[i]) + Sent(tab, items, i + 1, Next(h, items[i]))
  {
  }

  lemma SendsAnnounced(tab: nat, items: seq<Item>, i: nat, h: Held)
    requires i < |items| && ItemOk(items[i]) && Small(h)
    ensures Out(tab, h, items[i]) + Announced(tab, items, i + 1, Next(h, items[i])) == Announced(tab, items, i, h)
  {
    hide EobTokens, Raws, RunOf, Stream, Announced, Full, Flush;
    var x := items[i];
    if x.head != [] {
      AfterHead(tab, items, i);
      EndsRun(tab, items, i, h);
      var rest := Announced(tab, items, i + 1, Next(NONE, x));
      assert Out(tab, h, x) + rest == Flush(tab, h) + (x.head + rest);
    } else {
      InRun(tab, items, i, h);
      assert Out(tab, h, x) == if Full(Add(h, x)) then Flush(tab, Add(h, x)) else [];
    }
  }

  lemma EndsRun(tab: nat, items: seq<Item>, i: nat, h: Held)
    requires i < |items| && items[i].head != [] && h.run <= 0x7FFF
    ensures Announced(tab, items, i, h) == Flush(tab, h) + Stream(tab, items, i, 0)
  {
    hide EobTokens, Raws, Stream;
  }

  /** A block with a head starts afresh. */
  lemma AfterHead(tab: nat, items: seq<Item>, i: nat)
    requires i < |items| && ItemOk(items[i]) && items[i].head != []
    ensures !Full(Add(NONE, items[i]))
    ensures items[i].head + Announced(tab, items, i + 1, Next(NONE, items[i])) == Stream(tab, items, i, 0)
  {
    hide EobTokens, Raws, Stream;
    var x := items[i];
    StreamStep(tab, items, i);
    if x.eob {
      assert NONE.bits + x.tail == x.tail;
      var run := RunOf(items, i + 1, Held(1, x.tail));
      Assoc4(x.head, EobTokens(tab, run), Raws(x.tail), Stream(tab, items, i + 1, run - 1));
      assert x.head + [] == x.head;
    }
  }

  lemma Assoc4(w: seq<Token>, x: seq<Token>, y: seq<Token>, z: seq<Token>)
    ensures w + x + y + z == w + (x + y) + z && w + x + y + z == w + [] + (x + y + z)
  {
  }

  lemma StreamStep(tab: nat, items: seq<Item>, i: nat)
    requires i < |items|
    ensures Stream(tab, items, i, 0) ==
      if !items[i].eob then items[i].head + Stream(tab, items, i + 1, 0)
      else items[i].head + EobTokens(tab, RunOf(items, i + 1, Held(1, items[i].tail))) + Raws(items[i].tail)
           + Stream(tab, items, i + 1, RunOf(items, i + 1, Held(1, items[i].tail)) - 1)
    ensures forall m :: m > 0 ==> Stream(tab, items, i, m) == Raws(items[i].tail) + Stream(tab, items, i + 1, m - 1)
  {
  }

  /** A block without a head goes on with the run, or begins one. */
  lemma InRun(tab: nat, items: seq<Item>, i: nat, h: Held)
    requires i < |items| && ItemOk(items[i]) && Small(h) && items[i].head == []
    ensures (if Full(Add(h, items[i])) then Flush(tab, Add(h, items[i])) else []) + Announced(tab, items, i + 1, Next(h, items[i]))
      == Announced(tab, items, i, h)
  {
    hide EobTokens, Raws, Stream, RunOf;
    var x := items[i];
    StreamStep(tab, items, i);
    RawsAppend(h.bits, x.tail);
    RunStep(items, i, h);
    var run := RunOf(items, i + 1, Add(h, x));
    var e, r, t := EobTokens(tab, run), Raws(h.bits), Raws(x.tail);
    if h.run == 0 {
      assert h.bits + x.tail == x.tail;
      assert [] + e == e;
    } else {
      var rest := Stream(tab, items, i + 1, run - h.run - 1);
      Concat(e, r, t + rest);
      Concat(e, r, t);
      Concat(e + r, t, rest);
    }
    assert Announced(tab, items, i + 1, Add(h, x)) == e + Raws(h.bits + x.tail) + Stream(tab, items, i + 1, run - (h.run + 1));
    if Full(Add(h, x)) { assert run == h.run + 1; }
    EmptySides(Announced(tab, items, i + 1, Next(h, x)));
  }

  lemma RunStep(items: seq<Item>, i: nat, h: Held)
    requires i < |items| && h.run < 0x7FFF && items[i].head == []
    ensures h.run > 0 && !Full(h) ==> RunOf(items, i, h) == RunOf(items, i + 1, Add(h, items[i]))
    ensures Full(Add(h, items[i])) ==> RunOf(items, i + 1, Add(h, items[i])) == h.run + 1
  {
  }

  // ---- The encoder's state ----

  class RunEncoder {
    const sink: Sink
    const acTblNo: nat
    var eobrun: nat               // blocks ended but not yet sent
    var be: nat                   // how many bits of bitBuffer are waiting
    const bitBuffer: array<bool>  // correction bits of ended blocks

    ghost predicate Loose()
      reads this, sink, sink.w, bitBuffer
    {
      && sink.Valid() && acTblNo < |sink.tabs| && bitBuffer.Length == MAX_CORR_BITS
      && eobrun <= 0x7FFF && be <= MAX_CORR_BITS && (eobrun == 0 ==> be == 0)
    }

    ghost function Pending(): Held
      reads this, bitBuffer
      requires be <= bitBuffer.Length
    {
      Held(eobrun, bitBuffer[..be])
    }

    /** Between MCUs. */
    ghost predicate Valid()
      reads this, sink, sink.w, bitBuffer
    {
      Loose() && Small(Pending())
    }

    constructor (sink: Sink, acTblNo: nat)
      requires sink.Valid() && acTblNo < |sink.tabs|
      ensures Valid() && Pending() == NONE && this.sink == sink && this.acTblNo == acTblNo && fresh(bitBuffer)
    {
      this.sink, this.acTblNo, eobrun, be := sink, acTblNo, 0, 0;
      bitBuffer := new bool[MAX_CORR_BITS];
    }

    /** Send some of the waiting correction bits. */
    method EmitBufferedBits(start: nat, nbits: nat)
      requires Loose() && start + nbits <= MAX_CORR_BITS
      modifies sink, sink.w
      ensures Loose() && sink.sent == old(sink.sent) + Raws(bitBuffer[start..start + nbits])
    {
      hide BitsOf, Pow2, Sink.Valid, Raws;
      var i := start;
      NoRaws(bitBuffer[start..i]);
      while i < start + nbits
        invariant start <= i <= start + nbits && Loose()
        invariant sink.sent == old(sink.sent) + Raws(bitBuffer[start..i])
      {
        ghost var sent := sink.sent;
        OneBit(bitBuffer[i]);
        var _ := sink.EmitBits(if bitBuffer[i] then 1 else 0, 1);
        assert bitBuffer[start..i + 1] == bitBuffer[start..i] + [bitBuffer[i]];
        RawsAppend(bitBuffer[start..i], [bitBuffer[i]]);
        assert sink.sent == old(sink.sent) + (Raws(bitBuffer[start..i]) + Raws([bitBuffer[i]]));
        i := i + 1;
      }
    }

    /** Send the run of ended blocks, if there is one.  The only error is a symbol without a code;
        the check for a run of more than 15 bits never fires. */
    method EmitEobrun() returns (ok: bool)
      requires Loose()
      modifies this, sink, sink.w
      ensures ok == sink.Can(Flush(acTblNo, old(Pending())))
      ensures ok ==> Loose() && Pending() == NONE
      ensures ok ==> sink.sent == old(sink.sent) + Flush(acTblNo, old(Pending()))
    {
      hide Sink.Valid, Sink.Can, BitsOf, Pow2, Log2, Raws, EobTokens, Flush;
      ok := true;
      ghost var h, sent := Pending(), sink.sent;
      FlushIs(acTblNo, h);
      if eobrun > 0 {
        var nbits := FloorLog(eobrun);
        RunLog(eobrun);
        if nbits > 14 { return false; }
        EobCan(sink, acTblNo, h);
        ok := sink.EmitSymbol(acTblNo, nbits * 16);
        if !ok { return; }
        ghost var sym, low := [Sym(acTblNo, nbits * 16)], Raws(BitsOf(eobrun % Pow2(nbits), nbits));
        if nbits != 0 {
          ok := sink.EmitBits(eobrun, nbits);
        } else {
          NoRaws(BitsOf(eobrun % Pow2(nbits), nbits));
          EmptySides(sink.sent);
        }
        Concat(sent, sym, low);
        Concat(sent, sym + low, Raws(h.bits));
        EmitBufferedBits(0, be);
        eobrun, be := 0, 0;
      } else {
        EmptySides(sent);
        CanNothing(sink);
      }
    }
  }

  lemma FlushIs(tab: nat, h: Held)
    requires h.run <= 0x7FFF
    ensures Flush(tab, h) == if h.run == 0 then [] else
      (RunLog(h.run); [Sym(tab, Log2(h.run) * 16)] + Raws(BitsOf(h.run % Pow2(Log2(h.run)), Log2(h.run))) + Raws(h.bits))
  {
  }

  lemma CanNothing(sink: Sink)
    ensures sink.Can([])
  {
  }

  method FloorLog(v: nat) returns (nbits: nat)
    requires 0 < v
    ensures nbits == Log2(v)
  {
    var temp := v;
    nbits := 0;
    while temp / 2 != 0
      invariant 0 < temp && nbits + Log2(temp) == Log2(v)
    {
      temp := temp / 2;
      nbits := nbits + 1;
    }
  }

  lemma NoRaws(x: seq<bool>)
    requires x == []
    ensures Raws(x) == []
  {
  }

  lemma OneBit(b: bool)
    ensures BitsOf((if b then 1 else 0) % Pow2(1), 1) == [b]
  {
    assert BitsOf(0, 1) == BitsOf(0, 0) + [false] && BitsOf(1, 1) == BitsOf(0, 0) + [true];
  }

  /** Only the symbol of an end-of-band run can lack a code. */
  lemma EobCan(sink: Sink, tab: nat, h: Held)
    requires 0 < h.run <= 0x7FFF
    ensures Log2(h.run) * 16 < 256
    ensures sink.Can(Flush(tab, h)) <==> sink.Can([Sym(tab, Log2(h.run) * 16)])
  {
    hide Log2, BitsOf, Pow2;
    RunLog(h.run);
    var s, n := Sym(tab, Log2(h.run) * 16), Log2(h.run);
    assert Flush(tab, h)[0] == s;
    assert forall x :: x in Flush(tab, h) ==> x == s || x.Raw?;
  }

  /** What has been sent could be sent. */
  lemma SentCan(sink: Sink, before: seq<Token>, xs: seq<Token>)
    requires sink.Valid() && sink.sent == before + xs
    ensures sink.Can(xs)
  {
    hide Sendable;
  }

  lemma CanSplit(sink: Sink, xs: seq<Token>, ys: seq<Token>)
    ensures sink.Can(xs + ys) <==> sink.Can(xs) && sink.Can(ys)
  {
    hide Sendable;
  }
}
