/** encode_mcu_AC_refine of jchuff.c. */
module AcRefineEncoder {
  import opened Radix
  import opened Bits
  import opened Blocks
  import opened HuffTokens
  import opened EobRuns
  import opened RunSender
  import opened AcRefine

  /** Flush the pending run, then send a symbol, the sign of a new coefficient if there is one,
      and the br correction bits buffered at brBuffer. */
  method EmitCode(e: RunEncoder, s: byte, sign: seq<bool>, brBuffer: nat, br: nat) returns (ok: bool)
    requires e.Loose() && |sign| <= 1 && brBuffer + br <= MAX_CORR_BITS
    modifies e, e.sink, e.sink.w
    ensures !ok ==> !e.sink.Can(Flush(e.acTblNo, old(e.Pending())) + [Sym(e.acTblNo, s)])
    ensures ok ==> e.Loose() && e.Pending() == NONE
    ensures var code := [Sym(e.acTblNo, s)] + Raws(sign) + Raws(e.bitBuffer[brBuffer..brBuffer + br]);
      ok ==> e.sink.sent == old(e.sink.sent) + Flush(e.acTblNo, old(e.Pending())) + code
  {
    hide Sink.Valid, Flush, Raws, BitsOf, Pow2, Sink.Can;
    ghost var h := e.Pending();
    CanSplit(e.sink, Flush(e.acTblNo, h), [Sym(e.acTblNo, s)]);
    ok := e.EmitEobrun();
    if !ok { return; }
    ok := e.sink.EmitSymbol(e.acTblNo, s);
    if !ok { return; }
    if |sign| == 1 {
      OneBit(sign[0]);
      ok := e.sink.EmitBits(if sign[0] then 1 else 0, 1);
      assert sign == [sign[0]];
    } else {
      NoRaws(sign);
    }
    e.EmitBufferedBits(brBuffer, br);
  }

  /** Send the next code of the head. */
  method SendCode(e: RunEncoder, s: byte, sign: seq<bool>, br: nat,
                  ghost h: Held, ghost sent: seq<Token>, ghost x: seq<Token>, ghost rest: seq<Token>, ghost item: Item)
      returns (ok: bool, ghost y: seq<Token>)
    requires Sending(e, h, sent, x) && |sign| <= 1 && e.be + br <= MAX_CORR_BITS
    requires item.head == x + ([Sym(e.acTblNo, s)] + Raws(sign) + Raws(e.bitBuffer[e.be..e.be + br]) + rest)
    modifies e, e.sink, e.sink.w
    ensures !ok ==> !e.sink.Can(Out(e.acTblNo, h, item))
    ensures ok ==> Sending(e, h, sent, y) && y != [] && y + rest == item.head && e.be == 0
  {
    hide Sink.Valid, Flush, Raws, Sink.Can, Out;
    ghost var sym, more := [Sym(e.acTblNo, s)], Raws(e.bitBuffer[e.be..e.be + br]);
    ghost var code := sym + Raws(sign) + more;
    y := x + code;
    NothingPending(e.acTblNo);
    EmptySides(code);
    EmptySides(e.sink.sent);
    Assoc(sent + Flush(e.acTblNo, h), x, code);
    Assoc(x, code, rest);
    Assoc(sym, Raws(sign), more);
    ok := EmitCode(e, s, sign, e.be, br);
    if !ok {
      HeadBlocked(e, s, h, x, Raws(sign) + more, rest, item);
    }
  }

  lemma HeadBlocked(e: RunEncoder, s: byte, h: Held, x: seq<Token>, more: seq<Token>, rest: seq<Token>, item: Item)
    requires Small(h) && !e.sink.Can(Flush(e.acTblNo, if x == [] then h else NONE) + [Sym(e.acTblNo, s)])
    requires item.head == x + (([Sym(e.acTblNo, s)] + more) + rest)
    ensures !e.sink.Can(Out(e.acTblNo, h, item))
  {
    hide Flush, Sink.Can, Out;
    NothingPending(e.acTblNo);
    var sink, f, sym := e.sink, Flush(e.acTblNo, h), [Sym(e.acTblNo, s)];
    CanSplit(sink, Flush(e.acTblNo, if x == [] then h else NONE), sym);
    CanNothing(sink);
    CanSplit(sink, sym, more);
    CanSplit(sink, sym + more, rest);
    CanSplit(sink, x, sym + more + rest);
    CanSplit(sink, f, item.head);
    OutParts(sink, e.acTblNo, h, item);
  }

  /** The pre-pass: transformed absolute values, and the last newly nonzero coefficient. */
  method FindAbsvalues(block: Block, order: Order, tab: nat, ss: nat, se: nat, al: nat) returns (absvalues: array<nat>, eob: nat)
    requires 1 <= ss <= se < 64
    ensures fresh(absvalues) && absvalues.Length == 64
    ensures var b := BandOf(tab, ss, se, block, order, al);
      eob == Eob(b) && forall k :: ss <= k <= se ==> absvalues[k] == b.z[k]
  {
    hide Shr;
    ghost var b := BandOf(tab, ss, se, block, order, al);
    absvalues := new nat[64];
    eob := 0;
    for k := ss to se + 1
      invariant eob == LastNew(b, k - 1) && forall j :: ss <= j < k ==> absvalues[j] == b.z[j]
    {
      var temp := Shr(Abs(block[order[k]]), al);
      absvalues[k] := temp;
      if temp == 1 { eob := k; }
    }
  }

  /** How far the main loop has come: at position k, with r zeros and the correction bits br. */
  ghost predicate Scanning(b: Band, k: nat, r: nat, br: seq<bool>, x: seq<Token>)
    requires BandOk(b)
  {
    && b.ss <= k <= b.se + 1 && |br| <= k - b.ss
    && x + Scanned(b, k, r, br) == Head(b, b.ss)
    && (k >= TailStart(b) ==> br + Tail(b, k) == Tail(b, TailStart(b)) && (r > 0 || br != [] <==> k > TailStart(b)))
  }

  /** Position k is passed without a code. */
  lemma Pass(b: Band, k: nat, r: nat, br: seq<bool>, x: seq<Token>)
    requires BandOk(b) && k <= b.se && Scanning(b, k, r, br, x)
    ensures b.z[k] == 0 ==> Scanning(b, k + 1, r + 1, br, x)
    ensures b.z[k] > 1 && (r <= 15 || k > Eob(b)) ==> Scanning(b, k + 1, r, br + [Bit(b.z[k])], x)
  {
    hide LastNew, Head;
    if k >= TailStart(b) {
      assert br + Tail(b, k) == if b.z[k] > 1 then br + [Bit(b.z[k])] + Tail(b, k + 1) else br + Tail(b, k + 1);
    }
  }

  /** The state of the main loop. */
  ghost predicate Looping(e: RunEncoder, b: Band, k: nat, r: nat, br: nat, h: Held, sent: seq<Token>, x: seq<Token>)
    reads e, e.sink, e.sink.w, e.bitBuffer
  {
    && BandOk(b) && b.tab == e.acTblNo && e.bitBuffer.Length == MAX_CORR_BITS
    && Sending(e, h, sent, x) && e.be + br <= MAX_CORR_BITS
    && Scanning(b, k, r, e.bitBuffer[e.be..e.be + br], x)
  }

  /** Send a ZRL for every sixteen zeros, as long as a newly nonzero coefficient still follows. */
  method SendZrls(e: RunEncoder, k: nat, eob: nat, r0: nat, br0: nat,
                  ghost b: Band, ghost h: Held, ghost sent: seq<Token>, ghost x0: seq<Token>)
      returns (ok: bool, r: nat, br: nat, ghost x: seq<Token>)
    requires Looping(e, b, k, r0, br0, h, sent, x0) && eob == Eob(b) && k <= b.se && b.z[k] != 0
    modifies e, e.sink, e.sink.w
    ensures !ok ==> !e.sink.Can(Out(e.acTblNo, h, ItemOf(b)))
    ensures ok ==> Looping(e, b, k, r, br, h, sent, x) && (r <= 15 || k > eob)
  {
    hide Sink.Valid, Sink.Can, Flush, Raws, Head, Eob, Sending, Scanning, Out;
    ok, r, br, x := true, r0, br0, x0;
    while r > 15 && k <= eob
      invariant Looping(e, b, k, r, br, h, sent, x)
    {
      CutZrl(b, k, r, e.bitBuffer[e.be..e.be + br], x);
      ok, x := SendCode(e, 0xF0, [], br, h, sent, x, Scanned(b, k, r - 16, []), ItemOf(b));
      if !ok { return; }
      r, br := r - 16, 0;
      assert e.bitBuffer[e.be..e.be + br] == [];
      Cut(b, k, r, x);
    }
  }

  lemma CutZrl(b: Band, k: nat, r: nat, br: seq<bool>, x: seq<Token>)
    requires BandOk(b) && Scanning(b, k, r, br, x) && r > 15 && k <= Eob(b) && b.z[k] != 0
    ensures b.ss <= k <= b.se && ItemOf(b).head == x + ([Sym(b.tab, 0xF0)] + Raws([]) + Raws(br) + Scanned(b, k, r - 16, []))
  {
    hide Raws, Eob, Head, Scanned;
    NoRaws([]);
    assert [Sym(b.tab, 0xF0)] + Raws([]) == [Sym(b.tab, 0xF0)];
    ScannedZrl(b, k, r, br);
  }

  lemma ScannedZrl(b: Band, k: nat, r: nat, br: seq<bool>)
    requires BandOk(b) && r > 15 && k <= Eob(b) && b.z[k] != 0
    ensures Scanned(b, k, r, br) == [Sym(b.tab, 0xF0)] + Raws(br) + Scanned(b, k, r - 16, [])
  {
    hide Raws, Eob;
  }

  lemma ScannedNew(b: Band, k: nat, r: nat, br: seq<bool>)
    requires BandOk(b) && r <= 15 && k <= Eob(b) && b.z[k] == 1
    ensures Scanned(b, k, r, br) == [Sym(b.tab, r * 16 + 1), Raw(!b.neg[k])] + Raws(br) + Scanned(b, k + 1, 0, [])
  {
    hide Raws, Eob;
  }

  /** Behind a code the scan starts with nothing buffered. */
  lemma Cut(b: Band, k: nat, r: nat, y: seq<Token>)
    requires BandOk(b) && b.ss <= k <= TailStart(b) && (k == TailStart(b) ==> r == 0)
    requires y + Scanned(b, k, r, []) == ItemOf(b).head
    ensures Scanning(b, k, r, [], y)
  {
    hide Raws, Head, Scanned;
    assert k == TailStart(b) ==> [] + Tail(b, k) == Tail(b, k);
  }

  lemma CutNew(b: Band, k: nat, r: nat, br: seq<bool>, x: seq<Token>)
    requires BandOk(b) && Scanning(b, k, r, br, x) && r <= 15 && k <= b.se && b.z[k] == 1
    ensures ItemOf(b).head == x + ([Sym(b.tab, r * 16 + 1)] + Raws([!b.neg[k]]) + Raws(br) + Scanned(b, k + 1, 0, []))
    ensures b.ss <= k <= Eob(b)
  {
    hide Raws, Eob, Head, Scanned;
    OneRaw(!b.neg[k]);
    assert [Sym(b.tab, r * 16 + 1)] + Raws([!b.neg[k]]) == [Sym(b.tab, r * 16 + 1), Raw(!b.neg[k])];
    ScannedNew(b, k, r, br);
  }

  lemma OneRaw(x: bool)
    ensures Raws([x]) == [Raw(x)]
  {
  }

  method SendNew(e: RunEncoder, k: nat, r: nat, br: nat, negative: bool,
                 ghost b: Band, ghost h: Held, ghost sent: seq<Token>, ghost x0: seq<Token>)
      returns (ok: bool, ghost x: seq<Token>)
    requires Looping(e, b, k, r, br, h, sent, x0) && k <= b.se && b.z[k] == 1 && r <= 15 && negative == b.neg[k]
    modifies e, e.sink, e.sink.w
    ensures !ok ==> !e.sink.Can(Out(e.acTblNo, h, ItemOf(b)))
    ensures ok ==> Looping(e, b, k + 1, 0, 0, h, sent, x)
  {
    hide Sink.Valid, Sink.Can, Flush, Raws, Head, Eob, Sending, Scanning, Out;
    CutNew(b, k, r, e.bitBuffer[e.be..e.be + br], x0);
    ok, x := SendCode(e, r * 16 + 1, [!negative], br, h, sent, x0, Scanned(b, k + 1, 0, []), ItemOf(b));
    if ok {
      assert e.bitBuffer[e.be..e.be + 0] == [];
      Cut(b, k + 1, 0, x);
    }
  }

  /** Buffer a correction bit. */
  method Buffer(e: RunEncoder, k: nat, r: nat, br: nat, temp: nat,
                ghost b: Band, ghost h: Held, ghost sent: seq<Token>, ghost x: seq<Token>)
    requires Looping(e, b, k, r, br, h, sent, x) && k <= b.se && b.z[k] == temp > 1 && (r <= 15 || k > Eob(b))
    modifies e.bitBuffer
    ensures Looping(e, b, k + 1, r, br + 1, h, sent, x)
  {
    hide Sink.Valid, Flush, Raws, Scanned, Tail, Head, Eob;
    ghost var bits := e.bitBuffer[e.be..e.be + br];
    Pass(b, k, r, bits, x);
    ghost var before := e.bitBuffer[..e.be];
    e.bitBuffer[e.be + br] := temp % 2 == 1;
    assert e.bitBuffer[..e.be] == before;
    assert e.bitBuffer[e.be..e.be + br + 1] == bits + [Bit(temp)];
  }

  /** At the end of the band everything has been said except for the tail. */
  lemma AtEnd(e: RunEncoder, b: Band, r: nat, br: nat, h: Held, sent: seq<Token>, x: seq<Token>)
    requires Looping(e, b, b.se + 1, r, br, h, sent, x)
    ensures var item := ItemOf(b);
      && Sending(e, h, sent, item.head) && item.eob == (r > 0 || br > 0)
      && e.be + br <= MAX_CORR_BITS == e.bitBuffer.Length && item.tail == e.bitBuffer[e.be..e.be + br]
  {
    hide LastNew, Head, Sending, Tail;
    var bits := e.bitBuffer[e.be..e.be + br];
    EmptySides(x);
    TailEnds(b, bits);
  }

  lemma TailEnds(b: Band, br: seq<bool>)
    requires BandOk(b)
    ensures Tail(b, b.se + 1) == [] && br + Tail(b, b.se + 1) == br
  {
  }

  /** Figure G.7 for the band of one block. */
  method EncodeMcuAcRefine(e: RunEncoder, block: Block, order: Order, ss: nat, se: nat, al: nat) returns (ok: bool)
    requires e.Valid() && 1 <= ss <= se < 64
    modifies e, e.sink, e.sink.w, e.bitBuffer
    ensures var x := ItemOf(BandOf(e.acTblNo, ss, se, block, order, al));
      && ok == e.sink.Can(Out(e.acTblNo, old(e.Pending()), x))
      && (ok ==> e.Valid() && e.Pending() == Next(old(e.Pending()), x))
      && (ok ==> e.sink.sent == old(e.sink.sent) + Out(e.acTblNo, old(e.Pending()), x))
  {
    hide Sink.Valid, Sink.Can, Flush, Raws, ItemOf, Eob, Looping, Out, Next, Shr;
    ghost var b := BandOf(e.acTblNo, ss, se, block, order, al);
    ghost var h, sent := e.Pending(), e.sink.sent;
    var absvalues, eob := FindAbsvalues(block, order, e.acTblNo, ss, se, al);
    var r, br, k := 0, 0, ss;
    ghost var x := Start(e, b);
    ok := true;
    while k <= se
      invariant k <= se + 1 && Looping(e, b, k, r, br, h, sent, x)
      invariant forall j :: ss <= j <= se ==> absvalues[j] == b.z[j]
      decreases se + 1 - k
    {
      var temp := absvalues[k];
      if temp == 0 {
        PassZero(e, b, k, r, br, h, sent, x);
        r, k := r + 1, k + 1;
        continue;
      }
      ok, r, br, x := SendZrls(e, k, eob, r, br, b, h, sent, x);
      if !ok { return; }
      if temp > 1 {
        Buffer(e, k, r, br, temp, b, h, sent, x);
        br, k := br + 1, k + 1;
        continue;
      }
      ok, x := SendNew(e, k, r, br, block[order[k]] < 0, b, h, sent, x);
      if !ok { return; }
      r, br, k := 0, 0, k + 1;
    }
    AtEnd(e, b, r, br, h, sent, x);
    ok := CountEob(e, r > 0 || br > 0, br, ItemOf(b), h, sent);
  }

  lemma PassZero(e: RunEncoder, b: Band, k: nat, r: nat, br: nat, h: Held, sent: seq<Token>, x: seq<Token>)
    requires Looping(e, b, k, r, br, h, sent, x) && k <= b.se && b.z[k] == 0
    ensures Looping(e, b, k + 1, r + 1, br, h, sent, x)
  {
    hide Sink.Valid, Scanning, Sending, Eob;
    Pass(b, k, r, e.bitBuffer[e.be..e.be + br], x);
  }

  lemma Start(e: RunEncoder, b: Band) returns (x: seq<Token>)
    requires e.Valid() && BandOk(b) && b.tab == e.acTblNo
    ensures x == [] && Looping(e, b, b.ss, 0, 0, e.Pending(), e.sink.sent, x)
  {
    hide Sink.Valid, Scanned, Head;
    x := [];
    ScannedIsHead(b, b.ss);
    assert [] + Scanned(b, b.ss, 0, []) == Head(b, b.ss);
    assert e.bitBuffer[e.be..e.be + 0] == [];
    assert [] + Tail(b, b.ss) == Tail(b, b.ss);
  }
}
