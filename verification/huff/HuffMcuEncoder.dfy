/** encode_one_block, encode_mcu_DC_first, encode_mcu_AC_first and htest_one_block of
    jchuff.c. */
module HuffMcuEncoder {
  import opened Radix
  import opened Bits
  import opened Blocks
  import opened HuffTokens
  import opened EobRuns
  import opened HuffBlock

  /** The size category of a magnitude. */
  method CountBits(v: nat) returns (nbits: nat)
    ensures nbits == NBits(v)
  {
    var temp := v;
    nbits := 0;
    while temp != 0
      invariant nbits + NBits(temp) == NBits(v)
    {
      nbits := nbits + 1;
      temp := temp / 2;
    }
  }

  lemma Category(r: nat, n: nat)
    requires r <= 15 && n <= 15
    ensures (r * 16 + n) % 256 == r * 16 + n
  {
  }

  /** The symbol of a value is what may lack a code. */
  lemma ValueCan(sink: Sink, tab: nat, r: nat, v: int)
    ensures sink.Can(ValueTokens(tab, r, v)) <==> sink.Can([Sym(tab, (r * 16 + NBits(v)) % 256)])
  {
    hide BitsOf, NBits, Sink.Can;
    var sym, low := [Sym(tab, (r * 16 + NBits(v)) % 256)], Raws(BitsOf(Low(v), NBits(v)));
    RawsCan(sink, BitsOf(Low(v), NBits(v)));
    CanSplit(sink, sym, low);
  }

  lemma RawsCan(sink: Sink, bits: seq<bool>)
    ensures sink.Can(Raws(bits))
  {
  }

  /** Emit (or count) a run of zeros and a value, unless the value is out of range. */
  method EmitValue(sink: Sink, tab: nat, r: nat, v: int, limit: nat) returns (ok: bool)
    requires sink.Valid() && tab < |sink.tabs| && r <= 15 && limit <= MAX_COEF_BITS + 1
    modifies sink, sink.w
    ensures ok == (NBits(v) <= limit && sink.Can(ValueTokens(tab, r, v)))
    ensures ok ==> sink.Valid() && sink.sent == old(sink.sent) + ValueTokens(tab, r, v)
  {
    hide Sink.Valid, Sink.Can, BitsOf, Pow2, Raws, NBits;
    var temp2 := if v < 0 then v - 1 else v;
    var nbits := CountBits(Abs(v));
    SameBits(v);
    if nbits > limit { return false; }
    Category(r, nbits);
    ValueCan(sink, tab, r, v);
    ghost var sent := sink.sent;
    ok := sink.EmitSymbol(tab, r * 16 + nbits);
    if !ok { return; }
    ghost var sym, low := [Sym(tab, r * 16 + nbits)], BitsOf(Low(v), nbits);
    if nbits != 0 {
      ok := sink.EmitBits(temp2, nbits);
    } else {
      NoRaws(low);
      EmptySides(sink.sent);
    }
    Concat(sent, sym, Raws(low));
  }

  lemma SameBits(v: int)
    ensures NBits(v) == NBits(Abs(v))
  {
  }

  lemma FindNext(z: seq<int>, j: nat, k: nat, se: nat)
    requires j <= k <= se < |z| && z[k] != 0 && forall i :: j <= i < k ==> z[i] == 0
    ensures NextNonzero(z, j, se) == k
  {
  }

  lemma NoNext(z: seq<int>, j: nat, se: nat)
    requires j <= se + 1 && se < |z| && forall i :: j <= i <= se ==> z[i] == 0
    ensures NextNonzero(z, j, se) == se + 1
  {
  }

  lemma HeadStep(tab: nat, z: seq<int>, j: nat, k: nat, se: nat)
    requires j <= k <= se < |z| && z[k] != 0 && forall i :: j <= i < k ==> z[i] == 0
    ensures BandHead(tab, z, j, se) ==
      if k - j > 15 then [Sym(tab, 0xF0)] + BandHead(tab, z, j + 16, se)
      else ValueTokens(tab, k - j, z[k]) + BandHead(tab, z, k + 1, se)
  {
    hide ValueTokens;
    FindNext(z, j, k, se);
  }

  lemma HeadEnd(tab: nat, z: seq<int>, j: nat, se: nat)
    requires j <= se + 1 && se < |z| && forall i :: j <= i <= se ==> z[i] == 0
    ensures BandHead(tab, z, j, se) == []
  {
    NoNext(z, j, se);
  }

  /** How far the loop over a band has come: at position k, after r zeros, with the tokens x sent. */
  ghost predicate Scanning(tab: nat, z: seq<int>, ss: nat, k: nat, se: nat, r: nat, x: seq<Token>) {
    && ss <= k <= se + 1 && se < |z| && r <= k - ss
    && (forall i :: k - r <= i < k ==> z[i] == 0)
    && x + BandHead(tab, z, k - r, se) == BandHead(tab, z, ss, se)
  }

  lemma ScanBegin(tab: nat, z: seq<int>, ss: nat, se: nat)
    requires ss <= se < |z|
    ensures Scanning(tab, z, ss, ss, se, 0, [])
  {
    hide BandHead;
    EmptySides(BandHead(tab, z, ss, se));
  }

  /** A zero run code, or a value, takes the scan on. */
  lemma ScanStep(tab: nat, z: seq<int>, ss: nat, k: nat, se: nat, r: nat, x: seq<Token>)
    requires Scanning(tab, z, ss, k, se, r, x) && k <= se && z[k] != 0
    ensures r <= k - ss && se < |z|
    ensures r > 15 ==> Scanning(tab, z, ss, k, se, r - 16, x + [Sym(tab, 0xF0)])
    ensures r > 15 ==> BandHead(tab, z, ss, se) == x + ([Sym(tab, 0xF0)] + BandHead(tab, z, k - (r - 16), se))
    ensures r <= 15 ==> BandHead(tab, z, ss, se) == x + (ValueTokens(tab, r, z[k]) + BandHead(tab, z, k + 1, se))
    ensures r <= 15 ==> Scanning(tab, z, ss, k + 1, se, 0, x + ValueTokens(tab, r, z[k]))
  {
    hide BandHead, ValueTokens;
    HeadStep(tab, z, k - r, k, se);
    if r > 15 {
      Concat(x, [Sym(tab, 0xF0)], BandHead(tab, z, k - r + 16, se));
    } else {
      Concat(x, ValueTokens(tab, r, z[k]), BandHead(tab, z, k + 1, se));
    }
  }

  lemma ScanEnd(tab: nat, z: seq<int>, ss: nat, se: nat, r: nat, x: seq<Token>)
    requires Scanning(tab, z, ss, se + 1, se, r, x)
    ensures x == BandHead(tab, z, ss, se)
  {
    HeadEnd(tab, z, se + 1 - r, se);
    EmptySides(x);
  }

  /** Sending a part of something is possible if sending all of it is. */
  lemma PartCan(sink: Sink, x: seq<Token>, y: seq<Token>, z: seq<Token>, rest: seq<Token>)
    ensures !sink.Can(y) ==> !sink.Can(x + (y + z) + rest)
  {
    hide Sink.Can;
    CanSplit(sink, x + (y + z), rest);
    CanSplit(sink, x, y + z);
    CanSplit(sink, y, z);
  }

  /** The tokens x have been sent, after base. */
  ghost predicate SentTo(sink: Sink, base: seq<Token>, x: seq<Token>)
    reads sink, sink.w
  {
    sink.Valid() && sink.sent == base + x
  }

  /** The zero run codes in front of a value, and the value. */
  method EmitRunValue(sink: Sink, tab: nat, r0: nat, v: int, ghost z: seq<int>, ghost ss: nat, ghost k: nat, ghost se: nat,
                      ghost base: seq<Token>, ghost x0: seq<Token>) returns (ok: bool, ghost x: seq<Token>)
    requires SentTo(sink, base, x0) && tab < |sink.tabs| && Scanning(tab, z, ss, k, se, r0, x0) && k <= se && v == z[k] != 0
    modifies sink, sink.w
    ensures !ok ==> NBits(v) > MAX_COEF_BITS || !sink.Can(BandHead(tab, z, ss, se))
    ensures ok ==> NBits(v) <= MAX_COEF_BITS && SentTo(sink, base, x) && x != [] && Scanning(tab, z, ss, k + 1, se, 0, x)
  {
    hide Sink.Valid, Sink.Can, BandHead, ValueTokens, NBits, Scanning;
    x := x0;
    var r := r0;
    while r > 15
      invariant r >= 0 && SentTo(sink, base, x) && Scanning(tab, z, ss, k, se, r, x)
    {
      ScanStep(tab, z, ss, k, se, r, x);
      PartCan(sink, x, [Sym(tab, 0xF0)], BandHead(tab, z, k - (r - 16), se), []);
      EmptySides(x + ([Sym(tab, 0xF0)] + BandHead(tab, z, k - (r - 16), se)));
      Concat(base, x, [Sym(tab, 0xF0)]);
      ok := sink.EmitSymbol(tab, 0xF0);
      if !ok { return; }
      x := x + [Sym(tab, 0xF0)];
      r := r - 16;
    }
    ScanStep(tab, z, ss, k, se, r, x);
    PartCan(sink, x, ValueTokens(tab, r, v), BandHead(tab, z, k + 1, se), []);
    EmptySides(x + (ValueTokens(tab, r, v) + BandHead(tab, z, k + 1, se)));
    Concat(base, x, ValueTokens(tab, r, v));
    ok := EmitValue(sink, tab, r, v, MAX_COEF_BITS);
    x := x + ValueTokens(tab, r, v);
    SomeValue(tab, r, v);
  }

  lemma SomeValue(tab: nat, r: nat, v: int)
    ensures ValueTokens(tab, r, v) != []
  {
  }

  /** Section F.1.2.2: the AC coefficients of a block. */
  method EmitAc(sink: Sink, tab: nat, block: Block, order: Order, se: nat) returns (ok: bool)
    requires sink.Valid() && tab < |sink.tabs| && 1 <= se < 64
    modifies sink, sink.w
    ensures var z := ZigZag(block, order, 0);
      && ok == (BandInRange(z, 1, se) && sink.Can(AcTokens(tab, z, se)))
      && (ok ==> sink.Valid() && sink.sent == old(sink.sent) + AcTokens(tab, z, se))
  {
    hide Sink.Valid, Sink.Can, BandHead, NBits, Scanning;
    ghost var z, base := ZigZag(block, order, 0), sink.sent;
    ghost var head, end := BandHead(tab, z, 1, se), Eob(tab, z, se);
    CanSplit(sink, head, end);
    var r, k := 0, 1;
    ghost var x: seq<Token> := [];
    EmptySides(base);
    ScanBegin(tab, z, 1, se);
    while k <= se
      invariant 1 <= k <= se + 1 && r >= 0 && SentTo(sink, base, x) && Scanning(tab, z, 1, k, se, r, x)
      invariant BandInRange(z, 1, k - 1) && (r > 0 <==> k > 1 && z[k - 1] == 0)
      decreases se + 1 - k
    {
      var temp2 := block[order[k]];
      assert z[k] == temp2 by { NoShift(temp2); }
      if temp2 == 0 {
        NextZero(tab, z, 1, k, se, r, x);
        r := r + 1;
      } else {
        InLimits(temp2);
        ok, x := EmitRunValue(sink, tab, r, temp2, z, 1, k, se, base, x);
        if !ok { return; }
        r := 0;
      }
      k := k + 1;
    }
    ScanEnd(tab, z, 1, se, r, x);
    ok := true;
    if r > 0 {
      ok := sink.EmitSymbol(tab, 0);
      Concat(base, head, end);
    } else {
      EmptySides(head);
    }
    if ok { SentCan(sink, base, head + end); }
  }

  lemma NoShift(v: int)
    ensures Shrink(v, 0) == v
  {
  }

  lemma NextZero(tab: nat, z: seq<int>, ss: nat, k: nat, se: nat, r: nat, x: seq<Token>)
    requires Scanning(tab, z, ss, k, se, r, x) && k <= se && z[k] == 0
    ensures Scanning(tab, z, ss, k + 1, se, r + 1, x) && NBits(z[k]) == 0
  {
    hide BandHead;
  }

  /** The DC predictions, by component of the scan. */
  class Saved {
    var lastDcVal: seq<int>

    constructor (n: nat)
      ensures lastDcVal == seq(n, _ => 0)
    {
      lastDcVal := seq(n, _ => 0);
    }
  }

  /** One block of a sequential scan or of a first DC scan. */
  method EncodeOneBlock(sink: Sink, scan: Scan, blkn: nat, block: Block, last: int, ghost lasts: seq<int>) returns (ok: bool)
    requires sink.Valid() && ScanOk(scan, |sink.tabs|) && LastOk(scan, lasts) && blkn < |scan.membership|
    requires last == lasts[scan.membership[blkn]]
    modifies sink, sink.w
    ensures var n, xs := |sink.tabs|, BlockTokens(scan, |sink.tabs|, blkn, block, lasts);
      && ok == (BlockInRange(scan, n, blkn, block, lasts) && sink.Can(xs))
      && (ok ==> sink.Valid() && sink.sent == old(sink.sent) + xs)
  {
    hide Sink.Valid, Sink.Can, ValueTokens, NBits, BandInRange, AcTokens, ZigZag, Pow2;
    var c := scan.membership[blkn];
    var dcTab, acTab := scan.dcTab[c], scan.acTab[c];
    var diff := ShiftRight(block[0], scan.al) - last;
    ghost var z := ZigZag(block, scan.order, scan.al);
    ghost var dc, ac, sent := ValueTokens(dcTab, 0, diff), AcTokens(acTab, z, scan.se), sink.sent;
    CanSplit(sink, dc, ac);
    Concat(sent, dc, ac);
    InLimits(diff);
    ok := EmitValue(sink, dcTab, 0, diff, MAX_COEF_BITS + 1);
    if !ok { return; }
    if scan.se > 0 {
      ok := EmitAc(sink, acTab, block, scan.order, scan.se);
    } else {
      NoAc(acTab, z);
      EmptySides(dc);
    }
    if ok { SentCan(sink, sent, dc + ac); }
  }

  lemma NoAc(tab: nat, z: seq<int>)
    requires |z| == 64
    ensures AcTokens(tab, z, 0) == [] && BandInRange(z, 1, 0)
  {
  }

  /** One MCU; the DC predictions move on when all of it could be sent. */
  method EncodeMcu(sink: Sink, scan: Scan, mcu: seq<Block>, saved: Saved) returns (ok: bool)
    requires sink.Valid() && ScanOk(scan, |sink.tabs|) && LastOk(scan, saved.lastDcVal) && |mcu| == |scan.membership|
    modifies sink, sink.w, saved
    ensures var n, xs := |sink.tabs|, McuTokens(scan, |sink.tabs|, 0, mcu, old(saved.lastDcVal));
      && ok == (McuInRange(scan, n, 0, mcu, old(saved.lastDcVal)) && sink.Can(xs))
      && (ok ==> sink.Valid() && sink.sent == old(sink.sent) + xs)
    ensures ok ==> saved.lastDcVal == McuLast(scan, |sink.tabs|, 0, mcu, old(saved.lastDcVal))
  {
    hide Sink.Valid, Sink.Can, BlockTokens, BlockInRange, LastNext, Pow2;
    var cur := saved.lastDcVal;  // advances, while saved stays
    ghost var n, sent, was := |sink.tabs|, sink.sent, saved.lastDcVal;
    ghost var total, x: seq<Token> := McuTokens(scan, n, 0, mcu, was), [];
    EmptySides(total);
    EmptySides(sent);
    for blkn := 0 to |mcu|
      invariant SentTo(sink, sent, x) && LastOk(scan, cur)
      invariant x + McuTokens(scan, n, blkn, mcu, cur) == total
      invariant McuInRange(scan, n, blkn, mcu, cur) == McuInRange(scan, n, 0, mcu, was)
      invariant McuLast(scan, n, blkn, mcu, cur) == McuLast(scan, n, 0, mcu, was)
    {
      ghost var y, rest := BlockTokens(scan, n, blkn, mcu[blkn], cur),
                           McuTokens(scan, n, blkn + 1, mcu, LastNext(scan, n, blkn, mcu[blkn], cur));
      var c := scan.membership[blkn];
      ok := EncodeOneBlock(sink, scan, blkn, mcu[blkn], cur[c], cur);
      if !ok {
        CanSplit(sink, x, y + rest);
        CanSplit(sink, y, rest);
        return;
      }
      Concat(sent, x, y);
      Concat(x, y, rest);
      x := x + y;
      NextIs(scan, n, blkn, mcu[blkn], cur);
      cur := cur[c := ShiftRight(mcu[blkn][0], scan.al)];
    }
    EmptySides(x);
    SentCan(sink, sent, x);
    ok := true;
    saved.lastDcVal := cur;
  }

  lemma NextIs(s: Scan, n: nat, b: nat, block: Block, last: seq<int>)
    requires ScanOk(s, n) && LastOk(s, last) && b < |s.membership|
    ensures LastNext(s, n, b, block, last) == last[s.membership[b] := ShiftRight(block[0], s.al)]
  {
  }
}
