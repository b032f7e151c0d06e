/** decode_mcu, decode_mcu_sub, decode_mcu_DC_first and decode_mcu_AC_first of jdhuff.c.  The
    routines take any input; whenever the input holds the tokens of some block, they return
    that block. */
module HuffMcuDecoder {
  import opened Radix
  import opened Bits
  import opened ByteStream
  import opened Blocks
  import HuffCode
  import opened HuffDecode
  import opened HuffTokens
  import opened BitIo
  import opened EobRuns
  import opened HuffBlock
  import HuffMcuEncoder

  /** Fetch a value of size category s. */
  method NextValue(r: BitReader, s: nat, ghost tabs: seq<HuffCode.Table>, ghost v: int, ghost rest: seq<Token>, ghost tail: seq<bool>)
      returns (ok: bool, value: int)
    requires r.Valid() && s <= 15
    modifies r
    ensures r.Valid() && (!ok ==> r.unreadMarker == 0)
    ensures old(r.Supplied()) ==> ok && r.Supplied()
    ensures ok && s == NBits(v) && old(Follows(r, tabs, Raws(BitsOf(Low(v), NBits(v))) + rest, tail)) ==>
      value == v && Follows(r, tabs, rest, tail)
  {
    hide BitReader.Valid, BitReader.Supplied, Follows, BitsOf, Pow2, NBits, Low, HuffExtend, Raws;
    ok, value := true, 0;
    NothingToFetch(v, rest);
    if s != 0 {
      if v != 0 { ExtendLow(v); }
      var x;
      ok, x := NextBits(r, s, tabs, Low(v), rest, tail);
      value := HuffExtend(x, s);
    }
  }

  lemma NothingToFetch(v: int, rest: seq<Token>)
    ensures NBits(v) == 0 <==> v == 0
    ensures v == 0 ==> Raws(BitsOf(Low(v), NBits(v))) + rest == rest
  {
    hide Log2, Pow2;
    if v == 0 { EmptySides(rest); }
  }

  // ---- The AC codes of a band ----

  /** What is known about the rest of the stream behind a band: it starts with an end-of-band
      code of size category e if the band ends with zeros. */
  predicate BandAhead(z: seq<int>, lo: nat, se: nat, e: nat, tab: nat, rest: seq<Token>, after: seq<Token>) {
    && se < 64 && |z| == 64 && e < 15 && BandInRange(z, lo, se)
    && rest == (if z[se] == 0 then [Sym(tab, e * 16)] + after else after)
  }

  /** The next symbol of a band, and what follows it. */
  function NextSymbol(z: seq<int>, k: nat, se: nat, e: nat): nat
    requires k <= se < |z|
  {
    var p := NextNonzero(z, k, se);
    if p > se then e * 16 else if p - k > 15 then 0xF0 else (p - k) * 16 + NBits(z[p])
  }

  function Behind(tab: nat, z: seq<int>, k: nat, se: nat, rest: seq<Token>, after: seq<Token>): seq<Token>
    requires k <= se < |z|
  {
    var p := NextNonzero(z, k, se);
    if p > se then after
    else if p - k > 15 then BandHead(tab, z, k + 16, se) + rest
    else Raws(BitsOf(Low(z[p]), NBits(z[p]))) + (BandHead(tab, z, p + 1, se) + rest)
  }

  lemma Ahead(tab: nat, z: seq<int>, lo: nat, k: nat, se: nat, e: nat, rest: seq<Token>, after: seq<Token>)
    requires lo <= k <= se && BandAhead(z, lo, se, e, tab, rest, after)
    ensures NextSymbol(z, k, se, e) < 256
    ensures BandHead(tab, z, k, se) + rest == [Sym(tab, NextSymbol(z, k, se, e))] + Behind(tab, z, k, se, rest, after)
  {
    var p, s, head, behind := NextNonzero(z, k, se), NextSymbol(z, k, se, e), BandHead(tab, z, k, se), Behind(tab, z, k, se, rest, after);
    hide NBits, BitsOf, Raws, NextNonzero, ValueTokens;
    if p > se {
      assert s == e * 16 && head == [] && behind == after && rest == [Sym(tab, e * 16)] + after;
      EmptySides(rest);
    } else if p - k > 15 {
      assert s == 0xF0 && head == [Sym(tab, 0xF0)] + BandHead(tab, z, k + 16, se) && behind == BandHead(tab, z, k + 16, se) + rest;
      hide BandHead, Behind, NextSymbol, BandInRange;
      Concat([Sym(tab, 0xF0)], BandHead(tab, z, k + 16, se), rest);
    } else {
      var more := BandHead(tab, z, p + 1, se);
      InLimits(z[p]);
      assert s == (p - k) * 16 + NBits(z[p]) && head == ValueTokens(tab, p - k, z[p]) + more;
      assert behind == Raws(BitsOf(Low(z[p]), NBits(z[p]))) + (more + rest);
      hide BandHead, Behind, NextSymbol, BandInRange;
      HuffMcuEncoder.Category(p - k, NBits(z[p]));
      ValueAhead(tab, p - k, z[p], more, rest);
    }
  }

  lemma ValueAhead(tab: nat, run: nat, v: int, more: seq<Token>, rest: seq<Token>)
    requires run <= 15 && NBits(v) <= 15
    ensures ValueTokens(tab, run, v) + more + rest == [Sym(tab, run * 16 + NBits(v))] + (Raws(BitsOf(Low(v), NBits(v))) + (more + rest))
  {
    hide NBits, BitsOf, Raws;
    var sym, low := [Sym(tab, run * 16 + NBits(v))], Raws(BitsOf(Low(v), NBits(v)));
    Concat(sym + low, more, rest);
    Concat(sym, low, more + rest);
  }

  /** How far a band has been decoded: now is the block in zigzag order, was what it was before. */
  predicate Filled(now: seq<int>, was: seq<int>, z: seq<int>, al: nat, lo: nat, k: nat, store: bool) {
    |now| == |was| == |z| == 64 && lo <= 64 && now == if store then Grown(was, z, al, lo, k) else was
  }

  /** Zeros change nothing. */
  lemma FilledOn(now: seq<int>, was: seq<int>, z: seq<int>, al: nat, lo: nat, k: nat, k1: nat, store: bool)
    requires Filled(now, was, z, al, lo, k, store) && k <= k1 <= 64 && forall j :: k <= j < k1 ==> z[j] == 0
    ensures Filled(now, was, z, al, lo, k1, store)
  {
    hide Jcoef, Pow2;
    assert Grown(was, z, al, lo, k) == Grown(was, z, al, lo, k1);
  }

  /** A value is put in its place. */
  lemma FilledValue(now: seq<int>, was: seq<int>, z: seq<int>, al: nat, lo: nat, k: nat, p: nat, store: bool)
    requires Filled(now, was, z, al, lo, k, store) && lo <= k <= p < 64 && z[p] != 0 && forall j :: k <= j < p ==> z[j] == 0
    ensures Filled(if store then now[p := Jcoef(z[p] * Pow2(al))] else now, was, z, al, lo, p + 1, store)
  {
    hide Jcoef, Pow2;
    if store { assert now[p := Jcoef(z[p] * Pow2(al))] == Grown(was, z, al, lo, p + 1); }
  }

  method Put(block: array<int>, order: Order, k: nat, c: int)
    requires block.Length == 64
    modifies block
    ensures k < 64 ==> Zag(block, order) == old(Zag(block, order))[k := c]
  {
    ghost var was := Zag(block, order);
    block[Natural(order, k)] := c;
    if k < 64 { assert Zag(block, order) == was[k := c]; }
  }

  /** The tokens from position k of the band on, and then the bits tail. */
  ghost predicate AtBand(r: BitReader, tabs: seq<HuffCode.Table>, tab: nat, z: seq<int>, k: nat, se: nat, rest: seq<Token>, tail: seq<bool>)
    reads r
  {
    k <= se + 1 && se < |z| && (k == se + 1 ==> z[se] != 0) && Follows(r, tabs, BandHead(tab, z, k, se) + rest, tail)
  }

  /** One code: a zero run, a value behind a run, or an end-of-band code. */
  method DecodeCode(r: BitReader, d: seq<DTable>, tab: nat, block: array<int>, order: Order, k0: nat, store: bool, al: nat,
                    ghost tabs: seq<HuffCode.Table>, ghost z: seq<int>, ghost se: nat, ghost e: nat,
                    ghost rest: seq<Token>, ghost after: seq<Token>, ghost tail: seq<bool>,
                    ghost was: seq<int>, ghost lo: nat, ghost expected: bool)
      returns (ok: bool, k: nat, eob: int)
    requires r.Valid() && Matching(d, tabs) && tab < |d| && block.Length == 64 && 1 <= lo <= k0 < 64
    requires expected ==> k0 <= se && BandAhead(z, lo, se, e, tab, rest, after) && Filled(Zag(block, order), was, z, al, lo, k0, store)
    requires expected ==> AtBand(r, tabs, tab, z, k0, se, rest, tail)
    modifies r, block
    ensures r.Valid() && (!ok ==> r.unreadMarker == 0) && (ok ==> k0 < k) && -1 <= eob <= 14
    ensures old(r.Supplied()) ==> ok && r.Supplied()
    ensures !ok || !store ==> Zag(block, order) == old(Zag(block, order))
    ensures ok && expected && eob >= 0 ==> z[se] == 0 && eob == e && Follows(r, tabs, after, tail) && Filled(Zag(block, order), was, z, al, lo, se + 1, store)
    ensures ok && expected && eob < 0 ==> AtBand(r, tabs, tab, z, k, se, rest, tail) && Filled(Zag(block, order), was, z, al, lo, k, store)
  {
    hide BitReader.Valid, BitReader.Supplied, Follows, BandHead, Matching, Pow2, BitsOf, NBits, Low, Raws, Filled,
      BandAhead, NextNonzero, NextSymbol, Zag, Jcoef;
    k, eob := k0 + 1, -1;
    ghost var want, behind, p := 0, [], 0;
    if expected {
      Ahead(tab, z, lo, k0, se, e, rest, after);
      want, behind, p := NextSymbol(z, k0, se, e), Behind(tab, z, k0, se, rest, after), NextNonzero(z, k0, se);
      Parts(z, lo, k0, se, e, tab, rest, after);
    }
    var s;
    ok, s := NextSym(r, d, tab, tabs, want, behind, tail);
    if !ok { return; }
    var run, size := s / 16, s % 16;
    ghost var now := Zag(block, order);
    if size != 0 {
      k := k0 + run;
      ghost var value := expected && p <= se;
      var v;
      ok, v := NextValue(r, size, tabs, if value then z[p] else 0, if value then BandHead(tab, z, p + 1, se) + rest else [], tail);
      if !ok { return; }
      if store { Put(block, order, k, Jcoef(v * Pow2(al))); }
      if expected { FilledValue(now, was, z, al, lo, k0, p, store); }
      k := k + 1;
    } else if run != 15 {
      eob := run;
      if expected { FilledOn(now, was, z, al, lo, k0, se + 1, store); }
    } else {
      k := k0 + 15;
      if expected { FilledOn(now, was, z, al, lo, k0, k0 + 16, store); }
      k := k + 1;
    }
  }

  /** The run and the size in the next symbol. */
  lemma Parts(z: seq<int>, lo: nat, k: nat, se: nat, e: nat, tab: nat, rest: seq<Token>, after: seq<Token>)
    requires lo <= k <= se && BandAhead(z, lo, se, e, tab, rest, after)
    ensures se < 64 == |z| && e < 15 && (z[se] != 0 ==> rest == after)
    ensures var s, p := NextSymbol(z, k, se, e), NextNonzero(z, k, se);
      if p > se then s / 16 == e && s % 16 == 0
      else if p - k > 15 then s == 0xF0
      else s / 16 == p - k && s % 16 == NBits(z[p]) != 0
  {
    hide NBits;
    var p := NextNonzero(z, k, se);
    if p <= se {
      InLimits(z[p]);
      NonzeroSize(z[p]);
    }
  }

  lemma NonzeroSize(v: int)
    ensures v != 0 ==> NBits(v) > 0
  {
  }

  /** Codes from position k0 on, until the limit is reached or an end-of-band code comes (then
      eob is its size category, else -1).  Values are stored, or read and discarded. */
  method DecodeBand(r: BitReader, d: seq<DTable>, tab: nat, block: array<int>, order: Order, k0: nat, limit: nat, store: bool, al: nat,
                    ghost tabs: seq<HuffCode.Table>, ghost z: seq<int>, ghost se: nat, ghost e: nat,
                    ghost rest: seq<Token>, ghost after: seq<Token>, ghost tail: seq<bool>)
      returns (ok: bool, k: nat, eob: int)
    requires r.Valid() && Matching(d, tabs) && tab < |d| && block.Length == 64 && 1 <= k0 && limit <= 64
    modifies r, block
    ensures r.Valid() && (!ok ==> r.unreadMarker == 0) && -1 <= eob <= 14 && k0 <= k
    ensures old(r.Supplied()) ==> ok && r.Supplied()
    ensures !store ==> Zag(block, order) == old(Zag(block, order))
    ensures var was := old(Zag(block, order));
      ok && limit <= se + 1 && BandAhead(z, k0, se, e, tab, rest, after) && old(AtBand(r, tabs, tab, z, k0, se, rest, tail)) ==>
      && (eob >= 0 ==> z[se] == 0 && eob == e && Follows(r, tabs, after, tail) && Filled(Zag(block, order), was, z, al, k0, se + 1, store))
      && (eob < 0 ==> limit <= k && AtBand(r, tabs, tab, z, k, se, rest, tail) && Filled(Zag(block, order), was, z, al, k0, k, store))
    ensures var was := old(Zag(block, order));
      !ok && limit <= se + 1 && BandAhead(z, k0, se, e, tab, rest, after) && old(AtBand(r, tabs, tab, z, k0, se, rest, tail)) ==>
      k <= se + 1 && Filled(Zag(block, order), was, z, al, k0, k, store)
  {
    hide BitReader.Valid, BitReader.Supplied, Follows, Matching, BandAhead, Filled, Zag, BandHead;
    ghost var was := Zag(block, order);
    ghost var expected := limit <= se + 1 && BandAhead(z, k0, se, e, tab, rest, after) && AtBand(r, tabs, tab, z, k0, se, rest, tail);
    k, eob, ok := k0, -1, true;
    if expected { FilledStart(was, z, k0, se, e, tab, rest, after, al, store); }
    while k < limit
      invariant ok && r.Valid() && k0 <= k && (old(r.Supplied()) ==> r.Supplied()) && (!store ==> Zag(block, order) == was)
      invariant expected ==> AtBand(r, tabs, tab, z, k, se, rest, tail) && Filled(Zag(block, order), was, z, al, k0, k, store)
      decreases limit - k
    {
      var next;
      ok, next, eob := DecodeCode(r, d, tab, block, order, k, store, al, tabs, z, se, e, rest, after, tail, was, k0, expected);
      if !ok { return; }
      k := next;
      if eob >= 0 { return; }
    }
    eob := -1;
  }

  lemma FilledStart(was: seq<int>, z: seq<int>, lo: nat, se: nat, e: nat, tab: nat, rest: seq<Token>, after: seq<Token>, al: nat, store: bool)
    requires BandAhead(z, lo, se, e, tab, rest, after) && |was| == 64 && lo <= se + 1
    ensures Filled(was, was, z, al, lo, lo, store)
  {
    assert Grown(was, z, al, lo, lo) == was;
  }

  // ---- Blocks ----

  /** The block a decoder builds up to position k - 1, in zigzag order, over what was there. */
  function Target(scan: Scan, want: Block, was: seq<int>, k: nat): (r: seq<int>)
    requires |was| == 64
    ensures |r| == 64
  {
    Grown(was[0 := Jcoef(DcValue(scan, want) * Pow2(scan.al))], ZigZag(want, scan.order, scan.al), scan.al, 1, k)
  }

  /** The coefficients up to some position past the limit are there. */
  predicate Holds(now: seq<int>, scan: Scan, want: Block, was: seq<int>, limit: nat, reach: nat) {
    |was| == 64 && if limit == 0 then now == was else limit <= reach <= scan.se + 1 && now == Target(scan, want, was, reach)
  }

  /** What an attempt that ran out of data leaves: the first coefficients may be there already. */
  predicate Partway(now: seq<int>, scan: Scan, want: Block, was: seq<int>, limit: nat) {
    |was| == 64 && (now == was || (limit > 0 && exists k: nat :: k <= scan.se + 1 && now == Target(scan, want, was, k)))
  }

  lemma IsPartway(now: seq<int>, scan: Scan, want: Block, was: seq<int>, limit: nat, k: nat)
    requires |was| == 64 && limit > 0 && k <= scan.se + 1 && now == Target(scan, want, was, k)
    ensures Partway(now, scan, want, was, limit)
  {
  }

  /** Coefficients that are there already do no harm. */
  lemma TargetAgain(scan: Scan, want: Block, was: seq<int>, k: nat, m: nat)
    requires |was| == 64
    ensures Target(scan, want, Target(scan, want, was, k), m) == Target(scan, want, was, if k < m then m else k)
  {
    hide Jcoef, Pow2, DcValue, ZigZag;
  }

  lemma PartwayTwice(x: seq<int>, y: seq<int>, z: seq<int>, scan: Scan, want: Block, limit: nat)
    requires Partway(y, scan, want, x, limit) && Partway(z, scan, want, y, limit)
    ensures Partway(z, scan, want, x, limit)
  {
    hide Target;
    if y != x && z != y {
      var k: nat :| k <= scan.se + 1 && y == Target(scan, want, x, k);
      var m: nat :| m <= scan.se + 1 && z == Target(scan, want, y, m);
      TargetAgain(scan, want, x, k, m);
      IsPartway(z, scan, want, x, limit, if k < m then m else k);
    }
  }

  lemma GotAgain(x: seq<int>, y: seq<int>, now: seq<int>, scan: Scan, want: Block, limit: nat)
    requires Partway(y, scan, want, x, limit) && Got(now, scan, want, y, limit)
    ensures Got(now, scan, want, x, limit)
  {
    hide Target;
    if y != x {
      var k: nat :| k <= scan.se + 1 && y == Target(scan, want, x, k);
      var m: nat :| m <= scan.se + 1 && Holds(now, scan, want, y, limit, m);
      TargetAgain(scan, want, x, k, m);
      GotIt(now, scan, want, x, limit, if k < m then m else k);
    }
  }

  /** One block.  With a limit of 0 it is read over; otherwise the coefficients below the limit
      are stored, and the others may be discarded. */
  method DecodeOneBlock(r: BitReader, d: seq<DTable>, scan: Scan, blkn: nat, block: array<int>, coefLimit: nat, last: int,
                        ghost tabs: seq<HuffCode.Table>, ghost want: Block, ghost lasts: seq<int>,
                        ghost rest: seq<Token>, ghost tail: seq<bool>)
      returns (ok: bool, next: int, ghost reach: nat)
    requires r.Valid() && Matching(d, tabs) && ScanOk(scan, |d|) && LastOk(scan, lasts) && blkn < |scan.membership|
    requires block.Length == 64 && coefLimit <= scan.se + 1 && Categories(tabs[scan.dcTab[scan.membership[blkn]]])
    modifies r, block
    ensures r.Valid() && (!ok ==> r.unreadMarker == 0)
    ensures old(r.Supplied()) ==> ok && r.Supplied()
    ensures var c := scan.membership[blkn];
      (ok && BlockInRange(scan, |d|, blkn, want, lasts) && (coefLimit > 0 ==> last == lasts[c]) &&
       old(Follows(r, tabs, BlockTokens(scan, |d|, blkn, want, lasts) + rest, tail))) ==>
      && Follows(r, tabs, rest, tail) && next == (if coefLimit > 0 then DcValue(scan, want) else last)
      && Holds(Zag(block, scan.order), scan, want, old(Zag(block, scan.order)), coefLimit, reach)
    ensures var c := scan.membership[blkn];
      (!ok && BlockInRange(scan, |d|, blkn, want, lasts) && (coefLimit > 0 ==> last == lasts[c]) &&
       old(Follows(r, tabs, BlockTokens(scan, |d|, blkn, want, lasts) + rest, tail))) ==>
      Partway(Zag(block, scan.order), scan, want, old(Zag(block, scan.order)), coefLimit)
  {
    hide BitReader.Valid, BitReader.Supplied, Follows, Matching, BandAhead, Filled, Zag, BandHead, AtBand, Categories,
      ValueTokens, Pow2, Jcoef, NBits, AcTokens, ZigZag;
    var c := scan.membership[blkn];
    var dcTab, acTab := scan.dcTab[c], scan.acTab[c];
    ghost var z, diff, was := ZigZag(want, scan.order, scan.al), DcValue(scan, want) - lasts[c], Zag(block, scan.order);
    ghost var expected := BlockInRange(scan, |d|, blkn, want, lasts) && (coefLimit > 0 ==> last == lasts[c]) &&
      Follows(r, tabs, BlockTokens(scan, |d|, blkn, want, lasts) + rest, tail);
    ghost var ac := AcTokens(acTab, z, scan.se) + rest;
    InLimits(diff);
    if expected { ValueAhead(dcTab, 0, diff, AcTokens(acTab, z, scan.se), rest); }
    var s, v;
    next, reach := last, 0;
    ok, s := NextSym(r, d, dcTab, tabs, if expected then NBits(diff) else 0, Raws(BitsOf(Low(diff), NBits(diff))) + ac, tail);
    if !ok { return; }
    ok, v := NextValue(r, s, tabs, diff, ac, tail);
    if !ok { return; }
    if coefLimit > 0 {
      next := v + last;
      Put(block, scan.order, 0, Jcoef(next * Pow2(scan.al)));
    }
    ok, reach := DecodeRest(r, d, acTab, block, scan.order, scan.se, coefLimit, scan.al, tabs, z, rest, tail, expected);
    if !ok && expected && coefLimit > 0 { IsPartway(Zag(block, scan.order), scan, want, was, coefLimit, reach); }
  }

  /** The AC coefficients of a block: stored below the limit, discarded above it. */
  method DecodeRest(r: BitReader, d: seq<DTable>, tab: nat, block: array<int>, order: Order, se: nat, limit: nat, al: nat,
                    ghost tabs: seq<HuffCode.Table>, ghost z: seq<int>, ghost rest: seq<Token>, ghost tail: seq<bool>, ghost expected: bool)
      returns (ok: bool, ghost reach: nat)
    requires r.Valid() && Matching(d, tabs) && tab < |d| && block.Length == 64 && limit <= se + 1 <= 64 && |z| == 64
    requires expected ==> BandInRange(z, 1, se) && Follows(r, tabs, AcTokens(tab, z, se) + rest, tail)
    modifies r, block
    ensures r.Valid() && (!ok ==> r.unreadMarker == 0)
    ensures old(r.Supplied()) ==> ok && r.Supplied()
    ensures limit == 0 ==> Zag(block, order) == old(Zag(block, order))
    ensures ok && expected ==> Follows(r, tabs, rest, tail)
    ensures expected && limit > 0 ==>
      (ok ==> limit <= reach) && reach <= se + 1 && Zag(block, order) == Grown(old(Zag(block, order)), z, al, 1, reach)
  {
    hide BitReader.Valid, BitReader.Supplied, Follows, Matching, Zag, BandHead, Pow2, Jcoef, NBits;
    ok, reach := true, 1;
    ghost var was, end := Zag(block, order), Eob(tab, z, se) + rest;
    if se == 0 {
      EmptySides(rest);
      assert Grown(was, z, al, 1, 1) == was;
      return;
    }
    if expected { StartBand(r, tabs, tab, z, se, rest, tail); }
    var k, eob := 1, -1;
    if limit > 0 {
      ok, k, eob := DecodeBand(r, d, tab, block, order, 1, limit, true, al, tabs, z, se, 0, end, rest, tail);
      reach := if !ok || eob < 0 then k else se + 1;
      if !ok { return; }
    }
    if eob < 0 {
      ok, k, eob := DecodeBand(r, d, tab, block, order, k, se + 1, false, al, tabs, z, se, 0, end, rest, tail);
      if ok && expected && eob < 0 { EndBand(r, tabs, tab, z, k, se, rest, tail); }
    }
  }

  lemma StartBand(r: BitReader, tabs: seq<HuffCode.Table>, tab: nat, z: seq<int>, se: nat, rest: seq<Token>, tail: seq<bool>)
    requires 1 <= se < 64 == |z| && BandInRange(z, 1, se) && Follows(r, tabs, AcTokens(tab, z, se) + rest, tail)
    ensures AtBand(r, tabs, tab, z, 1, se, Eob(tab, z, se) + rest, tail)
    ensures forall k :: 1 <= k <= se + 1 ==> BandAhead(z, k, se, 0, tab, Eob(tab, z, se) + rest, rest)
  {
    hide BandHead, Follows, NBits;
    Concat(BandHead(tab, z, 1, se), Eob(tab, z, se), rest);
    EmptySides(rest);
  }

  lemma EndBand(r: BitReader, tabs: seq<HuffCode.Table>, tab: nat, z: seq<int>, k: nat, se: nat, rest: seq<Token>, tail: seq<bool>)
    requires k == se + 1 && se < |z| && AtBand(r, tabs, tab, z, k, se, Eob(tab, z, se) + rest, tail)
    ensures Follows(r, tabs, rest, tail)
  {
    hide Follows;
    EmptySides(rest);
    assert BandHead(tab, z, se + 1, se) == [];
  }

  // ---- MCUs ----

  /** Which components are wanted, and how many coefficients of each block. */
  predicate LimitsOk(scan: Scan, limits: seq<nat>, needed: seq<bool>) {
    && |limits| == |scan.membership| && |needed| == |scan.dcTab|
    && (forall b :: 0 <= b < |limits| ==> limits[b] <= scan.se + 1 && scan.membership[b] < |needed|)
    && (forall b :: 0 <= b < |limits| ==> (limits[b] > 0 <==> needed[scan.membership[b]]))
  }

  /** The predictions of the wanted components agree. */
  predicate Agree(x: seq<int>, y: seq<int>, needed: seq<bool>) {
    |x| == |y| == |needed| && forall c :: 0 <= c < |needed| && needed[c] ==> x[c] == y[c]
  }

  predicate CategoryTables(scan: Scan, tabs: seq<HuffCode.Table>)
    requires ScanOk(scan, |tabs|)
  {
    forall c :: 0 <= c < |scan.dcTab| ==> Categories(tabs[scan.dcTab[c]])
  }

  predicate Got(now: seq<int>, scan: Scan, want: Block, was: seq<int>, limit: nat) {
    exists reach: nat :: reach <= scan.se + 1 && Holds(now, scan, want, was, limit, reach)
  }

  lemma GotIt(now: seq<int>, scan: Scan, want: Block, was: seq<int>, limit: nat, reach: nat)
    requires Holds(now, scan, want, was, limit, reach)
    ensures Got(now, scan, want, was, limit)
  {
    if limit == 0 { assert Holds(now, scan, want, was, limit, 0); }
  }

  /** The input goes on with the tokens of block blkn of an MCU and those behind it, and the
      predictions that matter are the encoder's. */
  ghost predicate McuComes(r: BitReader, tabs: seq<HuffCode.Table>, scan: Scan, blkn: nat, mcu: seq<Block>, last: seq<int>, lasts: seq<int>,
                           needed: seq<bool>, rest: seq<Token>, tail: seq<bool>)
    requires ScanOk(scan, |tabs|) && LastOk(scan, lasts) && blkn <= |mcu| == |scan.membership|
    reads r
  {
    && McuInRange(scan, |tabs|, blkn, mcu, lasts) && Agree(last, lasts, needed)
    && Follows(r, tabs, McuTokens(scan, |tabs|, blkn, mcu, lasts) + rest, tail)
  }

  ghost function Zags(mcuData: seq<array<int>>, order: Order): (r: seq<seq<int>>)
    requires forall b :: 0 <= b < |mcuData| ==> mcuData[b].Length == 64
    reads mcuData
    ensures |r| == |mcuData| && forall b :: 0 <= b < |mcuData| ==> r[b] == Zag(mcuData[b], order)
  {
    seq(|mcuData|, b requires 0 <= b < |mcuData| reads mcuData requires mcuData[b].Length == 64 => Zag(mcuData[b], order))
  }

  predicate AllGot(now: seq<seq<int>>, scan: Scan, mcu: seq<Block>, was: seq<seq<int>>, limits: seq<nat>) {
    |now| == |mcu| == |was| == |limits| && forall b :: 0 <= b < |mcu| ==> Got(now[b], scan, mcu[b], was[b], limits[b])
  }

  predicate AllPartway(now: seq<seq<int>>, scan: Scan, mcu: seq<Block>, was: seq<seq<int>>, limits: seq<nat>) {
    |now| == |mcu| == |was| == |limits| && forall b :: 0 <= b < |mcu| ==> Partway(now[b], scan, mcu[b], was[b], limits[b])
  }

  /** What an attempt at an MCU that comes leads to. */
  ghost predicate McuDone(ok: bool, r: BitReader, tabs: seq<HuffCode.Table>, scan: Scan, mcu: seq<Block>, last: seq<int>, lasts: seq<int>,
                          needed: seq<bool>, rest: seq<Token>, tail: seq<bool>, now: seq<seq<int>>, was: seq<seq<int>>, limits: seq<nat>)
    requires ScanOk(scan, |tabs|) && LastOk(scan, lasts) && |mcu| == |scan.membership|
    reads r
  {
    if ok then
      && Follows(r, tabs, rest, tail) && Agree(last, McuLast(scan, |tabs|, 0, mcu, lasts), needed)
      && AllGot(now, scan, mcu, was, limits)
    else
      AllPartway(now, scan, mcu, was, limits)
  }

  lemma SameReader(r: BitReader, w: BitReader, tabs: seq<HuffCode.Table>, xs: seq<Token>, tail: seq<bool>)
    requires r.Valid() && w.Valid() && r.Bits() == w.Bits() && r.insufficientData == w.insufficientData
    ensures Follows(r, tabs, xs, tail) == Follows(w, tabs, xs, tail)
  {
  }

  lemma SameComes(r: BitReader, w: BitReader, tabs: seq<HuffCode.Table>, scan: Scan, mcu: seq<Block>, last: seq<int>, lasts: seq<int>,
                  needed: seq<bool>, rest: seq<Token>, tail: seq<bool>)
    requires r.Valid() && w.Valid() && r.Bits() == w.Bits() && r.insufficientData == w.insufficientData
    requires ScanOk(scan, |tabs|) && LastOk(scan, lasts) && |mcu| == |scan.membership|
    ensures McuComes(r, tabs, scan, 0, mcu, last, lasts, needed, rest, tail) == McuComes(w, tabs, scan, 0, mcu, last, lasts, needed, rest, tail)
    ensures McuComes(r, tabs, scan, 0, mcu, last, lasts, needed, rest, tail) ==> !r.insufficientData
  {
    SameReader(r, w, tabs, McuTokens(scan, |tabs|, 0, mcu, lasts) + rest, tail);
  }

  lemma SameDone(r: BitReader, w: BitReader, ok: bool, tabs: seq<HuffCode.Table>, scan: Scan, mcu: seq<Block>, last: seq<int>, state: seq<int>,
                 lasts: seq<int>, needed: seq<bool>, rest: seq<Token>, tail: seq<bool>, now: seq<seq<int>>, was: seq<seq<int>>, limits: seq<nat>)
    requires ok ==> r.Valid() && w.Valid() && r.Bits() == w.Bits() && r.insufficientData == w.insufficientData && last == state
    requires ScanOk(scan, |tabs|) && LastOk(scan, lasts) && |mcu| == |scan.membership|
    ensures McuDone(ok, r, tabs, scan, mcu, last, lasts, needed, rest, tail, now, was, limits)
      == McuDone(ok, w, tabs, scan, mcu, state, lasts, needed, rest, tail, now, was, limits)
  {
    if ok { SameReader(r, w, tabs, rest, tail); }
  }

  lemma GotPartway(now: seq<int>, scan: Scan, want: Block, was: seq<int>, limit: nat)
    requires Got(now, scan, want, was, limit)
    ensures Partway(now, scan, want, was, limit)
  {
    hide Target;
  }

  /** One block of the MCU. */
  method AttemptBlock(w: BitReader, d: seq<DTable>, scan: Scan, blkn: nat, mcuData: seq<array<int>>, limits: seq<nat>, last: seq<int>,
                      ghost needed: seq<bool>, ghost tabs: seq<HuffCode.Table>, ghost mcu: seq<Block>, ghost cur: seq<int>,
                      ghost rest: seq<Token>, ghost tail: seq<bool>, ghost was: seq<seq<int>>, ghost expected: bool)
      returns (ok: bool, state: seq<int>)
    requires w.Valid() && Matching(d, tabs) && ScanOk(scan, |d|) && LastOk(scan, last) && LastOk(scan, cur)
    requires LimitsOk(scan, limits, needed) && CategoryTables(scan, tabs)
    requires Distinct(mcuData) && blkn < |mcuData| == |mcu| == |scan.membership|
    requires expected ==> McuComes(w, tabs, scan, blkn, mcu, last, cur, needed, rest, tail)
    requires expected ==> GotTo(Zags(mcuData, scan.order), scan, mcu, was, limits, blkn)
    modifies w, mcuData[blkn]
    ensures w.Valid() && LastOk(scan, state) && (!ok ==> w.unreadMarker == 0)
    ensures old(w.Supplied()) ==> ok && w.Supplied()
    ensures var next := LastNext(scan, |d|, blkn, mcu[blkn], cur); ok && expected ==>
      && McuComes(w, tabs, scan, blkn + 1, mcu, state, next, needed, rest, tail)
      && GotTo(Zags(mcuData, scan.order), scan, mcu, was, limits, blkn + 1)
    ensures !ok && expected ==> AllPartway(Zags(mcuData, scan.order), scan, mcu, was, limits)
  {
    ghost var n, z := |d|, Zags(mcuData, scan.order);
    assert n == |tabs|;
    hide BitReader.Valid, BitReader.Supplied, Follows, Matching, BlockTokens, BlockInRange, LastNext, Holds, Got, Partway,
      Categories, DcValue, Zag, GotTo, AllPartway;
    var c := scan.membership[blkn];
    ghost var next := LastNext(scan, n, blkn, mcu[blkn], cur);
    ghost var more := McuTokens(scan, n, blkn + 1, mcu, next) + rest;
    Concat(BlockTokens(scan, n, blkn, mcu[blkn], cur), McuTokens(scan, n, blkn + 1, mcu, next), rest);
    if expected { StillOld(z, scan, mcu, was, limits, blkn); }
    var dc;
    ghost var reach;
    ok, dc, reach := DecodeOneBlock(w, d, scan, blkn, mcuData[blkn], limits[blkn], last[c], tabs, mcu[blkn], cur, more, tail);
    assert Zags(mcuData, scan.order) == z[blkn := Zag(mcuData[blkn], scan.order)];
    state := if ok then last[c := dc] else last;
    AgreeNext(scan, n, blkn, mcu[blkn], last, cur, needed, dc);
    if expected {
      if ok {
        OneMore(z, Zag(mcuData[blkn], scan.order), scan, mcu, was, limits, blkn, reach);
      } else {
        HalfDone(z, Zag(mcuData[blkn], scan.order), scan, mcu, was, limits, blkn);
      }
    }
  }

  /** One MCU on a working copy w of the reader, with working predictions. */
  method Attempt(w: BitReader, d: seq<DTable>, scan: Scan, mcuData: seq<array<int>>, limits: seq<nat>, last: seq<int>,
                 ghost needed: seq<bool>, ghost tabs: seq<HuffCode.Table>, ghost mcu: seq<Block>, ghost lasts: seq<int>,
                 ghost rest: seq<Token>, ghost tail: seq<bool>)
      returns (ok: bool, state: seq<int>)
    requires w.Valid() && Matching(d, tabs) && ScanOk(scan, |d|) && LastOk(scan, last) && LastOk(scan, lasts)
    requires LimitsOk(scan, limits, needed) && CategoryTables(scan, tabs)
    requires Distinct(mcuData) && |mcuData| == |mcu| == |scan.membership|
    modifies w, mcuData
    ensures w.Valid() && LastOk(scan, state) && (!ok ==> w.unreadMarker == 0)
    ensures old(w.Supplied()) ==> ok && w.Supplied()
    ensures old(McuComes(w, tabs, scan, 0, mcu, last, lasts, needed, rest, tail)) ==>
      McuDone(ok, w, tabs, scan, mcu, state, lasts, needed, rest, tail, Zags(mcuData, scan.order), old(Zags(mcuData, scan.order)), limits)
  {
    ghost var n, was := |d|, Zags(mcuData, scan.order);
    assert n == |tabs|;
    ghost var cur := lasts;  // the encoder's predictions
    ghost var expected := McuComes(w, tabs, scan, 0, mcu, last, lasts, needed, rest, tail);
    hide BitReader.Valid, BitReader.Supplied, Matching, McuComes, McuDone, LastNext, CategoryTables, LimitsOk, Zag, GotTo,
      AllPartway;
    state := last;
    NoneGot(scan, mcu, was, limits);
    for blkn := 0 to |mcuData|
      invariant LastOk(scan, state) && LastOk(scan, cur)
      invariant w.Valid() && (old(w.Supplied()) ==> w.Supplied())
      invariant expected ==> McuComes(w, tabs, scan, blkn, mcu, state, cur, needed, rest, tail)
      invariant McuLast(scan, n, blkn, mcu, cur) == McuLast(scan, n, 0, mcu, lasts)
      invariant expected ==> GotTo(Zags(mcuData, scan.order), scan, mcu, was, limits, blkn)
    {
      ok, state := AttemptBlock(w, d, scan, blkn, mcuData, limits, state, needed, tabs, mcu, cur, rest, tail, was, expected);
      if !ok {
        if expected { McuHalf(w, tabs, scan, mcu, state, lasts, needed, rest, tail, Zags(mcuData, scan.order), was, limits); }
        return;
      }
      cur := LastNext(scan, n, blkn, mcu[blkn], cur);
    }
    ok := true;
    if expected { McuOver(w, tabs, scan, mcu, state, cur, lasts, needed, rest, tail, Zags(mcuData, scan.order), was, limits); }
  }

  lemma McuOver(r: BitReader, tabs: seq<HuffCode.Table>, scan: Scan, mcu: seq<Block>, last: seq<int>, cur: seq<int>, lasts: seq<int>,
                needed: seq<bool>, rest: seq<Token>, tail: seq<bool>, now: seq<seq<int>>, was: seq<seq<int>>, limits: seq<nat>)
    requires ScanOk(scan, |tabs|) && LastOk(scan, cur) && LastOk(scan, lasts) && |mcu| == |scan.membership|
    requires McuComes(r, tabs, scan, |mcu|, mcu, last, cur, needed, rest, tail) && cur == McuLast(scan, |tabs|, 0, mcu, lasts)
    requires GotTo(now, scan, mcu, was, limits, |mcu|)
    ensures McuDone(true, r, tabs, scan, mcu, last, lasts, needed, rest, tail, now, was, limits)
  {
    hide Follows, Agree, GotTo, AllGot;
    EmptySides(rest);
    EveryOne(now, scan, mcu, was, limits);
  }

  lemma McuHalf(r: BitReader, tabs: seq<HuffCode.Table>, scan: Scan, mcu: seq<Block>, last: seq<int>, lasts: seq<int>,
                needed: seq<bool>, rest: seq<Token>, tail: seq<bool>, now: seq<seq<int>>, was: seq<seq<int>>, limits: seq<nat>)
    requires ScanOk(scan, |tabs|) && LastOk(scan, lasts) && |mcu| == |scan.membership| && AllPartway(now, scan, mcu, was, limits)
    ensures McuDone(false, r, tabs, scan, mcu, last, lasts, needed, rest, tail, now, was, limits)
  {
  }

  /** The blocks up to blkn - 1 have been decoded, and the others are as before. */
  predicate GotTo(now: seq<seq<int>>, scan: Scan, mcu: seq<Block>, was: seq<seq<int>>, limits: seq<nat>, blkn: nat) {
    && |now| == |mcu| == |was| == |limits| && blkn <= |mcu|
    && (forall b :: 0 <= b < blkn ==> Got(now[b], scan, mcu[b], was[b], limits[b]))
    && forall b :: blkn <= b < |mcu| ==> now[b] == was[b] && |was[b]| == 64
  }

  lemma NoneGot(scan: Scan, mcu: seq<Block>, was: seq<seq<int>>, limits: seq<nat>)
    requires |mcu| == |was| == |limits| && forall b :: 0 <= b < |was| ==> |was[b]| == 64
    ensures GotTo(was, scan, mcu, was, limits, 0)
  {
    hide Got;
  }

  lemma StillOld(now: seq<seq<int>>, scan: Scan, mcu: seq<Block>, was: seq<seq<int>>, limits: seq<nat>, blkn: nat)
    requires GotTo(now, scan, mcu, was, limits, blkn) && blkn < |mcu|
    ensures |now| == |mcu| == |was| == |limits| && now[blkn] == was[blkn]
  {
    hide Got;
  }

  lemma OneMore(now: seq<seq<int>>, z: seq<int>, scan: Scan, mcu: seq<Block>, was: seq<seq<int>>, limits: seq<nat>, blkn: nat, reach: nat)
    requires GotTo(now, scan, mcu, was, limits, blkn) && blkn < |mcu| && Holds(z, scan, mcu[blkn], was[blkn], limits[blkn], reach)
    ensures GotTo(now[blkn := z], scan, mcu, was, limits, blkn + 1)
  {
    hide Got, Holds;
    GotIt(z, scan, mcu[blkn], was[blkn], limits[blkn], reach);
  }

  lemma EveryOne(now: seq<seq<int>>, scan: Scan, mcu: seq<Block>, was: seq<seq<int>>, limits: seq<nat>)
    requires GotTo(now, scan, mcu, was, limits, |mcu|)
    ensures AllGot(now, scan, mcu, was, limits)
  {
    hide Got;
  }

  lemma HalfDone(now: seq<seq<int>>, z: seq<int>, scan: Scan, mcu: seq<Block>, was: seq<seq<int>>, limits: seq<nat>, blkn: nat)
    requires GotTo(now, scan, mcu, was, limits, blkn) && blkn < |mcu| && Partway(z, scan, mcu[blkn], was[blkn], limits[blkn])
    ensures AllPartway(now[blkn := z], scan, mcu, was, limits)
  {
    hide Got, Partway;
    forall b | 0 <= b < |mcu| ensures Partway(now[blkn := z][b], scan, mcu[b], was[b], limits[b]) {
      if b < blkn { GotPartway(now[b], scan, mcu[b], was[b], limits[b]); }
      if b > blkn { NotStarted(scan, mcu[b], was[b], limits[b]); }
    }
  }

  lemma NotStarted(scan: Scan, want: Block, was: seq<int>, limit: nat)
    requires |was| == 64
    ensures Partway(was, scan, want, was, limit)
  {
  }

  /** Decode one MCU.  If the data runs out, reader and predictions are as before, and the blocks
      hold nothing but coefficients that belong there; once data has been made up, nothing is read. */
  method DecodeMcu(r: BitReader, d: seq<DTable>, scan: Scan, mcuData: seq<array<int>>, limits: seq<nat>, saved: HuffMcuEncoder.Saved,
                   ghost needed: seq<bool>, ghost tabs: seq<HuffCode.Table>, ghost mcu: seq<Block>, ghost lasts: seq<int>,
                   ghost rest: seq<Token>, ghost tail: seq<bool>)
      returns (ok: bool)
    requires r.Valid() && Matching(d, tabs) && ScanOk(scan, |d|) && LastOk(scan, saved.lastDcVal) && LastOk(scan, lasts)
    requires LimitsOk(scan, limits, needed) && CategoryTables(scan, tabs)
    requires Distinct(mcuData) && |mcuData| == |mcu| == |scan.membership|
    modifies r, saved, mcuData
    ensures r.Valid() && LastOk(scan, saved.lastDcVal)
    ensures !ok ==> unchanged(r, saved) && r.unreadMarker == 0
    ensures old(r.insufficientData) ==> ok && unchanged(r, saved) && Zags(mcuData, scan.order) == old(Zags(mcuData, scan.order))
    ensures old(r.Supplied()) ==> ok && r.Supplied()
    ensures old(McuComes(r, tabs, scan, 0, mcu, saved.lastDcVal, lasts, needed, rest, tail)) ==>
      McuDone(ok, r, tabs, scan, mcu, saved.lastDcVal, lasts, needed, rest, tail, Zags(mcuData, scan.order), old(Zags(mcuData, scan.order)), limits)
  {
    assert |d| == |tabs|;
    ghost var comes := McuComes(r, tabs, scan, 0, mcu, saved.lastDcVal, lasts, needed, rest, tail);
    ghost var was := Zags(mcuData, scan.order);
    hide BitReader.Valid, BitReader.Supplied, Matching, McuComes, McuDone, CategoryTables, LimitsOk, Zag, LastOk, ScanOk;
    SameComes(r, r, tabs, scan, mcu, saved.lastDcVal, lasts, needed, rest, tail);
    if r.insufficientData { return true; }
    r.Unmarked();
    var w := new BitReader.Copy(r);
    SameComes(r, w, tabs, scan, mcu, saved.lastDcVal, lasts, needed, rest, tail);
    var state;
    ok, state := Attempt(w, d, scan, mcuData, limits, saved.lastDcVal, needed, tabs, mcu, lasts, rest, tail);
    ghost var now := Zags(mcuData, scan.order);
    if ok {
      r.Take(w);
      saved.lastDcVal := state;
      assert Zags(mcuData, scan.order) == now;
    }
    SameDone(r, w, ok, tabs, scan, mcu, saved.lastDcVal, state, lasts, needed, rest, tail, now, was, limits);
  }

  lemma AgreeNext(scan: Scan, n: nat, b: nat, block: Block, state: seq<int>, cur: seq<int>, needed: seq<bool>, next: int)
    requires ScanOk(scan, n) && LastOk(scan, cur) && LastOk(scan, state) && b < |scan.membership|
    ensures Agree(state, cur, needed) && (needed[scan.membership[b]] ==> next == DcValue(scan, block)) ==>
      Agree(state[scan.membership[b] := next], LastNext(scan, n, b, block, cur), needed)
  {
  }

  // ---- Suspension ----

  lemma DoneAgain(x: seq<seq<int>>, y: seq<seq<int>>, now: seq<seq<int>>, ok: bool, r: BitReader, tabs: seq<HuffCode.Table>, scan: Scan,
                  mcu: seq<Block>, last: seq<int>, lasts: seq<int>, needed: seq<bool>, rest: seq<Token>, tail: seq<bool>, limits: seq<nat>)
    requires ScanOk(scan, |tabs|) && LastOk(scan, lasts) && |mcu| == |scan.membership| && AllPartway(y, scan, mcu, x, limits)
    requires McuDone(ok, r, tabs, scan, mcu, last, lasts, needed, rest, tail, now, y, limits)
    ensures McuDone(ok, r, tabs, scan, mcu, last, lasts, needed, rest, tail, now, x, limits)
  {
    hide Got, Partway;
    if ok {
      forall b | 0 <= b < |mcu| ensures Got(now[b], scan, mcu[b], x[b], limits[b]) { GotAgain(x[b], y[b], now[b], scan, mcu[b], limits[b]); }
    } else {
      forall b | 0 <= b < |mcu| ensures Partway(now[b], scan, mcu[b], x[b], limits[b]) { PartwayTwice(x[b], y[b], now[b], scan, mcu[b], limits[b]); }
    }
  }

  lemma AtFirst(scan: Scan, mcu: seq<Block>, was: seq<seq<int>>, limits: seq<nat>)
    requires |mcu| == |was| == |limits| && forall b :: 0 <= b < |was| ==> |was[b]| == 64
    ensures AllPartway(was, scan, mcu, was, limits)
  {
    hide Partway;
    forall b | 0 <= b < |mcu| ensures Partway(was[b], scan, mcu[b], was[b], limits[b]) { NotStarted(scan, mcu[b], was[b], limits[b]); }
  }

  /** Suspension is transparent: whenever the data at hand does not suffice, the MCU is tried again
      after the next chunk.  However often that happens, an MCU of the encoder comes out as from one
      undisturbed call; and when the chunks reach a marker, the last attempt ends well. */
  method DecodeInChunks(r: BitReader, d: seq<DTable>, scan: Scan, mcuData: seq<array<int>>, limits: seq<nat>, saved: HuffMcuEncoder.Saved,
                        chunks: seq<seq<byte>>, ghost needed: seq<bool>, ghost tabs: seq<HuffCode.Table>, ghost mcu: seq<Block>,
                        ghost lasts: seq<int>, ghost rest: seq<Token>, ghost tail: seq<bool>)
      returns (ok: bool)
    requires r.Valid() && Matching(d, tabs) && ScanOk(scan, |d|) && LastOk(scan, saved.lastDcVal) && LastOk(scan, lasts)
    requires LimitsOk(scan, limits, needed) && CategoryTables(scan, tabs)
    requires Distinct(mcuData) && |mcuData| == |mcu| == |scan.membership|
    requires r.unreadMarker == 0 ==> r.input + Flatten(chunks) <= r.ahead
    modifies r, saved, mcuData
    ensures r.Valid() && LastOk(scan, saved.lastDcVal)
    ensures old(McuComes(r, tabs, scan, 0, mcu, saved.lastDcVal, lasts, needed, rest, tail)) ==>
      McuDone(ok, r, tabs, scan, mcu, saved.lastDcVal, lasts, needed, rest, tail, Zags(mcuData, scan.order), old(Zags(mcuData, scan.order)), limits)
    ensures old(r.unreadMarker) != 0 || Terminated(old(r.input) + Flatten(chunks)) ==> ok
  {
    assert |d| == |tabs|;
    ghost var comes, was := McuComes(r, tabs, scan, 0, mcu, saved.lastDcVal, lasts, needed, rest, tail), Zags(mcuData, scan.order);
    ghost var all, last := r.input + Flatten(chunks), saved.lastDcVal;
    hide Matching, McuComes, McuDone, CategoryTables, Zag, LastOk, ScanOk, Terminated, BitReader.Bits;
    AtFirst(scan, mcu, was, limits);
    var left := chunks;
    ok := DecodeMcu(r, d, scan, mcuData, limits, saved, needed, tabs, mcu, lasts, rest, tail);
    while !ok && left != []
      invariant r.Valid() && LastOk(scan, saved.lastDcVal)
      invariant comes ==> McuDone(ok, r, tabs, scan, mcu, saved.lastDcVal, lasts, needed, rest, tail, Zags(mcuData, scan.order), was, limits)
      invariant !ok ==> saved.lastDcVal == last && (comes ==> McuComes(r, tabs, scan, 0, mcu, last, lasts, needed, rest, tail))
      invariant !ok ==> r.input + Flatten(left) == all && r.unreadMarker == 0 && !Terminated(r.input)
      invariant !ok ==> all <= r.ahead && old(r.unreadMarker) == 0
      decreases |left|
    {
      Concat(r.input, left[0], Flatten(left[1..]));
      ok := Again(r, d, scan, mcuData, limits, saved, left[0], Flatten(left[1..]), needed, tabs, mcu, lasts, rest, tail, was, comes);
      left := left[1..];
    }
    assert left == [] ==> r.input + Flatten(left) == r.input;
  }

  /** The next attempt, with more data at hand. */
  method Again(r: BitReader, d: seq<DTable>, scan: Scan, mcuData: seq<array<int>>, limits: seq<nat>, saved: HuffMcuEncoder.Saved,
               chunk: seq<byte>, ghost later: seq<byte>, ghost needed: seq<bool>, ghost tabs: seq<HuffCode.Table>, ghost mcu: seq<Block>,
               ghost lasts: seq<int>, ghost rest: seq<Token>, ghost tail: seq<bool>, ghost was: seq<seq<int>>, ghost comes: bool)
      returns (ok: bool)
    requires r.Valid() && Matching(d, tabs) && ScanOk(scan, |d|) && LastOk(scan, saved.lastDcVal) && LastOk(scan, lasts)
    requires LimitsOk(scan, limits, needed) && CategoryTables(scan, tabs)
    requires Distinct(mcuData) && |mcuData| == |mcu| == |scan.membership|
    requires r.unreadMarker == 0 && r.input + chunk + later <= r.ahead
    requires comes ==> McuComes(r, tabs, scan, 0, mcu, saved.lastDcVal, lasts, needed, rest, tail)
    requires comes ==> McuDone(false, r, tabs, scan, mcu, saved.lastDcVal, lasts, needed, rest, tail, Zags(mcuData, scan.order), was, limits)
    modifies r, saved, mcuData
    ensures r.Valid() && LastOk(scan, saved.lastDcVal)
    ensures comes ==> McuDone(ok, r, tabs, scan, mcu, saved.lastDcVal, lasts, needed, rest, tail, Zags(mcuData, scan.order), was, limits)
    ensures !ok ==> saved.lastDcVal == old(saved.lastDcVal)
    ensures !ok && comes ==> McuComes(r, tabs, scan, 0, mcu, saved.lastDcVal, lasts, needed, rest, tail)
    ensures !ok ==> r.input == old(r.input) + chunk && r.ahead == old(r.ahead) && r.unreadMarker == 0 && !Terminated(r.input)
  {
    assert |d| == |tabs|;
    ghost var y := Zags(mcuData, scan.order);
    assert comes ==> AllPartway(y, scan, mcu, was, limits);
    hide Matching, McuDone, CategoryTables, Zag, LastOk, ScanOk, Terminated, LimitsOk, AllPartway, McuInRange, McuTokens,
      Agree, BitReader.Bits;
    assert r.input + chunk <= r.input + chunk + later;
    r.Supply(chunk);
    assert comes ==> McuComes(r, tabs, scan, 0, mcu, saved.lastDcVal, lasts, needed, rest, tail);
    assert Zags(mcuData, scan.order) == y;
    r.Unmarked();
    ok := DecodeMcu(r, d, scan, mcuData, limits, saved, needed, tabs, mcu, lasts, rest, tail);
    if comes {
      DoneAgain(was, y, Zags(mcuData, scan.order), ok, r, tabs, scan, mcu, saved.lastDcVal, lasts, needed, rest, tail, limits);
    }
  }
}
