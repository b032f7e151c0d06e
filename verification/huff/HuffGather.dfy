/** Trial encoding of jchuff.c (htest_one_block and encode_mcu_gather): it must agree with the
    real encoding, symbol for symbol. */
module HuffGather {
  import opened Radix
  import opened Bits
  import opened Blocks
  import opened HuffTokens
  import opened HuffBlock
  import opened HuffMcuEncoder

  lemma {:induction false} CountAppend(xs: seq<Token>, ys: seq<Token>, tab: nat, s: byte)
    ensures Count(xs + ys, tab, s) == Count(xs, tab, s) + Count(ys, tab, s)
    decreases ys
  {
    if ys == [] {
      EmptySides(xs);
    } else {
      var n := |ys| - 1;
      assert (xs + ys)[..|xs + ys| - 1] == xs + ys[..n];
      CountAppend(xs, ys[..n], tab, s);
    }
  }

  function Is(a: Token, b: Token): nat { if a == b then 1 else 0 }

  lemma CountOne(x: Token, tab: nat, s: byte)
    ensures Count([x], tab, s) == Is(x, Sym(tab, s))
  {
    assert [x][..0] == [];
    assert Count([], tab, s) == 0;
  }

  /** A value counts as its symbol. */
  lemma CountValue(t: nat, r: nat, v: int, tab: nat, s: byte)
    ensures Count(ValueTokens(t, r, v), tab, s) == Is(Sym(t, (r * 16 + NBits(v)) % 256), Sym(tab, s))
  {
    hide NBits, BitsOf, Count;
    var sym := Sym(t, (r * 16 + NBits(v)) % 256);
    CountOne(sym, tab, s);
    CountRaws([sym], BitsOf(Low(v), NBits(v)));
  }

  /** The counts are those of before and the uses of each symbol of a table among the tokens. */
  ghost predicate Counts(now: seq<nat>, before: seq<nat>, tab: nat, xs: seq<Token>) {
    |now| == |before| == 257 && forall s: byte :: now[s] == before[s] + Count(xs, tab, s)
  }

  lemma CountsStart(before: seq<nat>, tab: nat)
    requires |before| == 257
    ensures Counts(before, before, tab, [])
  {
  }

  /** Counting one more use of a symbol. */
  lemma CountsSymbol(now: seq<nat>, before: seq<nat>, tab: nat, xs: seq<Token>, s: byte, ys: seq<Token>)
    requires Counts(now, before, tab, xs)
    requires forall i: byte :: Count(ys, tab, i) == Is(Sym(tab, s), Sym(tab, i))
    ensures Counts(now[s := now[s] + 1], before, tab, xs + ys)
  {
    hide Count;
    forall i: byte ensures Count(xs + ys, tab, i) == Count(xs, tab, i) + Is(Sym(tab, s), Sym(tab, i)) {
      CountAppend(xs, ys, tab, i);
    }
  }

  /** Counting nothing. */
  lemma CountsOther(now: seq<nat>, before: seq<nat>, tab: nat, xs: seq<Token>, ys: seq<Token>)
    requires Counts(now, before, tab, xs)
    requires forall i: byte :: Count(ys, tab, i) == 0
    ensures Counts(now, before, tab, xs + ys)
  {
    hide Count;
    forall i: byte ensures Count(xs + ys, tab, i) == Count(xs, tab, i) {
      CountAppend(xs, ys, tab, i);
    }
  }

  /** The AC tokens contain no symbols of other tables. */
  lemma {:induction false} HeadTable(tab: nat, z: seq<int>, k: nat, se: nat, x: Token)
    requires k <= se + 1 && se < |z| && x in BandHead(tab, z, k, se)
    ensures x.Sym? ==> x.tab == tab
    decreases se + 1 - k
  {
    hide NBits, BitsOf;
    var p := NextNonzero(z, k, se);
    if p <= se {
      if p - k > 15 {
        if x in BandHead(tab, z, k + 16, se) { HeadTable(tab, z, k + 16, se, x); }
      } else {
        if x in BandHead(tab, z, p + 1, se) { HeadTable(tab, z, p + 1, se, x); }
      }
    }
  }

  lemma NotCounted(xs: seq<Token>, tab: nat)
    requires forall x :: x in xs && x.Sym? ==> x.tab != tab
    ensures forall s: byte :: Count(xs, tab, s) == 0
  {
    forall s: byte ensures Count(xs, tab, s) == 0 { CountedIsSent(xs, tab, s); }
  }

  method CountSymbol(counts: array<nat>, s: byte, ghost before: seq<nat>, ghost tab: nat, ghost xs: seq<Token>, ghost ys: seq<Token>)
    requires counts.Length == 257 && Counts(counts[..], before, tab, xs)
    requires forall i: byte :: Count(ys, tab, i) == Is(Sym(tab, s), Sym(tab, i))
    modifies counts
    ensures Counts(counts[..], before, tab, xs + ys)
  {
    hide Counts;
    CountsSymbol(counts[..], before, tab, xs, s, ys);
    ghost var was := counts[..];
    counts[s] := counts[s] + 1;
    assert counts[..] == was[s := was[s] + 1];
  }

  /** Section F.1.2.2, counting only. */
  method CountAc(counts: array<nat>, block: Block, order: Order, se: nat, ghost tab: nat) returns (ok: bool)
    requires counts.Length == 257 && 1 <= se < 64
    modifies counts
    ensures var z := ZigZag(block, order, 0);
      && ok == BandInRange(z, 1, se)
      && (ok ==> Counts(counts[..], old(counts[..]), tab, AcTokens(tab, z, se)))
  {
    hide BandHead, NBits, Scanning, Counts, ValueTokens, Count;
    ghost var z, before := ZigZag(block, order, 0), counts[..];
    ghost var head, end := BandHead(tab, z, 1, se), Eob(tab, z, se);
    var r: nat, k := 0, 1;
    ghost var x: seq<Token> := [];
    CountsStart(before, tab);
    ScanBegin(tab, z, 1, se);
    while k <= se
      invariant 1 <= k <= se + 1 && Counts(counts[..], before, tab, x) && Scanning(tab, z, 1, k, se, r, x)
      invariant BandInRange(z, 1, k - 1) && (r > 0 <==> k > 1 && z[k - 1] == 0)
      decreases se + 1 - k
    {
      var temp := block[order[k]];
      assert z[k] == temp by { NoShift(temp); }
      if temp == 0 {
        NextZero(tab, z, 1, k, se, r, x);
        r := r + 1;
      } else {
        InLimits(temp);
        ok, x := CountRunValue(counts, r, temp, before, tab, z, k, se, x);
        if !ok { return; }
        r := 0;
      }
      k := k + 1;
    }
    ScanEnd(tab, z, 1, se, r, x);
    ok := true;
    if r > 0 {
      forall i: byte ensures Count(end, tab, i) == Is(Sym(tab, 0), Sym(tab, i)) { CountOne(Sym(tab, 0), tab, i); }
      CountSymbol(counts, 0, before, tab, x, end);
    } else {
      EmptySides(head);
    }
  }

  method CountRunValue(counts: array<nat>, r0: nat, v: int, ghost before: seq<nat>, ghost tab: nat,
                       ghost z: seq<int>, ghost k: nat, ghost se: nat, ghost x0: seq<Token>) returns (ok: bool, ghost x: seq<Token>)
    requires counts.Length == 257 && Counts(counts[..], before, tab, x0)
    requires Scanning(tab, z, 1, k, se, r0, x0) && k <= se && v == z[k] != 0
    modifies counts
    ensures ok == (NBits(v) <= MAX_COEF_BITS)
    ensures ok ==> Counts(counts[..], before, tab, x) && Scanning(tab, z, 1, k + 1, se, 0, x)
  {
    hide BandHead, NBits, Scanning, Counts, ValueTokens, Count;
    x := x0;
    var r := r0;
    while r > 15
      invariant r >= 0 && Counts(counts[..], before, tab, x) && Scanning(tab, z, 1, k, se, r, x)
    {
      ScanStep(tab, z, 1, k, se, r, x);
      forall i: byte ensures Count([Sym(tab, 0xF0)], tab, i) == Is(Sym(tab, 0xF0), Sym(tab, i)) { CountOne(Sym(tab, 0xF0), tab, i); }
      CountSymbol(counts, 0xF0, before, tab, x, [Sym(tab, 0xF0)]);
      x := x + [Sym(tab, 0xF0)];
      r := r - 16;
    }
    ScanStep(tab, z, 1, k, se, r, x);
    var nbits := CountBits(Abs(v));
    SameBits(v);
    ok := nbits <= MAX_COEF_BITS;
    if ok {
      Category(r, nbits);
      forall i: byte ensures Count(ValueTokens(tab, r, v), tab, i) == Is(Sym(tab, r * 16 + nbits), Sym(tab, i)) {
        CountValue(tab, r, v, tab, i);
      }
      CountSymbol(counts, r * 16 + nbits, before, tab, x, ValueTokens(tab, r, v));
      x := x + ValueTokens(tab, r, v);
    }
  }

  /** Count the symbols of a block. */
  method HtestOneBlock(dcCounts: array<nat>, acCounts: array<nat>, scan: Scan, blkn: nat, block: Block, last: int,
                       ghost n: nat, ghost lasts: seq<int>) returns (ok: bool)
    requires dcCounts.Length == acCounts.Length == 257 && dcCounts != acCounts
    requires ScanOk(scan, n) && LastOk(scan, lasts) && blkn < |scan.membership| && last == lasts[scan.membership[blkn]]
    requires scan.al == 0
    modifies dcCounts, acCounts
    ensures ok == BlockInRange(scan, n, blkn, block, lasts)
    ensures var c, xs := scan.membership[blkn], BlockTokens(scan, n, blkn, block, lasts); ok ==>
      && Counts(dcCounts[..], old(dcCounts[..]), scan.dcTab[c], xs)
      && Counts(acCounts[..], old(acCounts[..]), scan.acTab[c], xs)
  {
    hide Counts, BandInRange, NBits, Count, ZigZag, ValueTokens;
    var c := scan.membership[blkn];
    ghost var dcTab, acTab := scan.dcTab[c], scan.acTab[c];
    var diff := block[0] - last;
    assert diff == DcValue(scan, block) - last by { NoShift0(block[0]); }
    ghost var z := ZigZag(block, scan.order, 0);
    ghost var dc, ac := ValueTokens(dcTab, 0, diff), AcTokens(acTab, z, scan.se);
    ghost var dc0, ac0 := dcCounts[..], acCounts[..];
    var nbits := CountBits(Abs(diff));
    SameBits(diff);
    InLimits(diff);
    if nbits > MAX_COEF_BITS + 1 { return false; }
    Category(0, nbits);
    DcOnly(dcTab, acTab, diff, z, scan.se);
    CountsStart(dc0, dcTab);
    CountSymbol(dcCounts, nbits, dc0, dcTab, [], dc);
    EmptySides(dc);
    CountsOther(dcCounts[..], dc0, dcTab, dc, ac);
    ok := true;
    if scan.se > 0 {
      ok := CountAc(acCounts, block, scan.order, scan.se, acTab);
    } else {
      NoAc(acTab, z);
      CountsStart(ac0, acTab);
    }
    if ok { CountsBefore(acCounts[..], ac0, acTab, dc, ac); }
  }

  lemma NoShift0(v: int)
    ensures ShiftRight(v, 0) == v
  {
  }

  /** Tokens in front that use other tables do not count. */
  lemma CountsBefore(now: seq<nat>, before: seq<nat>, tab: nat, xs: seq<Token>, ys: seq<Token>)
    requires Counts(now, before, tab, ys)
    requires forall i: byte :: Count(xs, tab, i) == 0
    ensures Counts(now, before, tab, xs + ys)
  {
    hide Count;
    forall i: byte ensures Count(xs + ys, tab, i) == Count(ys, tab, i) {
      CountAppend(xs, ys, tab, i);
    }
  }

  lemma DcOnly(dcTab: nat, acTab: nat, diff: int, z: seq<int>, se: nat)
    requires dcTab != acTab && se < |z| && NBits(diff) <= 15
    ensures forall i: byte :: Count(ValueTokens(dcTab, 0, diff), dcTab, i) == Is(Sym(dcTab, NBits(diff)), Sym(dcTab, i))
    ensures forall i: byte :: Count(ValueTokens(dcTab, 0, diff), acTab, i) == 0
    ensures forall i: byte :: Count(AcTokens(acTab, z, se), dcTab, i) == 0
  {
    hide NBits, Count, BandHead, ValueTokens;
    forall i: byte
      ensures Count(ValueTokens(dcTab, 0, diff), dcTab, i) == Is(Sym(dcTab, NBits(diff)), Sym(dcTab, i))
      ensures Count(ValueTokens(dcTab, 0, diff), acTab, i) == 0
    {
      CountValue(dcTab, 0, diff, dcTab, i);
      CountValue(dcTab, 0, diff, acTab, i);
    }
    forall x | x in AcTokens(acTab, z, se) && x.Sym? ensures x.tab != dcTab {
      if se > 0 && x in BandHead(acTab, z, 1, se) { HeadTable(acTab, z, 1, se, x); }
    }
    NotCounted(AcTokens(acTab, z, se), dcTab);
  }

  // ---- MCUs ----

  /** One array of counts for every table. */
  ghost predicate Counters(counts: seq<array<nat>>) {
    (forall t :: 0 <= t < |counts| ==> counts[t].Length == 257) &&
    (forall t, u :: 0 <= t < u < |counts| ==> counts[t] != counts[u])
  }

  ghost predicate AllCounts(counts: seq<array<nat>>, before: seq<seq<nat>>, xs: seq<Token>)
    reads counts
  {
    |before| == |counts| && forall t :: 0 <= t < |counts| ==> Counts(counts[t][..], before[t], t, xs)
  }

  lemma CountsTwice(a: seq<nat>, b: seq<nat>, c: seq<nat>, tab: nat, xs: seq<Token>, ys: seq<Token>)
    requires Counts(b, a, tab, xs) && Counts(c, b, tab, ys)
    ensures Counts(c, a, tab, xs + ys)
  {
    hide Count;
    forall i: byte ensures Count(xs + ys, tab, i) == Count(xs, tab, i) + Count(ys, tab, i) { CountAppend(xs, ys, tab, i); }
  }

  /** A block uses no tables but those of its component. */
  lemma OtherTables(scan: Scan, n: nat, blkn: nat, block: Block, lasts: seq<int>, t: nat)
    requires ScanOk(scan, n) && LastOk(scan, lasts) && blkn < |scan.membership|
    requires var c := scan.membership[blkn]; t != scan.dcTab[c] && t != scan.acTab[c]
    ensures forall s: byte :: Count(BlockTokens(scan, n, blkn, block, lasts), t, s) == 0
  {
    hide NBits, BandHead, ZigZag, Count;
    var c, z, xs := scan.membership[blkn], ZigZag(block, scan.order, scan.al), BlockTokens(scan, n, blkn, block, lasts);
    forall x | x in xs && x.Sym? ensures x.tab != t {
      if scan.se > 0 && x in BandHead(scan.acTab[c], z, 1, scan.se) { HeadTable(scan.acTab[c], z, 1, scan.se, x); }
    }
    NotCounted(xs, t);
  }

  /** Trial-encode one MCU: afterwards every count has grown by the uses of its symbol in what
      the real encoder sends for the same MCU, and the range check is the same. */
  method EncodeMcuGather(counts: seq<array<nat>>, scan: Scan, mcu: seq<Block>, saved: Saved) returns (ok: bool)
    requires Counters(counts) && ScanOk(scan, |counts|) && scan.al == 0
    requires LastOk(scan, saved.lastDcVal) && |mcu| == |scan.membership|
    modifies saved, set a | a in counts
    ensures var n, was := |counts|, old(saved.lastDcVal);
      && ok == McuInRange(scan, n, 0, mcu, was)
      && (ok ==> AllCounts(counts, seq(n, t requires 0 <= t < n => old(counts[t][..])), McuTokens(scan, n, 0, mcu, was)))
      && (ok ==> saved.lastDcVal == McuLast(scan, n, 0, mcu, was))
  {
    hide BlockTokens, BlockInRange, LastNext, Counts, Count;
    ghost var n, was := |counts|, saved.lastDcVal;
    ghost var before := seq(n, t requires 0 <= t < n => old(counts[t][..]));
    ghost var total, x: seq<Token> := McuTokens(scan, n, 0, mcu, was), [];
    EmptySides(total);
    forall t | 0 <= t < n ensures Counts(counts[t][..], before[t], t, []) { CountsStart(before[t], t); }
    for blkn := 0 to |mcu|
      invariant LastOk(scan, saved.lastDcVal) && AllCounts(counts, before, x)
      invariant x + McuTokens(scan, n, blkn, mcu, saved.lastDcVal) == total
      invariant McuInRange(scan, n, blkn, mcu, saved.lastDcVal) == McuInRange(scan, n, 0, mcu, was)
      invariant McuLast(scan, n, blkn, mcu, saved.lastDcVal) == McuLast(scan, n, 0, mcu, was)
    {
      ghost var lasts := saved.lastDcVal;
      ghost var y, rest := BlockTokens(scan, n, blkn, mcu[blkn], lasts),
                           McuTokens(scan, n, blkn + 1, mcu, LastNext(scan, n, blkn, mcu[blkn], lasts));
      var c := scan.membership[blkn];
      ok := GatherBlock(counts, scan, blkn, mcu[blkn], saved.lastDcVal[c], lasts, before, x);
      if !ok { return; }
      Concat(x, y, rest);
      x := x + y;
      NextIs(scan, n, blkn, mcu[blkn], lasts);
      assert ShiftRight(mcu[blkn][0], 0) == mcu[blkn][0] by { NoShift0(mcu[blkn][0]); }
      saved.lastDcVal := saved.lastDcVal[c := mcu[blkn][0]];
    }
    EmptySides(x);
    ok := true;
  }

  method GatherBlock(counts: seq<array<nat>>, scan: Scan, blkn: nat, block: Block, last: int,
                     ghost lasts: seq<int>, ghost before: seq<seq<nat>>, ghost x: seq<Token>) returns (ok: bool)
    requires Counters(counts) && ScanOk(scan, |counts|) && scan.al == 0 && AllCounts(counts, before, x)
    requires LastOk(scan, lasts) && blkn < |scan.membership| && last == lasts[scan.membership[blkn]]
    modifies set a | a in counts
    ensures ok == BlockInRange(scan, |counts|, blkn, block, lasts)
    ensures ok ==> AllCounts(counts, before, x + BlockTokens(scan, |counts|, blkn, block, lasts))
  {
    hide BlockTokens, BlockInRange, Counts, Count;
    ghost var n, y := |counts|, BlockTokens(scan, |counts|, blkn, block, lasts);
    var c := scan.membership[blkn];
    ghost var prev := seq(n, t requires 0 <= t < n reads counts => counts[t][..]);
    ok := HtestOneBlock(counts[scan.dcTab[c]], counts[scan.acTab[c]], scan, blkn, block, last, n, lasts);
    if !ok { return; }
    forall t | 0 <= t < n ensures Counts(counts[t][..], before[t], t, x + y) {
      if t == scan.dcTab[c] || t == scan.acTab[c] {
        CountsTwice(before[t], prev[t], counts[t][..], t, x, y);
      } else {
        OtherTables(scan, n, blkn, block, lasts, t);
        CountsOther(counts[t][..], before[t], t, x, y);
      }
    }
  }
}
