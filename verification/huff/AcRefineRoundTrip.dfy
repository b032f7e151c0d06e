/** Refinement scans end to end: from coefficients known to one bit less, the decoder gets the
    coefficients to the encoder's precision. */
module AcRefineRoundTrip {
  import opened Radix
  import opened Blocks
  import HuffCode
  import opened HuffDecode
  import opened HuffReader
  import opened HuffTokens
  import opened EobRuns
  import opened AcRefine
  import opened AcRefineDecoder
  import opened TokenStream

  /** What one more bit does to a coefficient: nothing, make it nonzero, or correct it. */
  lemma OneBitMore(v: int, al: nat)
    requires -0x8000 <= v < 0x8000 && al <= 13
    ensures var z := Shr(Abs(v), al);
      && (z == 0 ==> Coarse(v, al + 1) == 0 && Coarse(v, al) == 0)
      && (z == 1 ==> Coarse(v, al + 1) == 0 && Coarse(v, al) == NewValue(al, v >= 0))
      && (z > 1 ==> Coarse(v, al + 1) != 0 && Correct(Coarse(v, al + 1), Bit(z), Pow2(al)) == Coarse(v, al))
  {
    hide Pow2, Shr, Correct;
    var z, p := Shr(Abs(v), al), Pow2(al);
    HalfShr(Abs(v), al);
    Pow2Step(al);
    ShrQuotient(Abs(v), al);
    if z > 1 { AddBit(v < 0, z, p); }
  }

  lemma AddBit(negative: bool, z: nat, p: nat)
    requires 0 < p && z > 1 && z * p <= (if negative then 0x8000 else 0x7FFF)
    ensures z / 2 * (2 * p) != 0
    ensures Correct(Signed(negative, z / 2 * (2 * p)), Bit(z), p) == Signed(negative, z * p)
  {
    hide HasBit, Jcoef;
    var h, x := z / 2, z / 2 * (2 * p);
    EvenProduct(h, p);
    BitOf(x, p, 2 * h, 0);
    BitOf(-x, p, -(2 * h), 0);
    OddProduct(z, p);
  }

  lemma EvenProduct(h: nat, p: nat)
    requires 0 < h && 0 < p
    ensures h * (2 * p) == p * (2 * h) != 0 && p * -(2 * h) == -(h * (2 * p))
  {
    MulOrder(1, h, 2 * p);
    Negate(p, 2 * h);
  }

  lemma Negate(p: int, q: int)
    ensures p * -q == -(p * q)
  {
  }

  lemma OddProduct(z: nat, p: nat)
    ensures z * p == z / 2 * (2 * p) + (if Bit(z) then p else 0)
  {
    var h := z / 2;
    Distribute(h, 2, z % 2, p);
    assert z == h * 2 + z % 2;
  }

  function Signed(negative: bool, v: nat): int { if negative then 0 - v else v }

  // ---- One block ----

  /** Before position k the band of blk is src at precision al, and from there on src with one
      bit less; everything outside the band is as in old. */
  ghost predicate Mixed(c: Refinement, src: Block, was: Block, blk: Block, k: nat) {
    && (forall j :: 0 <= j < 64 && c.ss <= j <= c.se ==>
          blk[c.order[j]] == Coarse(src[c.order[j]], if j < k then c.al else c.al + 1))
    && (forall p :: 0 <= p < 64 && (forall j :: 0 <= j < 64 && c.ss <= j <= c.se ==> c.order[j] != p) ==> blk[p] == was[p])
  }

  /** The block holds the band of src at precision al. */
  ghost predicate Refined(c: Refinement, src: Block, was: Block, blk: Block) {
    Mixed(c, src, was, blk, 64)
  }

  function Source(c: Refinement, tab: nat, src: Block): (b: AcRefine.Band)
    requires 1 <= c.ss <= c.se < 64
    ensures BandOk(b)
  {
    BandOf(tab, c.ss, c.se, src, c.order, c.al)
  }

  /** One coefficient is brought to its new precision. */
  lemma MixedStep(c: Refinement, src: Block, was: Block, blk: Block, k: nat, v: int)
    requires RefinementOk(c) && c.ss <= k <= c.se && Mixed(c, src, was, blk, k)
    requires v == Coarse(src[c.order[k]], c.al) && -0x8000 <= v < 0x8000
    ensures Mixed(c, src, was, blk[c.order[k] := v], k + 1)
    ensures blk[c.order[k]] == Coarse(src[c.order[k]], c.al + 1)
  {
    hide Coarse, Derived;
  }

  lemma MixedEnd(c: Refinement, src: Block, was: Block, blk: Block)
    requires c.se < 64 && Mixed(c, src, was, blk, c.se + 1)
    ensures Refined(c, src, was, blk)
  {
    hide Coarse;
  }

  /** A zero coefficient that stays zero is passed over. */
  lemma MixedZero(c: Refinement, src: Block, was: Block, blk: Block, k: nat)
    requires RefinementOk(c) && c.ss <= k <= c.se && Mixed(c, src, was, blk, k) && Shr(Abs(src[c.order[k]]), c.al) == 0
    ensures blk[c.order[k]] == 0 && Mixed(c, src, was, blk, k + 1)
  {
    hide Coarse, Derived, Shr, Mixed;
    OneBitMore(src[c.order[k]], c.al);
    MixedStep(c, src, was, blk, k, 0);
    assert blk[c.order[k] := 0] == blk;
  }

  /** An already-nonzero coefficient gets its correction bit. */
  lemma MixedOld(c: Refinement, src: Block, was: Block, blk: Block, k: nat, bit: bool)
    requires RefinementOk(c) && c.ss <= k <= c.se && Mixed(c, src, was, blk, k)
    requires var z := Shr(Abs(src[c.order[k]]), c.al); z > 1 && bit == Bit(z)
    ensures blk[c.order[k]] != 0 && Mixed(c, src, was, Corrected(c, blk, k, bit), k + 1)
  {
    hide Coarse, Derived, Shr, Correct, Mixed;
    OneBitMore(src[c.order[k]], c.al);
    CorrectTwice(blk[c.order[k]], bit, c.al);
    StillThere(c, src, was, blk, k);
    MixedStep(c, src, was, blk, k, Correct(blk[c.order[k]], bit, Pow2(c.al)));
  }

  lemma StillThere(c: Refinement, src: Block, was: Block, blk: Block, k: nat)
    requires c.ss <= k <= c.se < 64 && Mixed(c, src, was, blk, k)
    ensures blk[c.order[k]] == Coarse(src[c.order[k]], c.al + 1)
  {
    hide Coarse;
  }

  lemma NoBits(bits: seq<bool>, rest: seq<Token>)
    requires bits == []
    ensures Raws(bits) + rest == rest
  {
  }

  lemma OnBits(s: seq<bool>, n: nat, tabs: seq<HuffCode.Table>, bit: bool, bits: seq<bool>, rest: seq<Token>, tail: seq<bool>)
    requires On(s, n, tabs, Raws([bit] + bits) + rest, tail)
    ensures BitAt(s, n) == bit && On(s, n + 1, tabs, Raws(bits) + rest, tail)
  {
    hide On;
    RawsAppend([bit], bits);
    assert Raws([bit] + bits) + rest == [Raw(bit)] + (Raws(bits) + rest);
    OnBit(s, n, tabs, bit, Raws(bits) + rest, tail);
  }

  lemma BandEntries(c: Refinement, tab: nat, src: Block)
    requires 1 <= c.ss <= c.se < 64
    ensures var b := Source(c, tab, src);
      b.tab == tab && b.ss == c.ss && b.se == c.se &&
      forall k :: 0 <= k < 64 ==> b.z[k] == Shr(Abs(src[c.order[k]]), c.al) && b.neg[k] == (src[c.order[k]] < 0)
  {
  }

  /** From position k, with r zeros and the bits br behind the last code, the decoder gets to
      the coefficient that the next code is about, and to the tokens rest in the stream. */
  ghost predicate Lands(c: Refinement, b: AcRefine.Band, src: Block, was: Block, s: seq<bool>, n: nat, blk: Block,
                        k: nat, r: nat, br: seq<bool>, tabs: seq<HuffCode.Table>, rest: seq<Token>, tail: seq<bool>)
    requires RefinementOk(c) && BandOk(b) && r <= 15 && b.ss <= k <= Eob(b) && b.se == c.se
  {
    var h := NextHit(b, k, r, br);
    var a := Advance(c, s, n, blk, k, h.run - r);
    a.k == h.pos && On(s, a.used, tabs, rest, tail) && Mixed(c, src, was, a.block, h.pos)
  }

  lemma LandsHere(c: Refinement, b: AcRefine.Band, src: Block, was: Block, s: seq<bool>, n: nat, blk: Block,
                  k: nat, r: nat, br: seq<bool>, tabs: seq<HuffCode.Table>, rest: seq<Token>, tail: seq<bool>)
    requires RefinementOk(c) && BandOk(b) && r <= 15 && b.ss <= k <= Eob(b) && b.se == c.se
    requires b.z[k] == 1 || (b.z[k] == 0 && r == 15)
    requires blk[c.order[k]] == 0 && Mixed(c, src, was, blk, k) && On(s, n, tabs, Raws(NextHit(b, k, r, br).bits[|br|..]) + rest, tail)
    ensures Lands(c, b, src, was, s, n, blk, k, r, br, tabs, rest, tail)
  {
    hide Derived, On, Mixed, Eob;
    NoBits(NextHit(b, k, r, br).bits[|br|..], rest);
  }

  lemma LandsLater(c: Refinement, b: AcRefine.Band, src: Block, was: Block, s: seq<bool>, n: nat, blk: Block,
                   k: nat, r: nat, br: seq<bool>, tabs: seq<HuffCode.Table>, rest: seq<Token>, tail: seq<bool>)
    requires RefinementOk(c) && BandOk(b) && r <= 15 && b.ss <= k < Eob(b) && b.se == c.se
    ensures b.z[k] > 1 && blk[c.order[k]] != 0
      && Lands(c, b, src, was, s, n + 1, Corrected(c, blk, k, BitAt(s, n)), k + 1, r, br + [Bit(b.z[k])], tabs, rest, tail)
      ==> Lands(c, b, src, was, s, n, blk, k, r, br, tabs, rest, tail)
    ensures b.z[k] == 0 && blk[c.order[k]] == 0 && r < 15 && Lands(c, b, src, was, s, n, blk, k + 1, r + 1, br, tabs, rest, tail)
      ==> Lands(c, b, src, was, s, n, blk, k, r, br, tabs, rest, tail)
  {
    hide Derived, On, Mixed, Eob, Corrected, BitAt;
  }

  /** The decoder's walk to the next coefficient of interest uses up exactly the correction bits
      that the encoder put behind the code. */
  lemma {:induction false} AdvanceIsHit(c: Refinement, tab: nat, src: Block, was: Block, s: seq<bool>, n: nat, blk: Block,
                     k: nat, r: nat, br: seq<bool>, tabs: seq<HuffCode.Table>, rest: seq<Token>, tail: seq<bool>)
    requires RefinementOk(c) && r <= 15 && Mixed(c, src, was, blk, k)
    requires c.ss <= k <= Eob(Source(c, tab, src))
    requires On(s, n, tabs, Raws(NextHit(Source(c, tab, src), k, r, br).bits[|br|..]) + rest, tail)
    ensures Lands(c, Source(c, tab, src), src, was, s, n, blk, k, r, br, tabs, rest, tail)
    decreases c.se + 1 - k
  {
    hide Derived, On, Mixed, Corrected, Coarse, BitAt, Eob, Shr, Raws, BandOf, Lands, Advance;
    BandEntries(c, tab, src);
    var b := Source(c, tab, src);
    var h := NextHit(b, k, r, br);
    OneBitMore(src[c.order[k]], c.al);
    StillThere(c, src, was, blk, k);
    if b.z[k] == 1 || (b.z[k] == 0 && r == 15) {
      LandsHere(c, b, src, was, s, n, blk, k, r, br, tabs, rest, tail);
    } else if b.z[k] > 1 {
      var bit := Bit(b.z[k]);
      assert h.bits[|br|..] == [bit] + h.bits[|br + [bit]|..];
      OnBits(s, n, tabs, bit, h.bits[|br + [bit]|..], rest, tail);
      MixedOld(c, src, was, blk, k, bit);
      AdvanceIsHit(c, tab, src, was, s, n + 1, Corrected(c, blk, k, bit), k + 1, r, br + [bit], tabs, rest, tail);
      LandsLater(c, b, src, was, s, n, blk, k, r, br, tabs, rest, tail);
    } else {
      MixedZero(c, src, was, blk, k);
      AdvanceIsHit(c, tab, src, was, s, n, blk, k + 1, r + 1, br, tabs, rest, tail);
      LandsLater(c, b, src, was, s, n, blk, k, r, br, tabs, rest, tail);
    }
  }

  /** The same for the rest of the band. */
  lemma {:induction false} AdvanceIsTail(c: Refinement, tab: nat, src: Block, was: Block, s: seq<bool>, n: nat, blk: Block,
                     k: nat, r: nat, tabs: seq<HuffCode.Table>, rest: seq<Token>, tail: seq<bool>)
    requires RefinementOk(c) && Mixed(c, src, was, blk, k) && c.ss <= k <= c.se + 1 && c.se + 1 - k <= r
    requires Eob(Source(c, tab, src)) < k
    requires On(s, n, tabs, Raws(Tail(Source(c, tab, src), k)) + rest, tail)
    ensures var a := Advance(c, s, n, blk, k, r);
      On(s, a.used, tabs, rest, tail) && Mixed(c, src, was, a.block, c.se + 1)
    decreases c.se + 1 - k
  {
    hide Derived, On, Mixed, Corrected, Coarse, BitAt, Eob, Shr, Raws, BandOf;
    BandEntries(c, tab, src);
    var b := Source(c, tab, src);
    if k > c.se {
      NoBits(Tail(b, k), rest);
    } else if b.z[k] > 1 {
      var bit := Bit(b.z[k]);
      OnBits(s, n, tabs, bit, Tail(b, k + 1), rest, tail);
      MixedOld(c, src, was, blk, k, bit);
      AdvanceIsTail(c, tab, src, was, s, n + 1, Corrected(c, blk, k, bit), k + 1, r, tabs, rest, tail);
    } else {
      MixedZero(c, src, was, blk, k);
      assert [] + Tail(b, k + 1) == Tail(b, k + 1);
      AdvanceIsTail(c, tab, src, was, s, n, blk, k + 1, r - 1, tabs, rest, tail);
    }
  }

  ghost predicate Tables(c: Refinement, tab: nat, tabs: seq<HuffCode.Table>) {
    RefinementOk(c) && tab < |tabs| && c.d.pub == tabs[tab]
  }

  /** One code: the decoder comes to the position behind its coefficient. */
  lemma HitDecodes(c: Refinement, tab: nat, src: Block, was: Block, s: seq<bool>, n: nat, blk: Block, k: nat,
                   tabs: seq<HuffCode.Table>, more: seq<Token>, tail: seq<bool>) returns (n': nat, blk': Block)
    requires Tables(c, tab, tabs) && Mixed(c, src, was, blk, k) && c.ss <= k <= Eob(Source(c, tab, src))
    requires var b := Source(c, tab, src); On(s, n, tabs, HitTokens(b, NextHit(b, k, 0, [])) + more, tail)
    ensures var h := NextHit(Source(c, tab, src), k, 0, []);
      && Codes(c, s, n, blk, k) == Codes(c, s, n', blk', h.pos + 1)
      && On(s, n', tabs, more, tail) && Mixed(c, src, was, blk', h.pos + 1)
  {
    hide Derived, On, Mixed, Corrected, Coarse, BitAt, Eob, Shr, Raws, BandOf, Advance, NextHit, SymbolAt, NewValue;
    BandEntries(c, tab, src);
    var b := Source(c, tab, src);
    var h := NextHit(b, k, 0, []);
    var m := SymbolAt(c.d, s, n).1;
    assert h.bits[0..] == h.bits;
    OneBitMore(src[c.order[h.pos]], c.al);
    if b.z[h.pos] == 1 {
      var positive := !b.neg[h.pos];
      assert HitTokens(b, h) + more == [Sym(tab, h.run * 16 + 1)] + ([Raw(positive)] + (Raws(h.bits) + more));
      OnSymbol(c.d, s, n, tabs, tab, h.run * 16 + 1, [Raw(positive)] + (Raws(h.bits) + more), tail);
      OnBit(s, m, tabs, positive, Raws(h.bits) + more, tail);
      AdvanceIsHit(c, tab, src, was, s, m + 1, blk, k, 0, [], tabs, more, tail);
      var a, v := Advance(c, s, m + 1, blk, k, h.run), NewValue(c.al, positive);
      n', blk' := a.used, a.block[c.order[a.k] := v];
      MixedStep(c, src, was, a.block, a.k, v);
    } else {
      assert HitTokens(b, h) + more == [Sym(tab, 0xF0)] + (Raws(h.bits) + more);
      OnSymbol(c.d, s, n, tabs, tab, 0xF0, Raws(h.bits) + more, tail);
      AdvanceIsHit(c, tab, src, was, s, m, blk, k, 0, [], tabs, more, tail);
      var a := Advance(c, s, m, blk, k, 15);
      n', blk' := a.used, a.block;
      MixedZero(c, src, was, a.block, a.k);
    }
  }

  /** The outcome is the refined block, with run more blocks in the end-of-band run and the
      tokens rest still to come. */
  ghost predicate Done(c: Refinement, src: Block, was: Block, s: seq<bool>, o: Outcome, run: nat,
                       tabs: seq<HuffCode.Table>, rest: seq<Token>, tail: seq<bool>) {
    o.extra == 0 && o.eobrun == run && Refined(c, src, was, o.block) && On(s, o.used, tabs, rest, tail)
  }

  /** What follows the head of a block that begins an end-of-band run of this length. */
  function Ending(b: AcRefine.Band, run: nat): seq<Token>
    requires BandOk(b) && 0 < run <= 0x7FFF
  {
    if Eob(b) < b.se then EobTokens(b.tab, run) + Raws(Tail(b, TailStart(b))) else []
  }

  function RunLeft(b: AcRefine.Band, run: nat): nat
    requires BandOk(b) && 0 < run
  {
    if Eob(b) < b.se then run - 1 else 0
  }

  lemma EndDecodes(c: Refinement, tab: nat, src: Block, was: Block, s: seq<bool>, n: nat, blk: Block, run: nat,
                   tabs: seq<HuffCode.Table>, rest: seq<Token>, tail: seq<bool>)
    requires Tables(c, tab, tabs) && 0 < run <= 0x7FFF && Mixed(c, src, was, blk, TailStart(Source(c, tab, src)))
    requires On(s, n, tabs, Ending(Source(c, tab, src), run) + rest, tail)
    ensures var b := Source(c, tab, src);
      Done(c, src, was, s, Codes(c, s, n, blk, TailStart(b)), RunLeft(b, run), tabs, rest, tail)
  {
    hide Derived, On, Mixed, Eob, Raws, BandOf, Advance, SymbolAt, EobTokens, Refined, Pow2, NumberAt;
    BandEntries(c, tab, src);
    var b := Source(c, tab, src);
    var k := TailStart(b);
    if Eob(b) < b.se {
      var t := Raws(Tail(b, k));
      assert Ending(b, run) + rest == EobTokens(tab, run) + (t + rest);
      OnEob(c.d, s, n, tabs, tab, run, t + rest, tail);
      var (sym, m) := SymbolAt(c.d, s, n);
      AdvanceIsTail(c, tab, src, was, s, m + sym / 16, blk, k, 64, tabs, rest, tail);
      MixedEnd(c, src, was, Advance(c, s, m + sym / 16, blk, k, 64).block);
    } else {
      assert [] + rest == rest;
      MixedEnd(c, src, was, blk);
    }
  }

  lemma {:induction false} HeadDecodes(c: Refinement, tab: nat, src: Block, was: Block, s: seq<bool>, n: nat, blk: Block, k: nat, run: nat,
                    tabs: seq<HuffCode.Table>, rest: seq<Token>, tail: seq<bool>)
    requires Tables(c, tab, tabs) && 0 < run <= 0x7FFF && Mixed(c, src, was, blk, k)
    requires var b := Source(c, tab, src);
      c.ss <= k <= TailStart(b) && On(s, n, tabs, Head(b, k) + (Ending(b, run) + rest), tail)
    ensures var b := Source(c, tab, src);
      Done(c, src, was, s, Codes(c, s, n, blk, k), RunLeft(b, run), tabs, rest, tail)
    decreases c.se + 1 - k
  {
    hide Derived, On, Mixed, Eob, Raws, BandOf, EobTokens, Codes, Ending, HitTokens, NextHit, Done;
    BandEntries(c, tab, src);
    var b := Source(c, tab, src);
    var ending := Ending(b, run) + rest;
    if k <= Eob(b) {
      var h := NextHit(b, k, 0, []);
      var more := Head(b, h.pos + 1) + ending;
      assert Head(b, k) + ending == HitTokens(b, h) + more;
      var n', blk' := HitDecodes(c, tab, src, was, s, n, blk, k, tabs, more, tail);
      HeadDecodes(c, tab, src, was, s, n', blk', h.pos + 1, run, tabs, rest, tail);
    } else {
      assert [] + ending == ending;
      EndDecodes(c, tab, src, was, s, n, blk, run, tabs, rest, tail);
    }
  }

  /** A block of which only a bit less was known is decoded to full precision: at the start of
      an end-of-band run or outside of one. */
  lemma BlockDecodes(c: Refinement, tab: nat, src: Block, was: Block, s: seq<bool>, n: nat, run: nat,
                     tabs: seq<HuffCode.Table>, rest: seq<Token>, tail: seq<bool>)
    requires Tables(c, tab, tabs) && 0 < run <= 0x7FFF && Mixed(c, src, was, was, c.ss)
    requires var b := Source(c, tab, src); On(s, n, tabs, Head(b, c.ss) + (Ending(b, run) + rest), tail)
    ensures Done(c, src, was, s, AcRefineDecoder.Band(c, s, n, was, 0), RunLeft(Source(c, tab, src), run), tabs, rest, tail)
  {
    hide Derived, On, Mixed, Eob, BandOf, Ending, Done, Codes, Head;
    BandEntries(c, tab, src);
    HeadDecodes(c, tab, src, was, s, n, was, c.ss, run, tabs, rest, tail);
  }

  /** A block inside an end-of-band run. */
  lemma RunDecodes(c: Refinement, tab: nat, src: Block, was: Block, s: seq<bool>, n: nat, run: nat,
                   tabs: seq<HuffCode.Table>, rest: seq<Token>, tail: seq<bool>)
    requires Tables(c, tab, tabs) && 0 < run && Mixed(c, src, was, was, c.ss) && Eob(Source(c, tab, src)) == 0
    requires On(s, n, tabs, Raws(Tail(Source(c, tab, src), c.ss)) + rest, tail)
    ensures Done(c, src, was, s, AcRefineDecoder.Band(c, s, n, was, run), run - 1, tabs, rest, tail)
  {
    hide Derived, On, Mixed, Eob, BandOf, Advance, Refined;
    AdvanceIsTail(c, tab, src, was, s, n, was, c.ss, 64, tabs, rest, tail);
    MixedEnd(c, src, was, Advance(c, s, n, was, c.ss, 64).block);
  }
}
