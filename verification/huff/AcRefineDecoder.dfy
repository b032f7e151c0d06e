/** decode_mcu_AC_refine of jdhuff.c: corrects a block in place, for any input.  When the
    source suspends, the attempt is undone and repeated later. */
module AcRefineDecoder {
  import opened Radix
  import opened Blocks
  import opened ByteStream
  import opened BitIo
  import opened HuffDecode
  import opened HuffReader

  /** One refinement scan: the AC table, the band, and the bit position being coded. */
  datatype Refinement = Refinement(d: DTable, ss: nat, se: nat, al: nat, order: Order)

  ghost predicate RefinementOk(c: Refinement) {
    Derived(c.d) && 1 <= c.ss <= c.se < 64 && c.al <= 13
  }

  // ---- Correction bits ----

  /** The bit p1 of a coefficient in two's complement. */
  predicate HasBit(c: int, p1: nat)
    requires 0 < p1
  {
    c / p1 % 2 == 1
  }

  /** One bit more of a nonzero coefficient, unless it has been added already. */
  function Correct(c: int, bit: bool, p1: nat): int
    requires 0 < p1
  {
    if bit && !HasBit(c, p1) then Jcoef(if c >= 0 then c + p1 else c - p1) else c
  }

  /** Adding a correction bit twice is adding it once, and never makes a coefficient zero. */
  lemma CorrectTwice(c: int, bit: bool, al: nat)
    requires -0x8000 <= c < 0x8000 && al <= 13
    ensures var p1 := Pow2(al);
      Correct(Correct(c, bit, p1), bit, p1) == Correct(c, bit, p1) && (c != 0 ==> Correct(c, bit, p1) != 0)
    ensures -0x8000 <= Correct(c, bit, Pow2(al)) < 0x8000
  {
    hide Pow2;
    var p1, w := Pow2(al), Pow2(15 - al);
    Pow2Add(al, 15 - al);
    Pow2Values();
    Pow2Grows(al, 15);
    Flip(c, p1, w);
  }

  lemma Flip(c: int, p1: nat, w: nat)
    requires 0 < p1 < 0x8000 && p1 * w == 0x8000 && -0x8000 <= c < 0x8000
    ensures !HasBit(c, p1) ==> HasBit(Jcoef(c + p1), p1) && HasBit(Jcoef(c - p1), p1)
    ensures c > 0 ==> Jcoef(c + p1) != 0
    ensures c < 0 ==> Jcoef(c - p1) != 0
  {
    hide HasBit, Jcoef;
    var q, r := DivRest(c, p1);
    BitOf(c, p1, q, r);
    Distribute1(p1, q, 1);
    Distribute1(p1, q, -1);
    Wrapped(c + p1, p1, w, q + 1, r);
    Wrapped(c - p1, p1, w, q - 1, r);
    if c > 0 { NotZero(c + p1); }
    if c < 0 { NotZero(c - p1); }
  }

  lemma NotZero(v: int)
    requires -0x10000 < v < 0x10000 && v != 0
    ensures Jcoef(v) != 0
  {
  }

  lemma DivRest(c: int, p: nat) returns (q: int, r: nat)
    requires 0 < p
    ensures c == p * q + r && r < p
  {
    q, r := c / p, c % p;
  }

  lemma Distribute1(p: int, q: int, d: int)
    ensures p * (q + d) == p * q + p * d
  {
  }

  lemma BitOf(v: int, p: nat, q: int, r: nat)
    requires v == p * q + r && r < p
    ensures HasBit(v, p) <==> q % 2 == 1
  {
    SameQuotient(p, v / p, v % p, q, r);
  }

  lemma SameQuotient(p: nat, x: int, i: nat, y: int, j: nat)
    requires p * x + i == p * y + j && i < p && j < p
    ensures x == y
  {
    if x > y {
      var d: nat := x - y;
      MulOrder(1, d, p);
      Distribute1(p, y, d);
    }
    if y > x {
      var d: nat := y - x;
      MulOrder(1, d, p);
      Distribute1(p, x, d);
    }
  }

  /** Wrapping around at 16 bits does not touch the lower bits. */
  lemma Wrapped(v: int, p: nat, w: nat, q: int, r: nat)
    requires v == p * q + r && r < p && p * w == 0x8000 && -0x18000 <= v < 0x18000
    ensures HasBit(Jcoef(v), p) <==> q % 2 == 1
  {
    hide HasBit;
    var t := if v < -0x8000 then 1 else if v >= 0x8000 then -1 else 0;
    assert Jcoef(v) == v + 0x10000 * t;
    Distribute1(p, q, 2 * w * t);
    assert p * (2 * w * t) == 2 * t * (p * w);
    BitOf(Jcoef(v), p, q + 2 * w * t, r);
  }

  // ---- What the routine computes ----

  /** A block, the position behind the last bit used, and a place in the band. */
  datatype Place = Place(block: Block, used: nat, k: nat)

  function Corrected(c: Refinement, blk: Block, k: nat, bit: bool): (r: Block)
    requires c.al <= 13 && k < 64
  {
    var p := c.order[k];
    CorrectTwice(blk[p], bit, c.al);
    blk[p := Correct(blk[p], bit, Pow2(c.al))]
  }

  /** The place behind r coefficients that stay zero; those between them with a history take one
      bit each from the data. */
  ghost function Advance(c: Refinement, s: seq<bool>, n: nat, blk: Block, k: nat, r: nat): (a: Place)
    requires RefinementOk(c) && k <= c.se + 1
    ensures k <= a.k <= c.se + 1 && (a.k <= c.se ==> a.block[c.order[a.k]] == 0)
    decreases c.se + 1 - k
  {
    if k > c.se then Place(blk, n, k)
    else if blk[c.order[k]] != 0 then Advance(c, s, n + 1, Corrected(c, blk, k, BitAt(s, n)), k + 1, r)
    else if r == 0 then Place(blk, n, k)
    else Advance(c, s, n, blk, k + 1, r - 1)
  }

  function NewValue(al: nat, positive: bool): (v: int)
    requires al <= 13
    ensures -0x8000 <= v < 0x8000 && v != 0
  {
    Pow2Grows(al, 15);
    Pow2Values();
    var p1: int := Pow2(al);
    if positive then p1 else -p1
  }

  /** What comes out of a block: the coefficients, the position in the stream, the blocks left in
      the end-of-band run, and the value of a coefficient past the band, which only a corrupt
      stream has (or 0). */
  datatype Outcome = Outcome(block: Block, used: nat, eobrun: nat, extra: int)

  /** The rest of the band holds no newly nonzero coefficient. */
  ghost function Rest(c: Refinement, s: seq<bool>, n: nat, blk: Block, k: nat, eobrun: nat): Outcome
    requires RefinementOk(c) && k <= c.se + 1 && 0 < eobrun
  {
    var a := Advance(c, s, n, blk, k, 64);
    Outcome(a.block, a.used, eobrun - 1, 0)
  }

  /** After the code for a run of r zeros and the value v: a new coefficient, or 0 for ZRL. */
  ghost function Run(c: Refinement, s: seq<bool>, n: nat, blk: Block, k: nat, r: nat, v: int): Outcome
    requires RefinementOk(c) && k <= c.se && -0x8000 <= v < 0x8000
    decreases c.se + 1 - k, 0
  {
    var a := Advance(c, s, n, blk, k, r);
    if v == 0 then Codes(c, s, a.used, a.block, a.k + 1)
    else if a.k > c.se then Outcome(a.block, a.used, 0, v)
    else Codes(c, s, a.used, a.block[c.order[a.k] := v], a.k + 1)
  }

  /** Figure G.7 read backwards: code by code from position k of the band. */
  ghost function Codes(c: Refinement, s: seq<bool>, n: nat, blk: Block, k: nat): Outcome
    requires RefinementOk(c)
    decreases c.se + 1 - k, 1
  {
    if k > c.se then Outcome(blk, n, 0, 0)
    else
      var (sym, m) := SymbolAt(c.d, s, n);
      var r := sym / 16;
      if sym % 16 != 0 then
        Run(c, s, m + 1, blk, k, r, NewValue(c.al, BitAt(s, m)))
      else if r == 15 then Run(c, s, m, blk, k, r, 0)
      else Rest(c, s, m + r, blk, k, Pow2(r) + NumberAt(s, m, r))
  }

  ghost function Band(c: Refinement, s: seq<bool>, n: nat, blk: Block, eobrun: nat): Outcome
    requires RefinementOk(c)
  {
    if eobrun > 0 then Rest(c, s, n, blk, c.ss, eobrun) else Codes(c, s, n, blk, c.ss)
  }

  /** The block that the routine leaves behind. */
  function Final(c: Refinement, o: Outcome): seq<int>
  {
    if o.extra == 0 then o.block else o.block[Natural(c.order, c.se + 1) := o.extra]
  }

  // ---- Repeating it ----

  /** y is x, with some nonzero coefficients already brought to their final values f. */
  ghost predicate Between(x: Block, y: Block, f: Block) {
    forall p :: 0 <= p < 64 ==> y[p] == x[p] || (x[p] != 0 && y[p] != 0 && y[p] == f[p])
  }

  /** Only nonzero coefficients at positions that were passed over have changed. */
  lemma {:induction false} AdvanceFrame(c: Refinement, s: seq<bool>, n: nat, blk: Block, k: nat, r: nat)
    requires RefinementOk(c) && k <= c.se + 1
    ensures var a := Advance(c, s, n, blk, k, r);
      forall p: nat :: p < 64 && a.block[p] != blk[p] ==> blk[p] != 0 && exists j :: k <= j < a.k && c.order[j] == p
    decreases c.se + 1 - k
  {
    hide Correct, Derived, BitAt, Pow2;
    if k <= c.se {
      if blk[c.order[k]] != 0 {
        AdvanceFrame(c, s, n + 1, Corrected(c, blk, k, BitAt(s, n)), k + 1, r);
        var a := Advance(c, s, n, blk, k, r);
        assert c.order[k] == c.order[k] && k < a.k;
      } else if r > 0 {
        AdvanceFrame(c, s, n, blk, k + 1, r - 1);
      }
    }
  }

  /** Positions before k have their final values. */
  ghost predicate Settled(c: Refinement, k: nat, blk: Block, f: Block) {
    forall j :: 0 <= j < k && j <= c.se < 64 ==> f[c.order[j]] == blk[c.order[j]]
  }

  lemma AdvanceSettles(c: Refinement, s: seq<bool>, n: nat, blk: Block, k: nat, r: nat)
    requires RefinementOk(c) && k <= c.se + 1
    ensures Settled(c, k, blk, Advance(c, s, n, blk, k, r).block)
  {
    hide Advance, Derived;
    AdvanceFrame(c, s, n, blk, k, r);
  }

  lemma {:induction false} CodesSettles(c: Refinement, s: seq<bool>, n: nat, blk: Block, k: nat)
    requires RefinementOk(c)
    ensures Settled(c, k, blk, Codes(c, s, n, blk, k).block)
    decreases c.se + 1 - k, 1
  {
    hide Advance, Derived, BitAt, Pow2, NewValue, Run;
    if k <= c.se {
      var (sym, m) := SymbolAt(c.d, s, n);
      var r := sym / 16;
      if sym % 16 != 0 {
        RunSettles(c, s, m + 1, blk, k, r, NewValue(c.al, BitAt(s, m)));
      } else if r == 15 {
        RunSettles(c, s, m, blk, k, r, 0);
      } else {
        AdvanceSettles(c, s, m + r, blk, k, 64);
      }
    }
  }

  lemma {:induction false} RunSettles(c: Refinement, s: seq<bool>, n: nat, blk: Block, k: nat, r: nat, v: int)
    requires RefinementOk(c) && k <= c.se && -0x8000 <= v < 0x8000
    ensures Settled(c, k, blk, Run(c, s, n, blk, k, r, v).block)
    ensures var a := Advance(c, s, n, blk, k, r); Settled(c, a.k, a.block, Run(c, s, n, blk, k, r, v).block)
    decreases c.se + 1 - k, 0
  {
    hide Advance, Derived, Codes;
    var a := Advance(c, s, n, blk, k, r);
    AdvanceSettles(c, s, n, blk, k, r);
    if v == 0 {
      CodesSettles(c, s, a.used, a.block, a.k + 1);
    } else if a.k <= c.se {
      CodesSettles(c, s, a.used, a.block[c.order[a.k] := v], a.k + 1);
    }
  }

  lemma {:induction false} AdvanceAgain(c: Refinement, s: seq<bool>, n: nat, x: Block, y: Block, k: nat, r: nat, f: Block)
    requires RefinementOk(c) && k <= c.se + 1 && Between(x, y, f)
    requires var a := Advance(c, s, n, x, k, r); Settled(c, a.k, a.block, f)
    ensures var a, b := Advance(c, s, n, x, k, r), Advance(c, s, n, y, k, r);
      b.used == a.used && b.k == a.k && Between(a.block, b.block, f)
    decreases c.se + 1 - k
  {
    hide Correct, Derived, BitAt, Pow2;
    if k <= c.se {
      var p := c.order[k];
      if x[p] != 0 {
        var x1, y1 := Corrected(c, x, k, BitAt(s, n)), Corrected(c, y, k, BitAt(s, n));
        AdvanceSettles(c, s, n + 1, x1, k + 1, r);
        assert f[p] == x1[p];
        CorrectTwice(x[p], BitAt(s, n), c.al);
        AdvanceAgain(c, s, n + 1, x1, y1, k + 1, r, f);
      } else if r > 0 {
        AdvanceAgain(c, s, n, x, y, k + 1, r - 1, f);
      }
    }
  }

  lemma {:induction false} CodesAgain(c: Refinement, s: seq<bool>, n: nat, x: Block, y: Block, k: nat)
    requires RefinementOk(c) && Between(x, y, Codes(c, s, n, x, k).block)
    ensures Codes(c, s, n, y, k) == Codes(c, s, n, x, k)
    decreases c.se + 1 - k, 1
  {
    hide Advance, Derived, BitAt, Pow2, NewValue, Run;
    if k <= c.se {
      var (sym, m) := SymbolAt(c.d, s, n);
      var r := sym / 16;
      if sym % 16 != 0 {
        RunAgain(c, s, m + 1, x, y, k, r, NewValue(c.al, BitAt(s, m)));
      } else if r == 15 {
        RunAgain(c, s, m, x, y, k, r, 0);
      } else {
        RestAgain(c, s, m + r, x, y, k, Pow2(r) + NumberAt(s, m, r));
      }
    } else {
      assert y == x;
    }
  }

  lemma {:induction false} RunAgain(c: Refinement, s: seq<bool>, n: nat, x: Block, y: Block, k: nat, r: nat, v: int)
    requires RefinementOk(c) && k <= c.se && -0x8000 <= v < 0x8000 && Between(x, y, Run(c, s, n, x, k, r, v).block)
    ensures Run(c, s, n, y, k, r, v) == Run(c, s, n, x, k, r, v)
    decreases c.se + 1 - k, 0
  {
    hide Advance, Derived, Codes, Settled;
    var a, b := Advance(c, s, n, x, k, r), Advance(c, s, n, y, k, r);
    RunSettles(c, s, n, x, k, r, v);
    AdvanceAgain(c, s, n, x, y, k, r, Run(c, s, n, x, k, r, v).block);
    if v == 0 {
      CodesAgain(c, s, a.used, a.block, b.block, a.k + 1);
    } else if a.k <= c.se {
      var p := c.order[a.k];
      CodesAgain(c, s, a.used, a.block[p := v], b.block[p := v], a.k + 1);
    } else {
      assert b.block == a.block;
    }
  }

  lemma RestAgain(c: Refinement, s: seq<bool>, n: nat, x: Block, y: Block, k: nat, eobrun: nat)
    requires RefinementOk(c) && k <= c.se && 0 < eobrun && Between(x, y, Rest(c, s, n, x, k, eobrun).block)
    ensures Rest(c, s, n, y, k, eobrun) == Rest(c, s, n, x, k, eobrun)
  {
    hide Advance, Derived;
    var a, b := Advance(c, s, n, x, k, 64), Advance(c, s, n, y, k, 64);
    AdvanceAgain(c, s, n, x, y, k, 64, a.block);
    assert b.block == a.block;
  }

  /** Correction bits that an interrupted attempt has already added do no harm: the routine
      comes to the same block, end-of-band run and position in the stream as without them. */
  lemma BandAgain(c: Refinement, s: seq<bool>, n: nat, x: Block, y: Block, eobrun: nat)
    requires RefinementOk(c) && Between(x, y, Band(c, s, n, x, eobrun).block)
    ensures Band(c, s, n, y, eobrun) == Band(c, s, n, x, eobrun)
  {
    hide Rest, Codes, Derived, Between;
    if eobrun > 0 { RestAgain(c, s, n, x, y, c.ss, eobrun); } else { CodesAgain(c, s, n, x, y, c.ss); }
  }

  // ---- The routine itself ----

  /** An array of coefficients. */
  ghost predicate IsBlock(a: array<int>)
    reads a
  {
    a.Length == 64 && forall i :: 0 <= i < 64 ==> -0x8000 <= a[i] < 0x8000
  }

  ghost function Blk(a: array<int>): Block
    reads a
    requires IsBlock(a)
  {
    a[..]
  }

  /** Reading one correction bit and applying it. */
  method CorrectOne(w: BitReader, c: Refinement, block: array<int>, k: nat, ghost s: seq<bool>, ghost n: nat, ghost i: bool)
      returns (ok: bool)
    requires RefinementOk(c) && w.Valid() && Moved(w, s, n, i) && IsBlock(block) && k < 64
    modifies w, block
    ensures w.Valid() && IsBlock(block) && (!ok ==> w.unreadMarker == 0)
    ensures ok ==> Moved(w, s, n + 1, i) && Blk(block) == Corrected(c, old(Blk(block)), k, BitAt(s, n))
    ensures !ok ==> Blk(block) == old(Blk(block))
    ensures old(w.Supplied()) ==> ok && w.Supplied()
  {
    hide BitReader.Valid, BitReader.Supplied, Moved, Pow2, BitAt, Derived;
    var bit;
    OneBitAt(s, n);
    ok, bit := ReadNumber(w, 1, s, n, i);
    if !ok { return; }
    ghost var x := Blk(block);
    CorrectTwice(x[c.order[k]], BitAt(s, n), c.al);
    var p, p1 := c.order[k], Pow2(c.al);
    if bit == 1 {
      if !HasBit(block[p], p1) {
        if block[p] >= 0 {
          block[p] := Jcoef(block[p] + p1);
        } else {
          block[p] := Jcoef(block[p] - p1);
        }
      }
    }
    assert block[..] == x[p := Correct(x[p], BitAt(s, n), p1)];
  }

  /** Advance, done on the block: every coefficient passed that is not zero gets its correction bit. */
  method AdvanceOver(w: BitReader, c: Refinement, block: array<int>, k0: nat, r0: nat,
                     ghost s: seq<bool>, ghost n0: nat, ghost i: bool) returns (ok: bool, k: nat, ghost n: nat)
    requires RefinementOk(c) && w.Valid() && Moved(w, s, n0, i) && IsBlock(block) && k0 <= c.se
    modifies w, block
    ensures w.Valid() && IsBlock(block) && (!ok ==> w.unreadMarker == 0)
    ensures ok ==> Moved(w, s, n, i) && Place(Blk(block), n, k) == Advance(c, s, n0, old(Blk(block)), k0, r0)
    ensures Between(old(Blk(block)), Blk(block), Advance(c, s, n0, old(Blk(block)), k0, r0).block)
    ensures old(w.Supplied()) ==> ok && w.Supplied()
  {
    hide BitReader.Valid, BitReader.Supplied, Moved, Corrected, BitAt, Derived;
    ghost var x, a := Blk(block), Advance(c, s, n0, Blk(block), k0, r0);
    var r: int := r0;
    k, n, ok := k0, n0, true;
    while k <= c.se
      invariant w.Valid() && Moved(w, s, n, i) && IsBlock(block) && k <= c.se + 1 && r >= 0 && ok
      invariant Advance(c, s, n, Blk(block), k, r) == a && Between(x, Blk(block), a.block)
      invariant old(w.Supplied()) ==> w.Supplied()
      decreases c.se + 1 - k
    {
      if block[c.order[k]] != 0 {
        ghost var y := Blk(block);
        ok := CorrectOne(w, c, block, k, s, n, i);
        if !ok { return; }
        n := n + 1;
        AdvanceSettles(c, s, n, Blk(block), k + 1, r);
        OneMore(c, x, y, Blk(block), k, BitAt(s, n - 1), a.block);
      } else {
        r := r - 1;
        if r < 0 { break; }  // here the run ends
      }
      k := k + 1;
    }
  }

  lemma OneMore(c: Refinement, x: Block, y: Block, z: Block, k: nat, bit: bool, f: Block)
    requires c.al <= 13 && c.se < 64 && k <= c.se && Between(x, y, f) && y[c.order[k]] != 0 && z == Corrected(c, y, k, bit)
    requires Settled(c, k + 1, z, f)
    ensures Between(x, z, f)
  {
    hide Correct, Pow2;
    CorrectTwice(y[c.order[k]], bit, c.al);
  }

  /** y can be turned back into a block between x and f: the coefficients at the positions in
      newnz were zero, and of the others only nonzero ones have changed, to their final values. */
  ghost predicate Undoable(x: Block, y: Block, f: Block, newnz: seq<nat>) {
    && (forall p :: p in newnz ==> p < 64 && x[p] == 0)
    && (forall p :: 0 <= p < 64 && p !in newnz ==> y[p] == x[p] || (x[p] != 0 && y[p] != 0 && y[p] == f[p]))
  }

  /** Newly nonzero coefficients are all in front of position k. */
  ghost predicate Before(c: Refinement, newnz: seq<nat>, k: nat) {
    forall p :: p in newnz ==> exists j :: 0 <= j < k && j < 64 && c.order[j] == p
  }

  lemma StillUndoable(c: Refinement, s: seq<bool>, n: nat, x: Block, y: Block, z: Block, k: nat, r: nat, f: Block, newnz: seq<nat>)
    requires RefinementOk(c) && k <= c.se + 1 && Undoable(x, y, f, newnz) && Before(c, newnz, k)
    requires var a := Advance(c, s, n, y, k, r); Settled(c, a.k, a.block, f) && Between(y, z, a.block)
    ensures Undoable(x, z, f, newnz)
  {
    hide Advance, Derived;
    var a := Advance(c, s, n, y, k, r);
    AdvanceFrame(c, s, n, y, k, r);
    forall p: nat | p < 64 && p !in newnz ensures z[p] == x[p] || (x[p] != 0 && z[p] != 0 && z[p] == f[p]) {
      if z[p] != y[p] {
        var j :| k <= j < a.k && c.order[j] == p;
        assert f[c.order[j]] == a.block[c.order[j]];
      }
    }
  }

  /** Take the listed coefficients back to zero, so that the block can be decoded again. */
  method Undo(block: array<int>, newnz: seq<nat>, ghost x: Block, ghost f: Block)
    requires IsBlock(block) && Undoable(x, Blk(block), f, newnz)
    modifies block
    ensures IsBlock(block) && Between(x, Blk(block), f)
  {
    var num := |newnz|;
    forall q | 0 <= q < |newnz| ensures newnz[q] < 64 { assert newnz[q] in newnz; }
    while num != 0
      invariant 0 <= num <= |newnz| && IsBlock(block)
      invariant forall q :: 0 <= q < |newnz| ==> newnz[q] < 64
      invariant forall p :: 0 <= p < 64 && p !in newnz ==> block[p] == old(block[p])
      invariant forall q :: num <= q < |newnz| ==> block[newnz[q]] == 0
    {
      num := num - 1;
      block[newnz[num]] := 0;
    }
    ghost var y := Blk(block);
    forall p | 0 <= p < 64 ensures y[p] == x[p] || (x[p] != 0 && y[p] != 0 && y[p] == f[p]) {
      if p in newnz {
        var q :| 0 <= q < |newnz| && newnz[q] == p;
      }
    }
  }

  /** No new coefficient comes any more: the old ones of the rest of the band take their bits. */
  method RestOfBand(w: BitReader, c: Refinement, block: array<int>, k0: nat,
                    ghost s: seq<bool>, ghost n0: nat, ghost i: bool) returns (ok: bool, ghost n: nat)
    requires RefinementOk(c) && w.Valid() && Moved(w, s, n0, i) && IsBlock(block) && 1 <= k0 <= c.se
    modifies w, block
    ensures w.Valid() && IsBlock(block) && (!ok ==> w.unreadMarker == 0)
    ensures var a := Advance(c, s, n0, old(Blk(block)), k0, 64);
      if ok then Moved(w, s, n, i) && Blk(block) == a.block && n == a.used else Between(old(Blk(block)), Blk(block), a.block)
    ensures old(w.Supplied()) ==> ok && w.Supplied()
  {
    hide BitReader.Valid, BitReader.Supplied, Moved, Corrected, BitAt, Derived;
    ghost var x, a := Blk(block), Advance(c, s, n0, Blk(block), k0, 64);
    ghost var r: nat := 64;
    var k := k0;
    n, ok := n0, true;
    while k <= c.se
      invariant w.Valid() && Moved(w, s, n, i) && IsBlock(block) && k0 <= k <= c.se + 1 && r >= 64 - (k - k0) && ok
      invariant Advance(c, s, n, Blk(block), k, r) == a && Between(x, Blk(block), a.block)
      invariant old(w.Supplied()) ==> w.Supplied()
      decreases c.se + 1 - k
    {
      if block[c.order[k]] != 0 {
        ghost var y := Blk(block);
        ok := CorrectOne(w, c, block, k, s, n, i);
        if !ok { return; }
        n := n + 1;
        AdvanceSettles(c, s, n, Blk(block), k + 1, r);
        OneMore(c, x, y, Blk(block), k, BitAt(s, n - 1), a.block);
      } else {
        r := r - 1;
      }
      k := k + 1;
    }
  }

  /** A code, with the sign of a new coefficient or the low bits of an end-of-band run. */
  method ReadCode(w: BitReader, c: Refinement, ghost k: nat, ghost blk: Block,
                  ghost s: seq<bool>, ghost n: nat, ghost i: bool)
      returns (ok: bool, r: nat, v: int, eobrun: nat, ghost m: nat)
    requires RefinementOk(c) && w.Valid() && Moved(w, s, n, i) && k <= c.se
    modifies w
    ensures w.Valid() && (!ok ==> w.unreadMarker == 0) && -0x8000 <= v < 0x8000
    ensures ok ==> Moved(w, s, m, i)
    ensures ok ==> Codes(c, s, n, blk, k) == if eobrun > 0 then Rest(c, s, m, blk, k, eobrun) else Run(c, s, m, blk, k, r, v)
    ensures old(w.Supplied()) ==> ok && w.Supplied()
  {
    hide BitReader.Valid, BitReader.Supplied, Moved, BitAt, Derived, Rest, Run, SymbolAt, NumberAt, Pow2;
    var sym, bits;
    v, r, eobrun := 0, 0, 0;
    ok, sym, m := ReadSymbol(w, c.d, s, n, i);
    if !ok { return; }
    r := sym / 16;
    if sym % 16 != 0 {  // anything but 1 draws a warning and is read as 1
      OneBitAt(s, m);
      ok, bits := ReadNumber(w, 1, s, m, i);
      v := NewValue(c.al, bits == 1);
      m := m + 1;
    } else if r != 15 {
      ok, bits := ReadNumber(w, r, s, m, i);
      eobrun := Pow2(r) + bits;
      m := m + r;
    }
  }

  /** What holds between two codes. */
  ghost predicate Decoding(w: BitReader, c: Refinement, block: array<int>, k: nat, newnz: seq<nat>,
                           s: seq<bool>, n: nat, i: bool, x: Block, f: Block)
    requires w.Valid()
    reads w, block
  {
    IsBlock(block) && Moved(w, s, n, i) && 1 <= k && Undoable(x, Blk(block), f, newnz) && Before(c, newnz, k)
  }

  /** One run and the new coefficient behind it, if there is one. */
  method PutCode(w: BitReader, c: Refinement, block: array<int>, k0: nat, r: nat, v: int, newnz0: seq<nat>,
                 ghost s: seq<bool>, ghost n0: nat, ghost i: bool, ghost x: Block, ghost o: Outcome)
      returns (ok: bool, k: nat, newnz: seq<nat>, ghost n: nat, ghost extra: bool)
    requires RefinementOk(c) && w.Valid() && Decoding(w, c, block, k0, newnz0, s, n0, i, x, o.block) && k0 <= c.se
    requires -0x8000 <= v < 0x8000 && Run(c, s, n0, Blk(block), k0, r, v) == o
    modifies w, block
    ensures w.Valid() && IsBlock(block) && (!ok ==> w.unreadMarker == 0)
    ensures ok && !extra ==> Decoding(w, c, block, k, newnz, s, n, i, x, o.block) && Codes(c, s, n, Blk(block), k) == o
    ensures ok && extra ==> k > c.se && Moved(w, s, o.used, i) && block[..] == Final(c, o) && o.eobrun == 0
    ensures !ok ==> Undoable(x, Blk(block), o.block, newnz)
    ensures ok ==> k0 < k
    ensures old(w.Supplied()) ==> ok && w.Supplied()
  {
    hide BitReader.Valid, BitReader.Supplied, Moved, Corrected, BitAt, Derived, Advance, Codes, Settled;
    ghost var y, a := Blk(block), Advance(c, s, n0, Blk(block), k0, r);
    RunSettles(c, s, n0, y, k0, r, v);
    newnz, extra := newnz0, v != 0 && a.k > c.se;
    ok, k, n := AdvanceOver(w, c, block, k0, r, s, n0, i);
    StillUndoable(c, s, n0, x, y, Blk(block), k0, r, o.block, newnz);
    BeforeGrows(c, newnz, k0, a.k);
    if !ok { return; }
    LaterUndoable(c, x, Blk(block), o.block, newnz, k, v);
    if v != 0 {
      var pos := Natural(c.order, k);
      block[pos] := v;
      newnz := newnz + [pos];
    }
    k := k + 1;
  }

  lemma BeforeGrows(c: Refinement, newnz: seq<nat>, j: nat, k: nat)
    requires Before(c, newnz, j) && j <= k
    ensures Before(c, newnz, k)
  {
  }

  lemma LaterUndoable(c: Refinement, x: Block, z: Block, f: Block, newnz: seq<nat>, k: nat, v: int)
    requires RefinementOk(c) && Undoable(x, z, f, newnz) && -0x8000 <= v < 0x8000
    ensures Before(c, newnz, k) ==> Before(c, newnz, k + 1)
    ensures Before(c, newnz, k) && k <= c.se && z[c.order[k]] == 0 ==>
      Undoable(x, z[c.order[k] := v], f, newnz + [c.order[k]]) && Before(c, newnz + [c.order[k]], k + 1)
  {
    hide Derived;
    if k <= c.se { assert k < k + 1 && c.order[k] == c.order[k]; }
  }

  /** One code after another, until an end-of-band code or the end of the band. */
  method DecodeCodes(w: BitReader, c: Refinement, block: array<int>, ghost s: seq<bool>, ghost i: bool)
      returns (ok: bool, k: nat, eobrun: nat, newnz: seq<nat>, ghost n: nat)
    requires RefinementOk(c) && w.Valid() && Moved(w, s, 0, i) && IsBlock(block)
    modifies w, block
    ensures w.Valid() && IsBlock(block) && (!ok ==> w.unreadMarker == 0)
    ensures var o := Codes(c, s, 0, old(Blk(block)), c.ss);
      && (ok && eobrun == 0 ==> Moved(w, s, o.used, i) && block[..] == Final(c, o) && o.eobrun == 0)
      && (ok && eobrun > 0 ==> Decoding(w, c, block, k, newnz, s, n, i, old(Blk(block)), o.block))
      && (ok && eobrun > 0 ==> k <= c.se && Rest(c, s, n, Blk(block), k, eobrun) == o)
      && (!ok ==> Undoable(old(Blk(block)), Blk(block), o.block, newnz))
    ensures old(w.Supplied()) ==> ok && w.Supplied()
  {
    hide BitReader.Valid, BitReader.Supplied, Moved, Corrected, BitAt, Derived, Advance, Pow2, Run, Rest;
    ghost var x, o := Blk(block), Codes(c, s, 0, Blk(block), c.ss);
    k, eobrun, newnz, n, ok := c.ss, 0, [], 0, true;
    ghost var extra := false;
    while k <= c.se
      invariant w.Valid() && IsBlock(block) && ok && eobrun == 0
      invariant !extra ==> Decoding(w, c, block, k, newnz, s, n, i, x, o.block) && Codes(c, s, n, Blk(block), k) == o
      invariant extra ==> k > c.se && Moved(w, s, o.used, i) && block[..] == Final(c, o) && o.eobrun == 0
      invariant old(w.Supplied()) ==> w.Supplied()
      decreases c.se + 1 - k
    {
      var r, v;
      ok, r, v, eobrun, n := ReadCode(w, c, k, Blk(block), s, n, i);
      if !ok || eobrun > 0 { return; }
      ok, k, newnz, n, extra := PutCode(w, c, block, k, r, v, newnz, s, n, i, x, o);
      if !ok { return; }
    }
  }

  lemma NotMoved(w: BitReader, s: seq<bool>)
    requires w.Valid() && w.Bits() == s
    ensures Moved(w, s, 0, w.insufficientData)
  {
    assert s[0..] == s;
  }

  /** The entropy decoder between MCUs. */
  class RefineDecoder {
    const r: BitReader
    var eobrun: nat  // blocks still to be skipped

    constructor (r: BitReader)
      ensures this.r == r && eobrun == 0
    {
      this.r, eobrun := r, 0;
    }

    /** One MCU on the working copy w of the reader. */
    method Attempt(w: BitReader, c: Refinement, block: array<int>, ghost s: seq<bool>, ghost i: bool)
        returns (ok: bool, run: nat)
      requires RefinementOk(c) && w.Valid() && Moved(w, s, 0, i) && IsBlock(block)
      modifies w, block
      ensures w.Valid() && IsBlock(block) && (!ok ==> w.unreadMarker == 0)
      ensures var o := Band(c, s, 0, old(Blk(block)), eobrun);
        if ok then Moved(w, s, o.used, i) && block[..] == Final(c, o) && run == o.eobrun
        else Between(old(Blk(block)), Blk(block), o.block)
      ensures old(w.Supplied()) ==> ok && w.Supplied()
    {
      hide BitReader.Valid, BitReader.Supplied, Moved, Derived, Advance, Codes, Between;
      ghost var x := Blk(block);
      ghost var o, n := Band(c, s, 0, x, eobrun), 0;
      var k, newnz := c.ss, [];
      run, ok := eobrun, true;
      if run == 0 {
        ok, k, run, newnz, n := DecodeCodes(w, c, block, s, i);
        if !ok {
          Undo(block, newnz, x, o.block);
          return;
        }
      }
      if run > 0 {
        ghost var y := Blk(block);
        ghost var m;
        ok, m := RestOfBand(w, c, block, k, s, n, i);
        if !ok {
          StillUndoable(c, s, n, x, y, Blk(block), k, 64, o.block, newnz);
          Undo(block, newnz, x, o.block);
          return;
        }
        run := run - 1;
      }
    }

    /** Decode one MCU.  If the data runs out, the state is as before except for correction bits
        that have been added already; otherwise the outcome is that of figure G.7. */
    method DecodeMcu(c: Refinement, block: array<int>) returns (ok: bool)
      requires RefinementOk(c) && r.Valid() && IsBlock(block)
      modifies this, r, block
      ensures r.Valid() && IsBlock(block)
      ensures old(r.insufficientData) ==> ok && unchanged(this, r, block)
      ensures var o := Band(c, old(r.Bits()), 0, old(Blk(block)), old(eobrun)); !old(r.insufficientData) ==>
        if ok then Moved(r, old(r.Bits()), o.used, false) && block[..] == Final(c, o) && eobrun == o.eobrun
        else Between(old(Blk(block)), Blk(block), o.block) && unchanged(this, r) && r.unreadMarker == 0
      ensures old(r.Supplied()) ==> ok && r.Supplied()
    {
      hide Pow2, Moved, Derived, Advance, Codes, Rest, Between, BitReader.Bits, BitReader.Supplied;
      ok := true;
      if !r.insufficientData {
        r.Unmarked();
        var w := new BitReader.Copy(r);
        ghost var s := r.Bits();
        ghost var o := Band(c, s, 0, Blk(block), eobrun);
        NotMoved(w, s);
        var run;
        ok, run := Attempt(w, c, block, s, false);
        if ok {
          r.Take(w);
          eobrun := run;
          SameMove(w, r, s, o.used);
        }
      }
    }
  }

  lemma SameMove(w: BitReader, r: BitReader, s: seq<bool>, n: nat)
    requires w.Valid() && r.Valid() && w.Bits() == r.Bits() && w.insufficientData == r.insufficientData
    ensures Moved(w, s, n, false) == Moved(r, s, n, false)
  {
  }

  /** Suspension is transparent: the source hands out its data in chunks, and whenever the data
      at hand does not suffice, the MCU is tried again after the next chunk.  However often that
      happens, the block, the end-of-band run and the position in the stream are those of one
      undisturbed call with all the data there; and when the chunks reach a marker, it ends well. */
  method DecodeInChunks(e: RefineDecoder, c: Refinement, block: array<int>, chunks: seq<seq<byte>>) returns (ok: bool)
    requires RefinementOk(c) && e.r.Valid() && IsBlock(block) && !e.r.insufficientData
    requires e.r.unreadMarker == 0 ==> e.r.input + Flatten(chunks) <= e.r.ahead
    modifies e, e.r, block
    ensures e.r.Valid() && IsBlock(block)
    ensures var o := Band(c, old(e.r.Bits()), 0, old(Blk(block)), old(e.eobrun)); ok ==>
      Moved(e.r, old(e.r.Bits()), o.used, false) && block[..] == Final(c, o) && e.eobrun == o.eobrun
    ensures old(e.r.unreadMarker) != 0 || Terminated(old(e.r.input) + Flatten(chunks)) ==> ok
  {
    hide Pow2, Moved, Derived, Band, Terminated, Final, BitReader.Bits, Between;
    ghost var x, s, run, all := Blk(block), e.r.Bits(), e.eobrun, e.r.input + Flatten(chunks);
    ghost var o := Band(c, s, 0, x, run);
    Unchanged(x, o.block);
    var left := chunks;
    ok := e.DecodeMcu(c, block);
    while !ok && left != []
      invariant e.r.Valid() && IsBlock(block)
      invariant ok ==> Moved(e.r, s, o.used, false) && block[..] == Final(c, o) && e.eobrun == o.eobrun
      invariant !ok ==> e.r.Bits() == s && e.eobrun == run && !e.r.insufficientData && Between(x, Blk(block), o.block)
      invariant !ok ==> e.r.input + Flatten(left) == all && e.r.unreadMarker == 0
      invariant !ok ==> all <= e.r.ahead && !Terminated(e.r.input) && old(e.r.unreadMarker) == 0
      decreases |left|
    {
      Concat(e.r.input, left[0], Flatten(left[1..]));
      ok := Again(e, c, block, left[0], Flatten(left[1..]), x, s, run);
      left := left[1..];
    }
    assert left == [] ==> e.r.input + Flatten(left) == e.r.input;
  }

  /** The next attempt, with more data at hand. */
  method Again(e: RefineDecoder, c: Refinement, block: array<int>, chunk: seq<byte>, ghost later: seq<byte>,
               ghost x: Block, ghost s: seq<bool>, ghost run: nat) returns (ok: bool)
    requires RefinementOk(c) && e.r.Valid() && IsBlock(block) && !e.r.insufficientData && e.r.unreadMarker == 0
    requires e.r.Bits() == s && e.eobrun == run && Between(x, Blk(block), Band(c, s, 0, x, run).block)
    requires e.r.input + chunk + later <= e.r.ahead
    modifies e, e.r, block
    ensures e.r.Valid() && IsBlock(block)
    ensures var o := Band(c, s, 0, x, run);
      if ok then Moved(e.r, s, o.used, false) && block[..] == Final(c, o) && e.eobrun == o.eobrun
      else e.r.Bits() == s && e.eobrun == run && !e.r.insufficientData && Between(x, Blk(block), o.block) && e.r.unreadMarker == 0
           && e.r.input == old(e.r.input) + chunk && !Terminated(e.r.input) && e.r.ahead == old(e.r.ahead)
  {
    hide Pow2, Moved, Derived, Band, Terminated, Final;
    assert e.r.input + chunk <= e.r.input + chunk + later;
    e.r.Supply(chunk);
    ghost var y := Blk(block);
    BandAgain(c, s, 0, x, y, run);
    ok := e.DecodeMcu(c, block);
    if !ok { BetweenTwice(x, y, Blk(block), Band(c, s, 0, x, run).block); }
  }

  lemma Unchanged(x: Block, f: Block)
    ensures Between(x, x, f)
  {
  }

  lemma BetweenTwice(x: Block, y: Block, z: Block, f: Block)
    requires Between(x, y, f) && Between(y, z, f)
    ensures Between(x, z, f)
  {
  }
}
