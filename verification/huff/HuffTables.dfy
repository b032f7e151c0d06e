/** jpeg_make_c_derived_tbl and jpeg_make_d_derived_tbl: expanding a Huffman table for
    encoding and for decoding, with the checks both make. */
module HuffTables {
  import opened Radix
  import opened HuffCode
  import opened HuffDecode

  /** Code and code length by symbol; length 0 means that the symbol has no code. */
  datatype CTable = CTable(ehufco: seq<nat>, ehufsi: seq<nat>)

  /** The code lengths in order, as in Figure C.1, with a zero behind them. */
  method FillSizes(t: Table) returns (ok: bool, huffsize: array<nat>, lastp: nat)
    ensures ok <==> |Szs(t)| <= 256
    ensures fresh(huffsize) && huffsize.Length == 257
    ensures ok ==> lastp == |Szs(t)| && huffsize[..lastp] == Szs(t) && huffsize[lastp] == 0
  {
    huffsize := new nat[257];
    var p: nat := 0;
    ok, lastp := true, 0;
    for l := 1 to 17
      invariant p == N(t.bits, l - 1) <= 256 && huffsize[..p] == Sizes(t.bits, l - 1)
    {
      var i := t.bits[l];
      Levels(t.bits, l, 16);
      if p + i > 256 {
        return false, huffsize, 0;
      }
      ghost var p0 := p;
      while i > 0
        invariant 0 <= i <= t.bits[l] && p == p0 + (t.bits[l] - i) <= 256
        invariant huffsize[..p] == Sizes(t.bits, l - 1) + seq(p - p0, _ => l)
      {
        huffsize[p] := l;
        p := p + 1;
        i := i - 1;
        assert huffsize[..p] == huffsize[..p - 1] + [l];
      }
    }
    huffsize[p] := 0;
    lastp := p;
  }

  /** The codes of Figure C.2, unless there are too many of one length. */
  method GenerateCodes(huffsize: array<nat>, ghost sz: seq<nat>) returns (ok: bool, huffcode: array<nat>)
    requires Ascending(sz) && |sz| <= 256 && huffsize.Length == 257
    requires huffsize[..|sz|] == sz && huffsize[|sz|] == 0
    ensures ok <==> Lj(sz, |sz|) < Pow2(16)
    ensures fresh(huffcode) && huffcode.Length == 257
    ensures ok ==> forall p :: 0 <= p < |sz| ==> huffcode[p] == Code(sz, p)
  {
    hide Pow2, Code, Lj;
    huffcode := new nat[257];
    var code: nat, si, p: nat := 0, huffsize[0], 0;
    ok := true;
    Pow2Positive();
    LjZero(sz);
    assert forall q :: 0 <= q < |sz| ==> huffsize[q] == huffsize[..|sz|][q];
    while huffsize[p] != 0
      invariant p <= |sz| && Lj(sz, p) < Pow2(16)
      invariant huffsize[|sz|] == 0 && forall q :: 0 <= q < |sz| ==> huffsize[q] == sz[q]
      invariant p < |sz| ==> 1 <= si <= sz[p] <= 16 && code * Pow2(16 - si) == Lj(sz, p)
      invariant forall q :: 0 <= q < p ==> huffcode[q] == Code(sz, q)
      decreases |sz| - p, if p < |sz| then 17 - si else 0
    {
      ghost var p0 := p;
      while huffsize[p] == si
        invariant huffsize[|sz|] == 0 && forall q :: 0 <= q < |sz| ==> huffsize[q] == sz[q]
        invariant p0 <= p <= |sz| && 1 <= si <= 16 && (p < |sz| ==> si <= sz[p] <= 16)
        invariant code * Pow2(16 - si) == Lj(sz, p)
        invariant forall q :: 0 <= q < p ==> huffcode[q] == Code(sz, q)
        decreases |sz| - p
      {
        CodeIs(sz, p, code);
        huffcode[p] := code;
        p := p + 1;
        code := code + 1;
      }
      // the first code that is not in use must have room in si bits
      FitsIn(code, si, Lj(sz, p));
      if code >= Pow2(si) {
        LjMonotone(sz, p, |sz|);
        return false, huffcode;
      }
      if p < |sz| { NextLength(code, si); }
      code := code * 2;
      si := si + 1;
    }
  }

  lemma Pow2Positive()
    ensures 0 < Pow2(16)
  {
  }

  lemma LjZero(sz: seq<nat>)
    requires Ascending(sz)
    ensures Lj(sz, 0) == 0
  {
  }

  lemma CodeIs(sz: seq<nat>, p: nat, code: nat)
    requires Ascending(sz) && p < |sz| && code * Pow2(16 - sz[p]) == Lj(sz, p)
    ensures Code(sz, p) == code && (code + 1) * Pow2(16 - sz[p]) == Lj(sz, p + 1)
  {
    hide Pow2, Shr;
    ShrUnique(Lj(sz, p), 16 - sz[p], code);
    Distribute(code, 1, 1, Pow2(16 - sz[p]));
  }

  lemma FitsIn(code: nat, si: nat, lj: nat)
    requires 1 <= si <= 16 && code * Pow2(16 - si) == lj
    ensures code >= Pow2(si) <==> lj >= Pow2(16)
  {
    hide Pow2;
    Pow2Add(si, 16 - si);
    if code >= Pow2(si) { MulOrder(Pow2(si), code, Pow2(16 - si)); }
    else { MulOrder(code, Pow2(si), Pow2(16 - si)); }
  }

  lemma NextLength(code: nat, si: nat)
    requires 1 <= si < 16
    ensures code * 2 * Pow2(16 - (si + 1)) == code * Pow2(16 - si)
  {
    assert Pow2(16 - si) == 2 * Pow2(16 - (si + 1));
  }

  /** Symbols that a table of this kind may name, each at most once. */
  predicate SymbolsOk(t: Table, n: nat, maxsymbol: nat)
    requires n <= 256
  {
    (forall p :: 0 <= p < n ==> t.huffval[p] <= maxsymbol) &&
    (forall p, q :: 0 <= p < q < n ==> t.huffval[p] != t.huffval[q])
  }

  /** The encoder's table names the code of every symbol in the list, and no other symbol. */
  ghost predicate Encodes(c: CTable, t: Table, n: nat)
    requires n <= 256 && n <= |Szs(t)|
  {
    && |c.ehufco| == |c.ehufsi| == 256
    && (SizesAscending(t.bits, 16); forall p :: 0 <= p < n ==>
          c.ehufsi[t.huffval[p]] == Szs(t)[p] && c.ehufco[t.huffval[p]] == Code(Szs(t), p))
    && (forall s: byte :: s !in t.huffval[..n] ==> c.ehufsi[s] == 0)
  }

  function MaxSymbol(isDC: bool): nat { if isDC then 15 else 255 }

  method MakeCDerived(t: Table, isDC: bool) returns (ok: bool, c: CTable)
    ensures ok <==> Ascending(Szs(t)) && Fits(Szs(t)) && SymbolsOk(t, |Szs(t)|, MaxSymbol(isDC))
    ensures ok ==> Encodes(c, t, |Szs(t)|)
  {
    hide Pow2, Code, Lj, Sizes;
    SizesAscending(t.bits, 16);
    c := CTable(seq(256, _ => 0), seq(256, _ => 0));
    var huffsize, huffcode, lastp;
    ok, huffsize, lastp := FillSizes(t);
    if !ok { return; }
    ghost var sz := Szs(t);
    ok, huffcode := GenerateCodes(huffsize, sz);
    if !ok { return; }
    var maxsymbol := MaxSymbol(isDC);
    for p := 0 to lastp
      invariant SymbolsOk(t, p, maxsymbol) && Encodes(c, t, p)
    {
      var i := t.huffval[p];
      assert huffsize[..lastp][p] == sz[p];
      if i > maxsymbol || c.ehufsi[i] != 0 {
        assert i <= maxsymbol ==> i in t.huffval[..p];
        return false, c;
      }
      assert i !in t.huffval[..p];
      c := CTable(c.ehufco[i := huffcode[p]], c.ehufsi[i := huffsize[p]]);
      assert t.huffval[..p + 1] == t.huffval[..p] + [i];
    }
  }

  /** The tables of Figure F.15: the largest code of every length, and where its symbols start. */
  method FillMaxcode(t: Table, huffcode: array<nat>) returns (maxcode: seq<int>, valoffset: seq<int>)
    requires Ascending(Szs(t)) && Fits(Szs(t)) && huffcode.Length == 257
    requires forall p :: 0 <= p < |Szs(t)| ==> huffcode[p] == Code(Szs(t), p)
    ensures |maxcode| == 18 && |valoffset| == 17 && maxcode[17] == 0xFFFFF
    ensures forall l :: 1 <= l <= 16 ==> MaxcodeOk(t, maxcode, valoffset, l)
  {
    hide Pow2, Code, Lj, Sizes;
    maxcode, valoffset := seq(18, _ => 0), seq(17, _ => 0);
    var p: nat := 0;
    NothingAtZero(t);
    for l := 1 to 17
      invariant p == N(t.bits, l - 1) && |maxcode| == 18 && |valoffset| == 17
      invariant forall k :: 1 <= k < l ==> MaxcodeOk(t, maxcode, valoffset, k)
    {
      Level(t.bits, l);
      ghost var m0, v0 := maxcode, valoffset;
      if t.bits[l] != 0 {
        valoffset := valoffset[l := p - huffcode[p]];
        p := p + t.bits[l];
        maxcode := maxcode[l := huffcode[p - 1]];
      } else {
        maxcode := maxcode[l := -1];
      }
      forall k | 1 <= k < l ensures MaxcodeOk(t, maxcode, valoffset, k) { SameEntry(t, m0, v0, maxcode, valoffset, k); }
    }
    ghost var m0 := maxcode;
    maxcode := maxcode[17 := 0xFFFFF];
    forall k | 1 <= k <= 16 ensures MaxcodeOk(t, maxcode, valoffset, k) { SameEntry(t, m0, valoffset, maxcode, valoffset, k); }
  }

  lemma SameEntry(t: Table, m0: seq<int>, v0: seq<int>, m: seq<int>, v: seq<int>, k: nat)
    requires 1 <= k <= 16 && Fits(Szs(t)) && |m0| == |m| == 18 && |v0| == |v| == 17
    requires MaxcodeOk(t, m0, v0, k) && m[k] == m0[k] && v[k] == v0[k]
    ensures MaxcodeOk(t, m, v, k)
  {
  }

  lemma NothingAtZero(t: Table)
    ensures N(t.bits, 0) == 0
  {
  }

  /** The lookahead entries of codes below n are in place, and there are no others. */
  ghost predicate LookUpTo(nb: seq<nat>, sym: seq<byte>, t: Table, n: nat)
    requires Ascending(Szs(t)) && Fits(Szs(t)) && n <= |Szs(t)|
  {
    && |nb| == |sym| == 256
    && forall v :: 0 <= v < 256 ==>
         if nb[v] == 0 then forall q: nat :: q < n ==> !Ahead(Szs(t), v, q)
         else exists q: nat :: q < n && Ahead(Szs(t), v, q) && nb[v] == Szs(t)[q] && sym[v] == t.huffval[q]
  }

  /** The bytes that start with code p are 2^(8 - l) consecutive numbers. */
  lemma SlotBytes(sz: seq<nat>, p: nat, v: nat)
    requires Fits(sz) && p < |sz| && sz[p] <= HUFF_LOOKAHEAD
    ensures var k := Pow2(8 - sz[p]);
      && (Ahead(sz, v, p) <==> Code(sz, p) * k <= v < Code(sz, p) * k + k)
      && Code(sz, p) * k + k <= 256
  {
    hide Pow2, Shr, Code, Lj;
    var c, k, l := Code(sz, p), Pow2(8 - sz[p]), sz[p];
    CodeExact(sz, p);
    CodeSmall(sz, p);
    Pow2Add(8 - l, 8);
    Pow2Add(l, 8 - l);
    Pow2Values();
    assert 16 - l == 8 - l + 8 && l + (8 - l) == 8;
    assert c * Pow2(16 - l) == 256 * (c * k) by { Distribute(c, k, 0, 256); }
    MulOrder(c + 1, Pow2(l), k);
    Distribute(c, 1, 1, k);
  }

  method FillLook(t: Table, huffcode: array<nat>) returns (nb: seq<nat>, sym: seq<byte>)
    requires Ascending(Szs(t)) && Fits(Szs(t)) && huffcode.Length == 257
    requires forall p :: 0 <= p < |Szs(t)| ==> huffcode[p] == Code(Szs(t), p)
    ensures LookUpTo(nb, sym, t, |Szs(t)|)
  {
    hide Pow2, Code, Lj, Sizes, InSlot;
    nb, sym := seq(256, _ => 0), seq(256, _ => 0);
    var p: nat := 0;
    NothingAtZero(t);
    for l := 1 to HUFF_LOOKAHEAD + 1
      invariant p == N(t.bits, l - 1) <= |Szs(t)| && LookUpTo(nb, sym, t, p)
    {
      Level(t.bits, l);
      for i: int := 1 to t.bits[l] as int + 1
        invariant p == N(t.bits, l - 1) + (i - 1) <= |Szs(t)| && LookUpTo(nb, sym, t, p)
      {
        nb, sym := FillSlot(t, p, huffcode[p], nb, sym);
        p := p + 1;
      }
    }
    Levels(t.bits, HUFF_LOOKAHEAD, 16);
    assert forall q: nat :: p <= q < |Szs(t)| ==> Szs(t)[q] > HUFF_LOOKAHEAD;
  }

  /** Enter one symbol at every index that starts with its code. */
  method FillSlot(t: Table, p: nat, code: nat, nb0: seq<nat>, sym0: seq<byte>) returns (nb: seq<nat>, sym: seq<byte>)
    requires Ascending(Szs(t)) && Fits(Szs(t)) && p < |Szs(t)| && Szs(t)[p] <= HUFF_LOOKAHEAD
    requires code == Code(Szs(t), p) && LookUpTo(nb0, sym0, t, p)
    ensures LookUpTo(nb, sym, t, p + 1)
  {
    hide Pow2, Code, Lj, Sizes, InSlot;
    var l := Szs(t)[p];
    nb, sym := nb0, sym0;
    var lookbits := code * Pow2(HUFF_LOOKAHEAD - l);
    var ctr := Pow2(HUFF_LOOKAHEAD - l);
    ghost var lo, hi := lookbits, lookbits + ctr;
    SlotBytes(Szs(t), p, 0);
    while ctr > 0
      invariant 0 <= ctr && lo <= lookbits && lookbits + ctr == hi <= 256 && |nb| == |sym| == 256
      invariant forall v :: 0 <= v < 256 ==> nb[v] == if lo <= v < lookbits then l else nb0[v]
      invariant forall v :: 0 <= v < 256 ==> sym[v] == if lo <= v < lookbits then t.huffval[p] else sym0[v]
    {
      nb := nb[lookbits := l];
      sym := sym[lookbits := t.huffval[p]];
      lookbits := lookbits + 1;
      ctr := ctr - 1;
    }
    forall v: nat | v < 256
      ensures if nb[v] == 0 then forall q: nat :: q < p + 1 ==> !Ahead(Szs(t), v, q)
              else exists q: nat :: q < p + 1 && Ahead(Szs(t), v, q) && nb[v] == Szs(t)[q] && sym[v] == t.huffval[q]
    {
      SlotBytes(Szs(t), p, v);
      if lo <= v < hi { assert p < p + 1 && Ahead(Szs(t), v, p); }
    }
  }

  method MakeDDerived(t: Table, isDC: bool) returns (ok: bool, d: DTable)
    ensures ok <==> Ascending(Szs(t)) && Fits(Szs(t)) && forall p :: isDC && 0 <= p < |Szs(t)| ==> t.huffval[p] <= 15
    ensures ok ==> Derived(d) && d.pub == t
  {
    hide Pow2, Code, Lj, Sizes, MaxcodeOk, Ahead;
    SizesAscending(t.bits, 16);
    d := DTable([], [], [], [], t);
    var huffsize, huffcode, numsymbols;
    ok, huffsize, numsymbols := FillSizes(t);
    if !ok { return; }
    ok, huffcode := GenerateCodes(huffsize, Szs(t));
    if !ok { return; }
    var maxcode, valoffset := FillMaxcode(t, huffcode);
    var nb, sym := FillLook(t, huffcode);
    d := DTable(maxcode, valoffset, nb, sym, t);
    forall v | 0 <= v < 256 ensures LookOk(d, v) {
      LookedUp(d, v);
    }
    if isDC {
      for i := 0 to numsymbols
        invariant forall p :: 0 <= p < i ==> t.huffval[p] <= 15
      {
        if t.huffval[i] > 15 { return false, d; }
      }
    }
  }

  lemma LookedUp(d: DTable, v: nat)
    requires Ascending(Szs(d.pub)) && Fits(Szs(d.pub)) && LookUpTo(d.lookNbits, d.lookSym, d.pub, |Szs(d.pub)|) && v < 256
    ensures LookOk(d, v)
  {
    hide InSlot;
  }
}
