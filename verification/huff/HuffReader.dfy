/** Decoding a Huffman symbol from the bit buffer: the HUFF_DECODE macro and
    jpeg_huff_decode. */
module HuffReader {
  import opened Radix
  import opened Bits
  import ByteStream
  import opened HuffCode
  import opened HuffDecode
  import opened BitIo

  /** r has moved on by n bits since it had the bits s to come. */
  ghost predicate Moved(r: BitReader, s: seq<bool>, n: nat, insufficient: bool)
    reads r
    requires r.Valid()
  {
    && Extends(r.Bits(), Skip(s, n))
    && (n <= |s| ==> r.Bits() == s[n..] && r.insufficientData == insufficient)
  }

  lemma HasMoved(r: BitReader, s: seq<bool>, n: nat, i: bool)
    requires r.Valid()
    ensures Moved(r, s, n, i) <==> Extends(r.Bits(), Skip(s, n)) && (n <= |s| ==> r.Bits() == s[n..] && r.insufficientData == i)
  {
  }

  lemma MovedOn(r: BitReader, s: seq<bool>, m: nat, t: seq<bool>, n: nat, i: bool, j: bool)
    requires r.Valid() && Extends(t, Skip(s, m)) && (m <= |s| ==> t == s[m..] && j == i)
    requires Moved(r, t, n, j)
    ensures Moved(r, s, m + n, i)
  {
    if m + n <= |s| {
      assert s[m..][n..] == s[m + n..];
    }
    assert Skip(Skip(s, m), n) == Skip(s, m + n);
    Chain(r.Bits(), t, n, Skip(s, m));
  }

  lemma Chain(x: seq<bool>, t: seq<bool>, n: nat, y: seq<bool>)
    requires Extends(x, Skip(t, n)) && Extends(t, y)
    ensures Extends(x, Skip(y, n))
  {
  }

  /** One more bit behind a code. */
  lemma NextBit(s: seq<bool>, l: nat, t: seq<bool>)
    requires Extends(t, Skip(s, l))
    ensures Peek(s, l + 1) == 2 * Peek(s, l) + Peek(t, 1)
  {
    PeekSkip(s, l, 1);
    PeekAgree(t, Skip(s, l), 1);
    assert Pow2(1) == 2;
  }

  /** jpeg_huff_decode: fetch minBits bits, then one at a time until the code is complete. */
  method DecodeSlow(r: BitReader, d: DTable, minBits: nat) returns (ok: bool, sym: byte)
    requires r.Valid() && Derived(d) && 1 <= minBits <= HUFF_LOOKAHEAD + 1 && Past(d, r.Bits(), minBits)
    modifies r
    ensures r.Valid()
    ensures ok ==> var l := SlowLength(d, old(r.Bits()), minBits);
      && Moved(r, old(r.Bits()), l, old(r.insufficientData))
      && (l == 17 ==> sym == 0)
      && (l <= 16 ==> var p := Peek(old(r.Bits()), l) + d.valoffset[l]; 0 <= p < 256 && sym == d.pub.huffval[p])
    ensures old(r.Supplied()) ==> ok && r.Supplied()
    ensures !ok ==> r.unreadMarker == 0
  {
    hide Pow2, Peek, LookOk, MaxcodeOk, Derived, Sizes, Lj, InSlot, BitReader.Bits, BitReader.Supplied, Moved, Extends, Skip;
    ghost var s, i := r.Bits(), r.insufficientData;
    DerivedShape(d);
    var l := minBits;
    var code: nat;
    sym := 0;
    ok, code := r.GetBits(l);
    if !ok { return; }
    HasMoved(r, s, l, i);
    while code > d.maxcode[l]
      invariant ok && r.Valid() && minBits <= l <= 17 && code == Peek(s, l) && Moved(r, s, l, i)
      invariant SlowLength(d, s, l) == SlowLength(d, s, minBits)
      invariant old(r.Supplied()) ==> r.Supplied()
      decreases 17 - l
    {
      CodeBelow(s, l, d.maxcode);
      ghost var t, j := r.Bits(), r.insufficientData;
      HasMoved(r, s, l, i);
      NextBit(s, l, t);
      var bit;
      ok, bit := r.GetBits(1);
      if !ok { return; }
      HasMoved(r, t, 1, j);
      MovedOn(r, s, l, t, 1, i, j);
      code := code * 2 + bit;
      l := l + 1;
    }
    SlowFinds(d, s, minBits);
    if l > 16 {
      return ok, 0;  // no code is this long: count it as symbol 0
    }
    InRange(d, l, code, s);
    sym := d.pub.huffval[code + d.valoffset[l]];
  }

  lemma DerivedShape(d: DTable)
    requires Derived(d)
    ensures |d.maxcode| == 18 && |d.valoffset| == 17 && d.maxcode[17] == 0xFFFFF && |Szs(d.pub)| <= 256
    ensures |d.lookNbits| == |d.lookSym| == 256
  {
  }

  lemma InRange(d: DTable, l: nat, code: nat, s: seq<bool>)
    requires Derived(d) && 1 <= l <= 16 && code == Peek(s, l)
    requires 0 <= Peek(s, l) + d.valoffset[l] < |Szs(d.pub)|
    ensures 0 <= code + d.valoffset[l] < 256
  {
    DerivedShape(d);
  }

  lemma CodeBelow(s: seq<bool>, l: nat, maxcode: seq<int>)
    requires |maxcode| == 18 && maxcode[17] == 0xFFFFF && l <= 17 && Peek(s, l) > maxcode[l]
    ensures l < 17
  {
    hide Peek, Pow2;
    PeekBound(s, l);
    Pow2Values();
    Pow2Step(16);
  }

  /** HUFF_DECODE: through the lookahead table if 8 bits can be had, else the slow way.  When the
      source does not suspend, the symbol and the bits used up are those of Figure F.16. */
  method Decode(r: BitReader, d: DTable) returns (ok: bool, sym: byte)
    requires r.Valid() && Derived(d)
    modifies r
    ensures r.Valid()
    ensures ok ==> match SlowDecode(d, old(r.Bits()))
      case Found(n, x) => sym == x && Moved(r, old(r.Bits()), n, old(r.insufficientData))
      case Garbage => sym == 0 && Moved(r, old(r.Bits()), 17, old(r.insufficientData))
    ensures old(r.Supplied()) ==> ok && r.Supplied()
    ensures !ok ==> r.unreadMarker == 0
  {
    hide Pow2, Peek, LookOk, MaxcodeOk, Derived, Sizes, Lj, InSlot, BitReader.Bits, BitReader.Valid, Past, Moved;
    ghost var s := r.Bits();
    PastNothing(d, s);
    SlowFinds(d, s, 1);
    var nb := 1;
    sym, ok := 0, true;
    if r.bitsLeft < HUFF_LOOKAHEAD {
      ok := r.FillBitBuffer(0);
      if !ok { return; }
    }
    assert r.Bits() == s && r.insufficientData == old(r.insufficientData);
    if r.bitsLeft >= HUFF_LOOKAHEAD {
      nb, sym := Lookahead(r, d);
      if nb != 0 {
        assert SlowDecode(d, s) == Found(nb, sym);
        assert Moved(r, s, nb, old(r.insufficientData));
        return;
      }
      nb := HUFF_LOOKAHEAD + 1;
    }
    ok, sym := DecodeSlow(r, d, nb);
  }

  /** The path through the lookahead table; nb is 0 when the next code is longer than 8 bits. */
  method Lookahead(r: BitReader, d: DTable) returns (nb: nat, sym: byte)
    requires r.Valid() && Derived(d) && r.bitsLeft >= HUFF_LOOKAHEAD
    modifies r`bitsLeft
    ensures r.Valid()
    ensures nb != 0 ==> SlowDecode(d, old(r.Bits())) == Found(nb, sym)
    ensures nb != 0 ==> Moved(r, old(r.Bits()), nb, r.insufficientData)
    ensures nb == 0 ==> r.bitsLeft == old(r.bitsLeft) && Past(d, r.Bits(), HUFF_LOOKAHEAD + 1)
    ensures nb == 0 ==> SlowLength(d, r.Bits(), 1) == SlowLength(d, r.Bits(), HUFF_LOOKAHEAD + 1)
  {
    hide Pow2, Peek, BitsOf, LookOk, MaxcodeOk, Derived, Sizes, Lj, InSlot, SlowDecode;
    ghost var s := r.Bits();
    DerivedShape(d);
    Pow2Values();
    PeekBound(s, HUFF_LOOKAHEAD);
    ghost var rest := if r.unreadMarker == 0 then ByteBits(ByteStream.DataOf(r.ahead)) else [];
    PeekBuffer(r.getBuffer, r.bitsLeft, HUFF_LOOKAHEAD, rest);
    var look := Shr(r.getBuffer, r.bitsLeft - HUFF_LOOKAHEAD) % Pow2(HUFF_LOOKAHEAD);
    assert look == Peek(s, HUFF_LOOKAHEAD);
    nb := d.lookNbits[look];
    sym := d.lookSym[look];
    if nb != 0 {
      FastFound(d, s);
      PeekBuffer(r.getBuffer, r.bitsLeft, nb, rest);
      r.bitsLeft := r.bitsLeft - nb;
      assert r.Bits() == s[nb..];
    } else {
      NotAhead(d, s);
    }
  }

  lemma FastFound(d: DTable, s: seq<bool>)
    requires Derived(d) && Peek(s, HUFF_LOOKAHEAD) < 256 && d.lookNbits[Peek(s, HUFF_LOOKAHEAD)] != 0
    ensures SlowDecode(d, s) == Found(d.lookNbits[Peek(s, HUFF_LOOKAHEAD)], d.lookSym[Peek(s, HUFF_LOOKAHEAD)])
    ensures d.lookNbits[Peek(s, HUFF_LOOKAHEAD)] <= HUFF_LOOKAHEAD
  {
    hide Pow2, Peek, MaxcodeOk, Sizes, Lj, InSlot;
    FastIsSlow(d, s);
    assert LookOk(d, Peek(s, HUFF_LOOKAHEAD));
  }

  // ---- Reading at a position of the stream ----

  /** The symbol at position n of the stream s, and the position behind it. */
  ghost function SymbolAt(d: DTable, s: seq<bool>, n: nat): (r: (byte, nat))
    requires Derived(d)
    ensures n < r.1
  {
    match SlowDecode(d, Skip(s, n))
    case Found(nb, x) => (x, n + nb)
    case Garbage => (0, n + 17)
  }

  ghost function NumberAt(s: seq<bool>, n: nat, k: nat): nat { Peek(Skip(s, n), k) }

  ghost function BitAt(s: seq<bool>, n: nat): bool { n < |s| && s[n] }

  lemma OneBitAt(s: seq<bool>, n: nat)
    ensures NumberAt(s, n, 1) == if BitAt(s, n) then 1 else 0
  {
    assert Peek(Skip(s, n), 0) == 0;
    assert n < |s| ==> Skip(s, n)[0] == s[n];
  }

  /** Zeros behind the end of the stream are as good as no bits. */
  lemma {:induction false} SlowAgree(d: DTable, x: seq<bool>, y: seq<bool>, l: nat)
    requires |d.maxcode| == 18 && 1 <= l <= 17 && Extends(x, y)
    ensures SlowLength(d, x, l) == SlowLength(d, y, l)
    decreases 17 - l
  {
    hide Peek;
    PeekAgree(x, y, l);
    if l < 17 { SlowAgree(d, x, y, l + 1); }
  }

  lemma DecodeAgree(d: DTable, x: seq<bool>, y: seq<bool>)
    requires Derived(d) && Extends(x, y)
    ensures SlowDecode(d, x) == SlowDecode(d, y)
  {
    hide Peek, LookOk, MaxcodeOk, Derived, Sizes, Lj, InSlot, Pow2;
    DerivedShape(d);
    SlowAgree(d, x, y, 1);
    PeekAgree(x, y, SlowLength(d, x, 1));
  }

  /** Decode the symbol at position n of s. */
  method ReadSymbol(r: BitReader, d: DTable, ghost s: seq<bool>, ghost n: nat, ghost i: bool)
      returns (ok: bool, sym: byte, ghost m: nat)
    requires r.Valid() && Derived(d) && Moved(r, s, n, i)
    modifies r
    ensures r.Valid() && (ok ==> (sym, m) == SymbolAt(d, s, n) && Moved(r, s, m, i))
    ensures old(r.Supplied()) ==> ok && r.Supplied()
    ensures !ok ==> r.unreadMarker == 0
  {
    hide Peek, Derived, SlowDecode, Extends, BitReader.Bits, BitReader.Valid, BitReader.Supplied;
    ghost var t, j := r.Bits(), r.insufficientData;
    DecodeAgree(d, t, Skip(s, n));
    m := SymbolAt(d, s, n).1;
    ok, sym := Decode(r, d);
    if ok { MovedOn(r, s, n, t, m - n, i, j); }
  }

  /** Fetch the number in the k bits at position n of s. */
  method ReadNumber(r: BitReader, k: nat, ghost s: seq<bool>, ghost n: nat, ghost i: bool) returns (ok: bool, v: nat)
    requires r.Valid() && k <= 15 && Moved(r, s, n, i)
    modifies r
    ensures r.Valid() && (ok ==> v == NumberAt(s, n, k) && Moved(r, s, n + k, i))
    ensures old(r.Supplied()) ==> ok && r.Supplied()
    ensures !ok ==> r.unreadMarker == 0
  {
    hide Peek, BitReader.Bits, BitReader.Valid, BitReader.Supplied;
    ghost var t, j := r.Bits(), r.insufficientData;
    PeekAgree(t, Skip(s, n), k);
    ok, v := r.GetBits(k);
    if ok { MovedOn(r, s, n, t, k, i, j); }
  }
}
