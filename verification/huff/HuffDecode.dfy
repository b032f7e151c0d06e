/** Decoding tables and the two ways to decode a symbol: bit by bit, and through an 8-bit
    lookahead table.  Both are proved to find the one code that the input starts with. */
module HuffDecode {
  import opened Radix
  import opened Bits
  import opened HuffCode

  const HUFF_LOOKAHEAD := 8

  datatype DTable = DTable(maxcode: seq<int>, valoffset: seq<int>, lookNbits: seq<nat>, lookSym: seq<byte>, pub: Table)

  function N(bits: seq<byte>, l: nat): nat
    requires |bits| == 17 && l <= 16
  {
    |Sizes(bits, l)|
  }

  /** The codes of length l are those from N(l - 1) up to N(l). */
  lemma {:induction false} Levels(bits: seq<byte>, l: nat, m: nat)
    requires |bits| == 17 && l <= m <= 16
    ensures N(bits, l) <= N(bits, m)
    ensures forall p :: 0 <= p < N(bits, l) ==> Sizes(bits, m)[p] == Sizes(bits, l)[p]
    ensures forall p :: N(bits, l) <= p < N(bits, m) ==> Sizes(bits, m)[p] > l
    decreases m
  {
    if l < m { Levels(bits, l, m - 1); }
  }

  lemma Level(bits: seq<byte>, l: nat)
    requires |bits| == 17 && 1 <= l <= 16
    ensures N(bits, l) == N(bits, l - 1) + bits[l] <= N(bits, 16)
    ensures forall p :: N(bits, l - 1) <= p < N(bits, l) ==> Sizes(bits, 16)[p] == l
    ensures forall p :: 0 <= p < N(bits, l) ==> Sizes(bits, 16)[p] <= l
    ensures forall p :: N(bits, l) <= p < N(bits, 16) ==> Sizes(bits, 16)[p] > l
  {
    Levels(bits, l, 16);
  }

  /** The 16-bit window w starts with code p. */
  predicate InSlot(sz: seq<nat>, w: nat, p: nat)
    requires Ascending(sz)
  {
    p < |sz| && Lj(sz, p) <= w < Lj(sz, p) + Pow2(16 - sz[p])
  }

  lemma OneSlot(sz: seq<nat>, w: nat, p: nat, q: nat)
    requires Ascending(sz) && InSlot(sz, w, p) && InSlot(sz, w, q)
    ensures p == q
  {
    if p < q { LjMonotone(sz, p, q); }
    if q < p { LjMonotone(sz, q, p); }
  }

  function Szs(t: Table): seq<nat> { Sizes(t.bits, 16) }

  ghost predicate MaxcodeOk(t: Table, maxcode: seq<int>, valoffset: seq<int>, l: nat)
    requires 1 <= l <= 16 && Fits(Szs(t)) && |maxcode| == 18 && |valoffset| == 17
  {
    var lo, hi := N(t.bits, l - 1), N(t.bits, l);
    Level(t.bits, l);
    if t.bits[l] == 0 then maxcode[l] == -1
    else maxcode[l] == Code(Szs(t), hi - 1) && valoffset[l] == lo - Code(Szs(t), lo)
  }

  /** The lookahead entry of v is code p, of at most 8 bits. */
  ghost predicate Ahead(sz: seq<nat>, v: nat, p: nat)
    requires Ascending(sz)
  {
    p < |sz| && sz[p] <= HUFF_LOOKAHEAD && InSlot(sz, 256 * v, p)
  }

  ghost predicate LookOk(d: DTable, v: nat)
    requires v < 256 && Fits(Szs(d.pub)) && |d.lookNbits| == |d.lookSym| == 256
  {
    if d.lookNbits[v] == 0 then forall p: nat :: !Ahead(Szs(d.pub), v, p)
    else exists p: nat :: Ahead(Szs(d.pub), v, p) && d.lookNbits[v] == Szs(d.pub)[p] && d.lookSym[v] == d.pub.huffval[p]
  }

  /** What jpeg_make_d_derived_tbl establishes. */
  ghost predicate Derived(d: DTable) {
    && Fits(Szs(d.pub))
    && |d.maxcode| == 18 && |d.valoffset| == 17 && d.maxcode[17] == 0xFFFFF
    && |d.lookNbits| == |d.lookSym| == 256
    && (forall l :: 1 <= l <= 16 ==> MaxcodeOk(d.pub, d.maxcode, d.valoffset, l))
    && (forall v :: 0 <= v < 256 ==> LookOk(d, v))
  }

  /** Figure F.16, from length l on: the first length whose largest code is not exceeded,
      or 17. */
  function SlowLength(d: DTable, s: seq<bool>, l: nat): (r: nat)
    requires |d.maxcode| == 18 && 1 <= l <= 17
    ensures l <= r <= 17
    decreases 17 - l
  {
    if l == 17 || Peek(s, l) <= d.maxcode[l] then l else SlowLength(d, s, l + 1)
  }

  /** No code of fewer than l bits matches, so the search may start at length l. */
  ghost predicate Past(d: DTable, s: seq<bool>, l: nat)
    requires Derived(d) && 1 <= l <= 17
  {
    Levels(d.pub.bits, l - 1, 16);
    Peek(s, 16) >= Lj(Szs(d.pub), N(d.pub.bits, l - 1))
  }

  /** Codes of one length are consecutive numbers. */
  lemma {:induction false} Consecutive(sz: seq<nat>, p: nat, q: nat)
    requires Ascending(sz) && p <= q < |sz| && sz[p] == sz[q]
    ensures Code(sz, q) == Code(sz, p) + (q - p)
    ensures Lj(sz, q) == (Code(sz, p) + (q - p)) * Pow2(16 - sz[p])
    decreases q
  {
    hide Pow2, Shr, Code;
    var w := Pow2(16 - sz[p]);
    if p < q {
      Consecutive(sz, p, q - 1);
      Distribute(Code(sz, p) + (q - 1 - p), 1, 1, w);
      CodeExact(sz, q);
      ShrUnique(Lj(sz, q), 16 - sz[q], Code(sz, p) + (q - p));
      CodeIsShr(sz, q);
    } else {
      CodeExact(sz, p);
    }
  }

  lemma CodeIsShr(sz: seq<nat>, p: nat)
    requires Ascending(sz) && p < |sz|
    ensures Code(sz, p) == Shr(Lj(sz, p), 16 - sz[p])
  {
  }

  lemma LevelEnds(sz: seq<nat>, lo: nat, hi: nat)
    requires Ascending(sz) && lo < hi <= |sz| && sz[lo] == sz[hi - 1]
    ensures Lj(sz, lo) == Code(sz, lo) * Pow2(16 - sz[lo])
    ensures Lj(sz, hi) == (Code(sz, lo) + (hi - lo)) * Pow2(16 - sz[lo])
    ensures Code(sz, hi - 1) == Code(sz, lo) + (hi - lo) - 1
  {
    hide Pow2, Code;
    var c, n, k := Code(sz, lo), hi - lo, Pow2(16 - sz[lo]);
    CodeExact(sz, lo);
    Consecutive(sz, lo, hi - 1);
    assert Lj(sz, hi) == (c + (n - 1)) * k + k;
    Distribute(c + (n - 1), 1, 1, k);
    assert (c + (n - 1) + 1) * k == (c + n) * k;
  }

  /** At a length that no shorter code precludes, the comparison with maxcode tells whether the
      window starts with a code of that length, and valoffset finds which. */
  lemma OneLength(d: DTable, s: seq<bool>, l: nat)
    requires Derived(d) && 1 <= l <= 16 && Past(d, s, l)
    ensures Peek(s, l) > d.maxcode[l] ==> Past(d, s, l + 1)
    ensures Peek(s, l) <= d.maxcode[l] ==> var p := Peek(s, l) + d.valoffset[l];
      0 <= p < |Szs(d.pub)| && Szs(d.pub)[p] == l && InSlot(Szs(d.pub), Peek(s, 16), p)
  {
    hide Pow2, Shr, Code, Peek, LookOk, Sizes, Lj;
    var sz, w := Szs(d.pub), Peek(s, 16);
    var lo, hi, k := N(d.pub.bits, l - 1), N(d.pub.bits, l), Pow2(16 - l);
    Level(d.pub.bits, l);
    assert MaxcodeOk(d.pub, d.maxcode, d.valoffset, l);
    if lo < hi {
      PeekShr(s, l, 16 - l);
      ShrQuotient(w, 16 - l);
      LevelEnds(sz, lo, hi);
      var x, c := Peek(s, l), Code(sz, lo);
      InLevel(x, c, hi - lo, k, w);
      if x <= d.maxcode[l] {
        Consecutive(sz, lo, lo + (x - c));
      }
    }
  }

  lemma InLevel(x: nat, c: nat, n: nat, k: nat, w: nat)
    requires x * k <= w < x * k + k && c * k <= w
    ensures c <= x
    ensures x < c + n <==> w < (c + n) * k
  {
    if x < c { MulOrder(x + 1, c, k); }
    if x < c + n { MulOrder(x + 1, c + n, k); } else { MulOrder(c + n, x, k); }
  }

  /** Figure F.16 finds the code that the window starts with, if there is one. */
  lemma {:induction false} SlowFinds(d: DTable, s: seq<bool>, l: nat)
    requires Derived(d) && 1 <= l <= 17 && Past(d, s, l)
    ensures var r := SlowLength(d, s, l);
      if r == 17 then Peek(s, 16) >= Lj(Szs(d.pub), |Szs(d.pub)|)
      else var p := Peek(s, r) + d.valoffset[r];
        0 <= p < |Szs(d.pub)| && Szs(d.pub)[p] == r && InSlot(Szs(d.pub), Peek(s, 16), p)
    decreases 17 - l
  {
    hide Pow2, Code, Peek, LookOk, MaxcodeOk, Sizes, Lj, InSlot;
    if l <= 16 {
      OneLength(d, s, l);
      if Peek(s, l) > d.maxcode[l] { SlowFinds(d, s, l + 1); }
    }
  }

  datatype Decoded = Found(nbits: nat, sym: byte) | Garbage

  /** jpeg_huff_decode started at length 1, on input that goes on with the bits s. */
  ghost function SlowDecode(d: DTable, s: seq<bool>): Decoded
    requires Derived(d)
  {
    SlowFinds(d, s, 1);
    var r := SlowLength(d, s, 1);
    if r == 17 then Garbage else Found(r, d.pub.huffval[Peek(s, r) + d.valoffset[r]])
  }

  /** What HUFF_DECODE does with at least 8 bits at hand. */
  ghost function FastDecode(d: DTable, s: seq<bool>): Decoded
    requires Derived(d)
  {
    PeekBound(s, HUFF_LOOKAHEAD);
    Pow2Values();
    var look := Peek(s, HUFF_LOOKAHEAD);
    if d.lookNbits[look] != 0 then Found(d.lookNbits[look], d.lookSym[look])
    else
      NotAhead(d, s);
      SlowFinds(d, s, HUFF_LOOKAHEAD + 1);
      var r := SlowLength(d, s, HUFF_LOOKAHEAD + 1);
      if r == 17 then Garbage else Found(r, d.pub.huffval[Peek(s, r) + d.valoffset[r]])
  }

  /** A window and its first 8 bits lie in the same slot, for codes of at most 8 bits. */
  lemma AheadIsSlot(sz: seq<nat>, s: seq<bool>, p: nat)
    requires Ascending(sz) && p < |sz| && sz[p] <= HUFF_LOOKAHEAD
    ensures InSlot(sz, 256 * Peek(s, HUFF_LOOKAHEAD), p) == InSlot(sz, Peek(s, 16), p)
  {
    hide Pow2, Shr, Code, Peek, Lj;
    var v, w, k := Peek(s, 8), Peek(s, 16), Pow2(16 - sz[p]);
    PeekShr(s, 8, 8);
    ShrQuotient(w, 8);
    Pow2Values();
    CodeExact(sz, p);
    Pow2Add(8, 8 - sz[p]);
    var c, m := Code(sz, p), Pow2(8 - sz[p]);
    assert k == 256 * m;
    assert Lj(sz, p) == 256 * (c * m);
  }

  lemma NotAhead(d: DTable, s: seq<bool>)
    requires Derived(d) && Peek(s, HUFF_LOOKAHEAD) < 256 && d.lookNbits[Peek(s, HUFF_LOOKAHEAD)] == 0
    ensures Past(d, s, HUFF_LOOKAHEAD + 1)
    ensures SlowLength(d, s, 1) == SlowLength(d, s, HUFF_LOOKAHEAD + 1)
  {
    hide Pow2, Code, Peek, MaxcodeOk, Sizes, Lj, InSlot;
    assert LookOk(d, Peek(s, HUFF_LOOKAHEAD));
    PastNothing(d, s);
    SkipTo(d, s, 1, HUFF_LOOKAHEAD + 1);
  }

  lemma {:induction false} SkipTo(d: DTable, s: seq<bool>, l: nat, m: nat)
    requires Derived(d) && 1 <= l <= m <= HUFF_LOOKAHEAD + 1 && Past(d, s, l)
    requires forall p: nat :: !Ahead(Szs(d.pub), Peek(s, HUFF_LOOKAHEAD), p)
    ensures Past(d, s, m) && SlowLength(d, s, l) == SlowLength(d, s, m)
    decreases m - l
  {
    hide Pow2, Code, Peek, MaxcodeOk, LookOk, Sizes, Lj, InSlot;
    if l < m {
      OneLength(d, s, l);
      if Peek(s, l) <= d.maxcode[l] { FoundIsAhead(d, s, l); }
      SkipTo(d, s, l + 1, m);
    }
  }

  lemma FoundIsAhead(d: DTable, s: seq<bool>, l: nat)
    requires Derived(d) && 1 <= l <= HUFF_LOOKAHEAD && Past(d, s, l) && Peek(s, l) <= d.maxcode[l]
    ensures exists p: nat :: Ahead(Szs(d.pub), Peek(s, HUFF_LOOKAHEAD), p)
  {
    hide Pow2, Code, Peek, MaxcodeOk, LookOk, Sizes, Lj, InSlot;
    OneLength(d, s, l);
    var p: nat := Peek(s, l) + d.valoffset[l];
    AheadIsSlot(Szs(d.pub), s, p);
    assert Ahead(Szs(d.pub), Peek(s, HUFF_LOOKAHEAD), p);
  }

  lemma PastNothing(d: DTable, s: seq<bool>)
    requires Derived(d)
    ensures Past(d, s, 1)
  {
    hide MaxcodeOk, LookOk;
  }

  /** The lookahead table changes nothing: on every input the fast way and the slow way find
      the same symbol and use up the same number of bits. */
  lemma FastIsSlow(d: DTable, s: seq<bool>)
    requires Derived(d)
    ensures FastDecode(d, s) == SlowDecode(d, s)
  {
    hide Pow2, Code, Peek, MaxcodeOk, Sizes, Lj, InSlot;
    PeekBound(s, HUFF_LOOKAHEAD);
    Pow2Values();
    var look, sz := Peek(s, HUFF_LOOKAHEAD), Szs(d.pub);
    assert LookOk(d, look);
    if d.lookNbits[look] != 0 {
      var p: nat :| Ahead(sz, look, p) && d.lookNbits[look] == sz[p] && d.lookSym[look] == d.pub.huffval[p];
      AheadIsSlot(sz, s, p);
      SlotDecodes(d, s, p);
    } else {
      NotAhead(d, s);
    }
  }

  lemma SlotDecodes(d: DTable, s: seq<bool>, p: nat)
    requires Derived(d) && InSlot(Szs(d.pub), Peek(s, 16), p)
    ensures SlowDecode(d, s) == Found(Szs(d.pub)[p], d.pub.huffval[p])
  {
    hide Pow2, Code, Peek, MaxcodeOk, LookOk, Sizes;
    var sz, r := Szs(d.pub), SlowLength(d, s, 1);
    PastNothing(d, s);
    SlowFinds(d, s, 1);
    LjMonotone(sz, p, |sz|);
    OneSlot(sz, Peek(s, 16), p, Peek(s, r) + d.valoffset[r]);
  }

  // ---- Codes as bit strings ----

  function CodeBits(sz: seq<nat>, p: nat): seq<bool>
    requires Ascending(sz) && p < |sz|
  {
    BitsOf(Code(sz, p), sz[p])
  }

  lemma CodeSmall(sz: seq<nat>, p: nat)
    requires Fits(sz) && p < |sz|
    ensures Code(sz, p) + 1 < Pow2(sz[p])
  {
    hide Pow2, Shr, Code;
    LjMonotone(sz, p, |sz|);
    CodeExact(sz, p);
    Pow2Add(sz[p], 16 - sz[p]);
    var c, k := Code(sz, p), Pow2(16 - sz[p]);
    Distribute(c, 1, 1, k);
    if Pow2(sz[p]) <= c + 1 { MulOrder(Pow2(sz[p]), c + 1, k); }
  }

  lemma CodeInSlot(sz: seq<nat>, p: nat, rest: seq<bool>)
    requires Fits(sz) && p < |sz|
    ensures InSlot(sz, Peek(CodeBits(sz, p) + rest, 16), p)
  {
    hide Pow2, Shr, Code, Peek, Lj;
    var s := CodeBits(sz, p) + rest;
    CodeSmall(sz, p);
    PeekBitsOf(Code(sz, p), sz[p], rest);
    PeekShr(s, sz[p], 16 - sz[p]);
    ShrQuotient(Peek(s, 16), 16 - sz[p]);
    CodeExact(sz, p);
  }

  /** What was encoded as code p is decoded as symbol p, and nothing after it is used up. */
  lemma SymbolRoundTrip(d: DTable, p: nat, rest: seq<bool>)
    requires Derived(d) && p < |Szs(d.pub)|
    ensures SlowDecode(d, CodeBits(Szs(d.pub), p) + rest) == Found(Szs(d.pub)[p], d.pub.huffval[p])
  {
    hide LookOk, MaxcodeOk;
    CodeInSlot(Szs(d.pub), p, rest);
    SlotDecodes(d, CodeBits(Szs(d.pub), p) + rest, p);
  }

  /** No code word is the beginning of another. */
  lemma PrefixFree(sz: seq<nat>, p: nat, q: nat)
    requires Fits(sz) && p < |sz| && q < |sz| && CodeBits(sz, p) <= CodeBits(sz, q)
    ensures p == q
  {
    hide Pow2, Shr, Code, Peek, Lj;
    var rest := CodeBits(sz, q)[sz[p]..];
    assert CodeBits(sz, p) + rest == CodeBits(sz, q) + [];
    CodeInSlot(sz, p, rest);
    CodeInSlot(sz, q, []);
    OneSlot(sz, Peek(CodeBits(sz, q) + [], 16), p, q);
  }

  /** No code word consists of ones only, so padding with ones never completes a code. */
  lemma NoOnes(sz: seq<nat>, p: nat)
    requires Fits(sz) && p < |sz|
    ensures CodeBits(sz, p) != seq(sz[p], _ => true)
  {
    hide Pow2, Shr, Code, Peek, Lj;
    CodeSmall(sz, p);
    PeekBitsOf(Code(sz, p), sz[p], []);
    PeekOnes(sz[p]);
    assert CodeBits(sz, p) + [] == CodeBits(sz, p);
  }

  lemma {:induction false} PeekOnes(n: nat)
    ensures Peek(seq(n, _ => true), n) == Pow2(n) - 1
  {
    if n > 0 {
      PeekOnes(n - 1);
      PeekAgree(seq(n, _ => true), seq(n - 1, _ => true), n - 1);
    }
  }
}
