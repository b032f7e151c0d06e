/** jpeg_gen_optimal_table: from the counts of the symbols to a Huffman table for them. */
module OptimalTable {
  import opened Radix
  import opened HuffCode
  import opened HuffDecode
  import opened HuffTokens
  import opened HuffmanSums
  import opened HuffmanTree
  import opened CodeSpace
  import opened LengthLimit
  import opened LimitedCode
  import opened LongestCode
  import opened PseudoSymbol
  import opened SymbolList

  /** The list has as many symbols as there are used ones. */
  lemma {:induction false} ListLength(freq: seq<nat>, n: nat)
    requires n <= |freq|
    ensures |UsedSymbols(freq, n)| == UsedBelow(Used(freq), n)
  {
    if n > 0 { ListLength(freq, n - 1); }
  }

  /** The codes leave room for just one more code of this length. */
  predicate LeavesOne(sz: seq<nat>, longest: nat) {
    Ascending(sz) && 1 <= longest <= 16 && Lj(sz, |sz|) + Pow2(16 - longest) == Pow2(16)
  }

  /** A table with the codes of exactly the used symbols, the more frequent first; its code space
      is full but for one code of the greatest length. */
  ghost predicate Tailored(t: Table, freq: seq<nat>) {
    && |freq| == SYMBOLS && Good(t)
    && (forall s: byte :: HasCode(t, s) <==> freq[s] != 0)
    && Sorted(freq, t.huffval[..|Szs(t)|])
    && exists longest :: LeavesOne(Szs(t), longest)
  }

  /** All counts but one of the greatest length. */
  predicate WithoutLast(bits: seq<byte>, wide: seq<nat>, longest: nat) {
    && |bits| == 17 && |wide| == MAX_CLEN + 1 && 1 <= longest <= 16 && wide[longest] > 0
    && (forall k :: longest < k <= 16 ==> wide[k] == 0)
    && forall k :: 0 <= k <= 16 ==> bits[k] == if k == longest then wide[k] - 1 else wide[k]
  }

  ghost predicate LimitedFrom(bits: seq<byte>, was: seq<nat>, wide: seq<nat>, longest: nat, freq: seq<nat>)
    requires |freq| == SYMBOLS
  {
    && Histogram(was, CodeLengths(freq), SYMBOLS) && Full(was, UsedBelow(Used(freq), SYMBOLS))
    && Short(wide, UsedBelow(Used(freq), SYMBOLS)) && Limited(was, wide)
    && WithoutLast(bits, wide, longest)
  }

  /** The code lengths are those of the merging, limited to 16 bits where that is needed, and
      without one code of the greatest length. */
  ghost predicate LengthsFrom(t: Table, freq: seq<nat>)
    requires |freq| == SYMBOLS
  {
    exists was, wide, longest :: LimitedFrom(t.bits, was, wide, longest, freq)
  }

  lemma SameLengths(t: Table, u: Table, freq: seq<nat>)
    requires |freq| == SYMBOLS && LengthsFrom(t, freq) && LengthsFrom(u, freq)
    ensures t.bits == u.bits
  {
    hide Full, Short, Limited, CodeLengths, Used, UsedBelow;
    var was1, wide1, longest1 :| LimitedFrom(t.bits, was1, wide1, longest1, freq);
    var was2, wide2, longest2 :| LimitedFrom(u.bits, was2, wide2, longest2, freq);
    assert was1 == was2;
    OnlyOne(was1, wide1, wide2, UsedBelow(Used(freq), SYMBOLS));
  }

  /** The counts leave no choice: there is one such table. */
  lemma OnlyTable(t: Table, u: Table, freq: seq<nat>)
    requires Tailored(t, freq) && LengthsFrom(t, freq) && Tailored(u, freq) && LengthsFrom(u, freq)
    ensures t.bits == u.bits && t.huffval[..|Szs(t)|] == u.huffval[..|Szs(u)|]
  {
    hide LengthsFrom;
    SameLengths(t, u, freq);
    CodedSymbols(t);
    CodedSymbols(u);
    hide LeavesOne, Good, HasCode, Sorted;
    SameOrder(freq, t.huffval[..|Szs(t)|], u.huffval[..|Szs(u)|]);
  }

  // ---- Codes that need no limiting ----

  lemma {:induction false} NoneAbove(cs: seq<nat>, k: nat, n: nat)
    requires n <= |cs| && forall s :: 0 <= s < n ==> cs[s] < k
    ensures CountOf(cs, k, n) == 0
  {
    if n > 0 { NoneAbove(cs, k, n - 1); }
  }

  lemma WithLast(cs: seq<nat>, k: nat)
    requires |cs| == SYMBOLS
    ensures CountOf(cs, k, SYMBOLS) == CountOf(cs, k, 256) + if cs[256] == k then 1 else 0
  {
  }

  /** If the longest code has at most 16 bits, the table has a code of n bits for every real symbol
      to which the merging gives n bits: what is dropped is the code of symbol 256. */
  lemma RealLengths(t: Table, freq: seq<nat>, k: nat)
    requires |freq| == SYMBOLS && freq[256] == 1 && LengthsFrom(t, freq) && CodeLengths(freq)[256] <= 16 && 1 <= k <= 16
    ensures t.bits[k] == CountOf(CodeLengths(freq), k, 256)
  {
    hide Full, Limited, CodeLengths, Used, UsedBelow, CountOf;
    var was, wide, longest :| LimitedFrom(t.bits, was, wide, longest, freq);
    var cs, n := CodeLengths(freq), UsedBelow(Used(freq), SYMBOLS);
    forall s | 0 <= s < SYMBOLS ensures cs[s] <= cs[256] { LongestIsPseudo(freq, s); }
    forall l | cs[256] < l <= MAX_CLEN ensures was[l] == 0 { NoneAbove(cs, l, SYMBOLS); }
    NotYet(was);
    OnlyOne(was, wide, was, n);
    WithLast(cs, cs[256]);
    WithLast(cs, k);
    WithLast(cs, longest);
  }

  lemma CodedSymbols(t: Table)
    requires Good(t)
    ensures forall s: nat :: s in t.huffval[..|Szs(t)|] <==> s < 256 && HasCode(t, s)
  {
  }

  /** From counts to a table.  It is an error exactly if a symbol would get a code of more than 32
      bits, which takes a total count of more than nine million; no other error can occur, and the
      table is accepted by jpeg_make_c_derived_tbl. */
  method GenOptimalTable(freq: array<nat>) returns (ok: bool, t: Table)
    requires freq.Length == SYMBOLS && 1 <= UsedBelow(Used(freq[..]), 256) <= 254 && Sum(freq[..], 256) < 1000000000
    modifies freq
    ensures ok == ShortCodes(old(freq[..])[256 := 1])
    ensures Sum(old(freq[..]), 256) < 9227464 ==> ok
    ensures ok ==> Tailored(t, old(freq[..])[256 := 1]) && LengthsFrom(t, old(freq[..])[256 := 1])
  {
    hide Pow2, Sum, Used, UsedBelow, Fib, CodeOk, Full, Sorted, UsedSymbols, Lj, Sizes, Tailored, CodeLengths, ShortCodes, Histogram, Limited,
      LengthsFrom;
    ghost var f0 := freq[..];
    freq[256] := 1;  // keeps the code of all ones free
    ghost var f := freq[..];
    assert f == f0[256 := 1];
    SamePrefix(f0, f, 256);
    WithPseudo(f);
    ListLength(f, 256);
    var others, huffval := new int[257](_ => -1), new byte[256](_ => 0);
    var p := SortList(freq, others, huffval);
    assert freq[..] == f;
    var bits;
    ok, bits := CountCodes(freq);
    if Sum(f, SYMBOLS) < 9227465 { FewAreShort(f); }
    t := HuffTbl(seq(17, _ => 0), seq(256, _ => 0));
    if !ok { return; }
    ghost var n := UsedBelow(Used(f), SYMBOLS);
    FullSize(bits[..], n);
    ghost var was := bits[..];
    ok := LimitLengths(bits, n);
    FullSize(bits[..], n);
    ghost var full := bits[..];
    CountsSmall(full, n);
    ghost var longest := DropPseudo(bits, n);
    var short := FirstSeventeen(bits);
    t := HuffTbl(short, huffval[..]);
    FinalTable(full, n, longest, t.bits);
    Summary(t, f, longest, p);
    LengthsAre(t, was, full, longest, f);
  }

  /** Merging and counting: how many codes there are of each length, unless one is too long. */
  method CountCodes(freq: array<nat>) returns (ok: bool, bits: array<nat>)
    requires freq.Length == SYMBOLS && Sum(freq[..], SYMBOLS) <= 1000000000 && UsedBelow(Used(freq[..]), SYMBOLS) >= 2
    modifies freq
    ensures ok == ShortCodes(old(freq[..]))
    ensures fresh(bits)
    ensures ok ==> Full(bits[..], UsedBelow(Used(old(freq[..])), SYMBOLS)) && Histogram(bits[..], CodeLengths(old(freq[..])), SYMBOLS)
  {
    hide Sum, Used, UsedBelow, CodeOk, CodeLengths, Full;
    ghost var f := freq[..];
    var codesize, others := new nat[257](_ => 0), new int[257](_ => -1);
    CodeSizes(freq, codesize, others);
    ghost var cs := codesize[..];
    ok, bits := CountLengths(codesize, Used(f), Sum(f, SYMBOLS));
    assert forall s :: 0 <= s < SYMBOLS ==> CodeLengths(f)[s] == cs[s] == codesize[s];
  }

  /** The counts that a table has room for. */
  method FirstSeventeen(bits: array<nat>) returns (short: seq<byte>)
    requires bits.Length == 33 && forall k :: 0 <= k <= 16 ==> bits[k] <= 255
    ensures |short| == 17 && forall k :: 0 <= k <= 16 ==> short[k] == bits[k]
  {
    short := [];
    for k := 0 to 17
      invariant |short| == k && forall i :: 0 <= i < k ==> short[i] == bits[i]
    {
      short := short + [bits[k]];
    }
  }

  lemma LengthsAre(t: Table, was: seq<nat>, wide: seq<nat>, longest: nat, freq: seq<nat>)
    requires |freq| == SYMBOLS && LimitedFrom(t.bits, was, wide, longest, freq)
    ensures LengthsFrom(t, freq)
  {
  }

  lemma Summary(t: Table, freq: seq<nat>, longest: nat, p: nat)
    requires |freq| == SYMBOLS && p <= 256 && 1 <= longest <= 16
    requires Ascending(Szs(t)) && |Szs(t)| == p && Fits(Szs(t)) && Lj(Szs(t), p) + Pow2(16 - longest) == Pow2(16)
    requires Sorted(freq, t.huffval[..p]) && forall s: byte :: s in t.huffval[..p] <==> freq[s] != 0
    ensures Tailored(t, freq)
  {
    hide Pow2, Sizes, Lj;
    assert LeavesOne(Szs(t), longest);
    forall i, j | 0 <= i < j < p ensures t.huffval[i] != t.huffval[j] {
      assert Precedes(freq, t.huffval[..p][i], t.huffval[..p][j]);
    }
  }
}
