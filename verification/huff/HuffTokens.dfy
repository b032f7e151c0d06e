/** What a Huffman entropy coder says: symbols, each from one of the tables of the scan, and
    raw bits in between.  The encoder's sink either writes them out as bits or, when
    gathering statistics, counts the symbols; the decoder reads them back one by one. */
module HuffTokens {
  import opened Radix
  import opened Bits
  import opened HuffCode
  import opened HuffDecode
  import opened HuffTables
  import opened HuffReader
  import opened BitIo

  datatype Token = Sym(tab: nat, s: byte) | Raw(b: bool)

  /** The low n bits of v as raw tokens. */
  function Raws(bits: seq<bool>): (t: seq<Token>)
    ensures |t| == |bits|
  {
    seq(|bits|, i requires 0 <= i < |bits| => Raw(bits[i]))
  }

  lemma Assoc(x: seq<Token>, y: seq<Token>, z: seq<Token>)
    ensures (x + y) + z == x + (y + z)
  {
  }

  lemma EmptySides(x: seq<Token>)
    ensures [] + x == x && x + [] == x
  {
  }

  predicate Good(t: Table) {
    Ascending(Szs(t)) && Fits(Szs(t)) && SymbolsOk(t, |Szs(t)|, 255)
  }

  predicate HasCode(t: Table, s: byte)
    requires Good(t)
  {
    s in t.huffval[..|Szs(t)|]
  }

  ghost function Position(t: Table, s: byte): (p: nat)
    requires Good(t) && HasCode(t, s)
    ensures p < |Szs(t)| && t.huffval[p] == s
  {
    var p: nat :| p < |Szs(t)| && t.huffval[..|Szs(t)|][p] == s;
    p
  }

  /** The code word of a symbol. */
  ghost function SymBits(t: Table, s: byte): seq<bool>
    requires Good(t) && HasCode(t, s)
  {
    CodeBits(Szs(t), Position(t, s))
  }

  predicate Sendable(tabs: seq<Table>, x: Token) {
    x.Sym? ==> x.tab < |tabs| && Good(tabs[x.tab]) && HasCode(tabs[x.tab], x.s)
  }

  predicate AllSendable(tabs: seq<Table>, xs: seq<Token>) {
    forall x :: x in xs ==> Sendable(tabs, x)
  }

  ghost function TokenBits(tabs: seq<Table>, x: Token): seq<bool>
    requires Sendable(tabs, x)
  {
    match x
    case Sym(tab, s) => SymBits(tabs[tab], s)
    case Raw(b) => [b]
  }

  /** The bit stream that stands for a sequence of tokens. */
  ghost function StreamBits(tabs: seq<Table>, xs: seq<Token>): seq<bool>
    requires AllSendable(tabs, xs)
  {
    if xs == [] then [] else TokenBits(tabs, xs[0]) + StreamBits(tabs, xs[1..])
  }

  lemma {:induction false} StreamAppend(tabs: seq<Table>, xs: seq<Token>, ys: seq<Token>)
    requires AllSendable(tabs, xs + ys)
    ensures AllSendable(tabs, xs) && AllSendable(tabs, ys)
    ensures StreamBits(tabs, xs + ys) == StreamBits(tabs, xs) + StreamBits(tabs, ys)
    decreases xs
  {
    hide Sendable, TokenBits;
    assert forall x :: x in xs ==> x in xs + ys;
    assert forall y :: y in ys ==> y in xs + ys;
    if xs == [] {
      assert xs + ys == ys;
    } else {
      assert (xs + ys)[1..] == xs[1..] + ys;
      assert forall x :: x in xs[1..] + ys ==> x in xs + ys;
      StreamAppend(tabs, xs[1..], ys);
    }
  }

  lemma {:induction false} StreamRaws(tabs: seq<Table>, bits: seq<bool>)
    ensures AllSendable(tabs, Raws(bits)) && StreamBits(tabs, Raws(bits)) == bits
  {
    if bits != [] {
      StreamRaws(tabs, bits[1..]);
      assert Raws(bits)[1..] == Raws(bits[1..]);
    }
  }

  function Count(xs: seq<Token>, tab: nat, s: byte): nat {
    if xs == [] then 0
    else Count(xs[..|xs| - 1], tab, s) + (if xs[|xs| - 1] == Sym(tab, s) then 1 else 0)
  }

  /** A symbol that is counted somewhere is a symbol of the sequence, and the other way round. */
  lemma {:induction false} CountedIsSent(xs: seq<Token>, tab: nat, s: byte)
    ensures Count(xs, tab, s) > 0 <==> Sym(tab, s) in xs
  {
    if xs != [] {
      CountedIsSent(xs[..|xs| - 1], tab, s);
      assert xs == xs[..|xs| - 1] + [xs[|xs| - 1]];
    }
  }

  /** The output side of the entropy encoder.  The same routines run over the data twice: once
      gathering statistics, where symbols are counted, and once for output. */
  class Sink {
    const gather: bool
    const w: BitWriter
    const ctabs: seq<CTable>       // derived tables, for output
    var counts: seq<seq<nat>>      // symbol counts by table, when gathering
    ghost const tabs: seq<Table>
    ghost var sent: seq<Token>     // everything sent so far

    ghost predicate Counted()
      reads this
    {
      && |counts| == |tabs|
      && (forall t :: 0 <= t < |tabs| ==> |counts[t]| == 257)
      && (forall t, s: byte :: 0 <= t < |tabs| ==> counts[t][s] == Count(sent, t, s))
      && (forall x :: x in sent && x.Sym? ==> x.tab < |tabs|)
    }

    ghost predicate Written()
      reads this, w
    {
      && w.Valid() && |ctabs| == |tabs|
      && (forall t :: 0 <= t < |tabs| ==> Good(tabs[t]) && Encodes(ctabs[t], tabs[t], |Szs(tabs[t])|))
      && AllSendable(tabs, sent) && w.Written() == StreamBits(tabs, sent)
    }

    ghost predicate Valid()
      reads this, w
    {
      if gather then Counted() else Written()
    }

    /** Sending these tokens meets no symbol without a code. */
    ghost predicate Can(xs: seq<Token>) {
      gather || AllSendable(tabs, xs)
    }

    /** Start counting for n tables. */
    constructor Gather(ghost tabs: seq<Table>, n: nat)
      requires n == |tabs|
      ensures Valid() && gather && sent == [] && this.tabs == tabs && fresh(w)
    {
      gather := true;
      w := new BitWriter();
      ctabs := [];
      counts := seq(n, _ => seq(257, _ => 0));
      this.tabs := tabs;
      sent := [];
    }

    /** Start output with derived tables. */
    constructor Output(ghost tabs: seq<Table>, ctabs: seq<CTable>)
      requires |ctabs| == |tabs|
      requires forall t :: 0 <= t < |tabs| ==> Good(tabs[t]) && Encodes(ctabs[t], tabs[t], |Szs(tabs[t])|)
      ensures Valid() && !gather && sent == [] && this.tabs == tabs && fresh(w)
    {
      gather := false;
      w := new BitWriter();
      this.ctabs := ctabs;
      counts := [];
      this.tabs := tabs;
      sent := [];
    }

    /** Count or emit a symbol; emitting one that has no code is an error. */
    method EmitSymbol(tab: nat, s: byte) returns (ok: bool)
      requires Valid() && tab < |tabs|
      modifies this, w
      ensures ok == Can([Sym(tab, s)])
      ensures ok ==> Valid() && sent == old(sent) + [Sym(tab, s)]
    {
      hide StreamBits, Encodes, Szs, SymbolsOk, Fits, Ascending, BitsOf, Pow2, BitWriter.Written, BitWriter.Valid;
      ghost var before := sent;
      ok := true;
      if gather {
        counts := counts[tab := counts[tab][s := counts[tab][s] + 1]];
        sent := sent + [Sym(tab, s)];
        assert sent[..|sent| - 1] == before;
      } else {
        HasLength(ctabs[tab], tabs[tab], s);
        OneSendable(tabs, Sym(tab, s));
        ok := w.EmitBits(ctabs[tab].ehufco[s], ctabs[tab].ehufsi[s]);
        if !ok { return; }
        OneToken(tabs, sent, Sym(tab, s));
        sent := sent + [Sym(tab, s)];
      }
    }

    /** Emit the low n bits of v, or nothing at all when gathering. */
    method EmitBits(v: int, n: nat) returns (ok: bool)
      requires Valid() && n <= 16
      modifies this, w
      ensures ok == (n != 0)
      ensures ok ==> Valid() && sent == old(sent) + Raws(BitsOf(v % Pow2(n), n))
    {
      if n == 0 { return false; }
      ok := true;
      ghost var bits := BitsOf(v % Pow2(n), n);
      if gather {
        CountRaws(sent, bits);
      } else {
        ok := w.EmitBits(v, n);
        RawTokens(tabs, sent, bits);
      }
      sent := sent + Raws(bits);
    }
  }

  /** The derived table knows the code of a symbol, and whether there is one. */
  lemma HasLength(c: CTable, t: Table, s: byte)
    requires Good(t) && Encodes(c, t, |Szs(t)|)
    ensures |c.ehufco| == |c.ehufsi| == 256
    ensures c.ehufsi[s] != 0 <==> HasCode(t, s)
    ensures c.ehufsi[s] <= 16
    ensures HasCode(t, s) ==> BitsOf(c.ehufco[s] % Pow2(c.ehufsi[s]), c.ehufsi[s]) == SymBits(t, s)
  {
    hide Pow2, BitsOf, Code, Lj, Sizes;
    if HasCode(t, s) {
      var p := Position(t, s);
      CodeSmall(Szs(t), p);
      LowBits(c.ehufco[s], c.ehufsi[s]);
    }
  }

  lemma OneSendable(tabs: seq<Table>, x: Token)
    ensures AllSendable(tabs, [x]) <==> Sendable(tabs, x)
  {
    assert x in [x];
  }

  lemma OneToken(tabs: seq<Table>, xs: seq<Token>, x: Token)
    requires AllSendable(tabs, xs) && Sendable(tabs, x)
    ensures AllSendable(tabs, xs + [x]) && StreamBits(tabs, xs + [x]) == StreamBits(tabs, xs) + TokenBits(tabs, x)
  {
    hide Sendable, TokenBits;
    StreamAppend(tabs, xs, [x]);
    assert [x][1..] == [];
  }

  lemma RawTokens(tabs: seq<Table>, xs: seq<Token>, bits: seq<bool>)
    requires AllSendable(tabs, xs)
    ensures AllSendable(tabs, xs + Raws(bits)) && StreamBits(tabs, xs + Raws(bits)) == StreamBits(tabs, xs) + bits
  {
    hide Sendable, TokenBits;
    StreamRaws(tabs, bits);
    StreamAppend(tabs, xs, Raws(bits));
  }

  lemma {:induction false} CountRaws(xs: seq<Token>, bits: seq<bool>)
    ensures forall tab, s: byte :: Count(xs + Raws(bits), tab, s) == Count(xs, tab, s)
    decreases bits
  {
    if bits == [] {
      assert xs + Raws(bits) == xs;
    } else {
      var n := |bits| - 1;
      CountRaws(xs, bits[..n]);
      var ys := xs + Raws(bits);
      assert ys[..|ys| - 1] == xs + Raws(bits[..n]);
    }
  }

  // ---- Reading tokens back ----

  /** The decoding tables that belong to the tables of the scan. */
  ghost predicate Matching(ds: seq<DTable>, tabs: seq<Table>) {
    |ds| == |tabs| && forall t :: 0 <= t < |tabs| ==> Good(tabs[t]) && Derived(ds[t]) && ds[t].pub == tabs[t]
  }

  /** DC tables name size categories only. */
  predicate Categories(t: Table) {
    |Szs(t)| <= 256 && forall p :: 0 <= p < |Szs(t)| ==> t.huffval[p] <= 15
  }

  lemma CategoryFound(d: DTable, bits: seq<bool>)
    requires Derived(d) && Categories(d.pub)
    ensures SlowDecode(d, bits).Found? ==> SlowDecode(d, bits).sym <= 15
  {
    hide LookOk, MaxcodeOk, Peek, Pow2, Lj, Sizes, InSlot;
    PastNothing(d, bits);
    SlowFinds(d, bits, 1);
  }

  /** The input goes on with these tokens, and with the bits tail after them. */
  ghost predicate Follows(r: BitReader, tabs: seq<Table>, xs: seq<Token>, tail: seq<bool>)
    reads r
  {
    r.Valid() && !r.insufficientData && AllSendable(tabs, xs) && r.Bits() == StreamBits(tabs, xs) + tail
  }

  /** Decode a symbol; if the input goes on with one, that is the symbol. */
  method NextSym(r: BitReader, ds: seq<DTable>, tab: nat, ghost tabs: seq<Table>,
                 ghost want: byte, ghost rest: seq<Token>, ghost tail: seq<bool>)
      returns (ok: bool, s: byte)
    requires r.Valid() && Matching(ds, tabs) && tab < |ds|
    modifies r
    ensures r.Valid() && (!ok ==> r.unreadMarker == 0)
    ensures old(r.Supplied()) ==> ok && r.Supplied()
    ensures ok && old(Follows(r, tabs, [Sym(tab, want)] + rest, tail)) ==> s == want && Follows(r, tabs, rest, tail)
    ensures ok && Categories(tabs[tab]) ==> s <= 15
  {
    hide Derived, StreamBits, Good, BitReader.Valid, BitReader.Bits, BitReader.Supplied;
    ghost var expected := Follows(r, tabs, [Sym(tab, want)] + rest, tail);
    ghost var bits := r.Bits();
    if expected { SymAhead(ds[tab], tabs, tab, want, rest, tail); }
    if Categories(tabs[tab]) { CategoryFound(ds[tab], bits); }
    ok, s := Decode(r, ds[tab]);
    if ok && expected {
      SymConsumed(tabs[tab], want, StreamBits(tabs, rest) + tail);
    }
  }

  lemma SymAhead(d: DTable, tabs: seq<Table>, tab: nat, want: byte, rest: seq<Token>, tail: seq<bool>)
    requires tab < |tabs| && Derived(d) && d.pub == tabs[tab] && AllSendable(tabs, [Sym(tab, want)] + rest)
    ensures Good(tabs[tab]) && HasCode(tabs[tab], want) && AllSendable(tabs, rest)
    ensures StreamBits(tabs, [Sym(tab, want)] + rest) + tail == SymBits(tabs[tab], want) + (StreamBits(tabs, rest) + tail)
    ensures SlowDecode(d, StreamBits(tabs, [Sym(tab, want)] + rest) + tail) == Found(|SymBits(tabs[tab], want)|, want)
  {
    hide Derived, Good, SlowDecode, CodeBits, Szs, HasCode;
    var xs := [Sym(tab, want)] + rest;
    assert Sendable(tabs, xs[0]);
    assert xs[1..] == rest;
    assert forall x :: x in rest ==> x in xs;
    var more := StreamBits(tabs, rest) + tail;
    assert StreamBits(tabs, xs) + tail == SymBits(tabs[tab], want) + more;
    SymFound(d, want, more);
  }

  lemma SymFound(d: DTable, want: byte, more: seq<bool>)
    requires Derived(d) && Good(d.pub) && HasCode(d.pub, want)
    ensures SlowDecode(d, SymBits(d.pub, want) + more) == Found(|SymBits(d.pub, want)|, want)
  {
    hide Derived, SlowDecode, Code, Sizes;
    SymbolRoundTrip(d, Position(d.pub, want), more);
  }

  lemma SymConsumed(t: Table, want: byte, more: seq<bool>)
    requires Good(t) && HasCode(t, want)
    ensures var s := SymBits(t, want) + more;
      |SymBits(t, want)| <= |s| && s[|SymBits(t, want)|..] == more
  {
  }

  /** Fetch n raw bits as a number. */
  method NextBits(r: BitReader, n: nat, ghost tabs: seq<Table>,
                  ghost want: nat, ghost rest: seq<Token>, ghost tail: seq<bool>)
      returns (ok: bool, v: nat)
    requires r.Valid() && n <= 15
    modifies r
    ensures r.Valid() && (!ok ==> r.unreadMarker == 0)
    ensures old(r.Supplied()) ==> ok && r.Supplied()
    ensures ok ==> v < Pow2(n)
    ensures ok && want < Pow2(n) && old(Follows(r, tabs, Raws(BitsOf(want, n)) + rest, tail)) ==>
      v == want && Follows(r, tabs, rest, tail)
  {
    hide StreamBits, Sendable, BitReader.Valid, BitReader.Bits, BitReader.Supplied, Pow2, BitsOf, Peek;
    ghost var expected := want < Pow2(n) && Follows(r, tabs, Raws(BitsOf(want, n)) + rest, tail);
    ghost var more := if expected then BitsAhead(tabs, BitsOf(want, n), rest, tail) else [];
    PeekBound(r.Bits(), n);
    if expected { PeekBitsOf(want, n, more); }
    ok, v := r.GetBits(n);
  }

  ghost function BitsAhead(tabs: seq<Table>, bits: seq<bool>, rest: seq<Token>, tail: seq<bool>): (more: seq<bool>)
    requires AllSendable(tabs, Raws(bits) + rest)
    ensures AllSendable(tabs, rest) && more == StreamBits(tabs, rest) + tail
    ensures StreamBits(tabs, Raws(bits) + rest) + tail == bits + more
    ensures (bits + more)[|bits|..] == more
  {
    StreamAppend(tabs, Raws(bits), rest);
    StreamRaws(tabs, bits);
    StreamBits(tabs, rest) + tail
  }
}
