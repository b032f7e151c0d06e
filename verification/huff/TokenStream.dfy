/** Taking a bit stream that was made of tokens apart again. */
module TokenStream {
  import opened Radix
  import opened Bits
  import HuffCode
  import opened HuffDecode
  import opened HuffReader
  import opened HuffTokens
  import opened EobRuns

  /** From position n the stream consists of these tokens, and of the bits tail after them. */
  ghost predicate On(s: seq<bool>, n: nat, tabs: seq<HuffCode.Table>, xs: seq<Token>, tail: seq<bool>) {
    n <= |s| && AllSendable(tabs, xs) && s[n..] == StreamBits(tabs, xs) + tail
  }

  lemma OnSymbol(d: DTable, s: seq<bool>, n: nat, tabs: seq<HuffCode.Table>, tab: nat, want: byte, rest: seq<Token>, tail: seq<bool>)
    requires tab < |tabs| && Derived(d) && d.pub == tabs[tab]
    requires On(s, n, tabs, [Sym(tab, want)] + rest, tail)
    ensures var (sym, m) := SymbolAt(d, s, n); sym == want && On(s, m, tabs, rest, tail)
  {
    hide Derived, StreamBits, Good, SlowDecode, CodeBits, Sendable;
    SymAhead(d, tabs, tab, want, rest, tail);
    SymConsumed(tabs[tab], want, StreamBits(tabs, rest) + tail);
    var k := |SymBits(tabs[tab], want)|;
    assert s[n..][k..] == s[n + k..];
  }

  lemma OnRaws(s: seq<bool>, n: nat, tabs: seq<HuffCode.Table>, bits: seq<bool>, rest: seq<Token>, tail: seq<bool>)
    requires On(s, n, tabs, Raws(bits) + rest, tail)
    ensures n + |bits| <= |s| && s[n..n + |bits|] == bits && On(s, n + |bits|, tabs, rest, tail)
  {
    hide StreamBits, Sendable;
    var more := BitsAhead(tabs, bits, rest, tail);
    assert s[n..] == bits + more;
    assert s[n..n + |bits|] == s[n..][..|bits|];
    assert s[n + |bits|..] == s[n..][|bits|..];
  }

  lemma OnBit(s: seq<bool>, n: nat, tabs: seq<HuffCode.Table>, b: bool, rest: seq<Token>, tail: seq<bool>)
    requires On(s, n, tabs, [Raw(b)] + rest, tail)
    ensures BitAt(s, n) == b && On(s, n + 1, tabs, rest, tail)
  {
    assert Raws([b]) == [Raw(b)];
    OnRaws(s, n, tabs, [b], rest, tail);
    assert s[n] == s[n..n + 1][0];
  }

  lemma OnNumber(s: seq<bool>, n: nat, tabs: seq<HuffCode.Table>, v: nat, k: nat, rest: seq<Token>, tail: seq<bool>)
    requires v < Pow2(k) && On(s, n, tabs, Raws(BitsOf(v, k)) + rest, tail)
    ensures NumberAt(s, n, k) == v && On(s, n + k, tabs, rest, tail)
  {
    hide BitsOf, Pow2, StreamBits, Sendable, Peek;
    OnRaws(s, n, tabs, BitsOf(v, k), rest, tail);
    PeekBitsOf(v, k, s[n + k..]);
    assert s[n..] == BitsOf(v, k) + s[n + k..];
  }

  lemma OnEob(d: DTable, s: seq<bool>, n: nat, tabs: seq<HuffCode.Table>, tab: nat, run: nat, rest: seq<Token>, tail: seq<bool>)
    requires tab < |tabs| && Derived(d) && d.pub == tabs[tab] && 0 < run <= 0x7FFF
    requires On(s, n, tabs, EobTokens(tab, run) + rest, tail)
    ensures var (sym, m) := SymbolAt(d, s, n);
      && sym % 16 == 0 && sym / 16 <= 14 && Pow2(sym / 16) + NumberAt(s, m, sym / 16) == run
      && On(s, m + sym / 16, tabs, rest, tail)
  {
    hide BitsOf, Pow2, Derived, Log2, On;
    RunLog(run);
    var l := Log2(run);
    var q := DivMod(run, Pow2(l));
    Squeeze(run, Pow2(l), q, 1);
    var low := Raws(BitsOf(run % Pow2(l), l));
    assert EobTokens(tab, run) + rest == [Sym(tab, l * 16)] + (low + rest);
    OnSymbol(d, s, n, tabs, tab, l * 16, low + rest, tail);
    OnNumber(s, SymbolAt(d, s, n).1, tabs, run % Pow2(l), l, rest, tail);
  }
}
