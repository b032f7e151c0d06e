/** The two coders back to back, on the same decisions and through real bytes. */
module ArithRoundTrip {
  import opened Radix
  import opened ByteStream
  import opened ArithTable
  import opened ArithModel
  import opened ArithEncoder
  import opened ArithDecoder

  const START := Interval(0, 0x10000, 0)

  /** A whole segment: every decision in order, then the end of the pass. */
  method EncodeAll(tab: Aritab, stats: Stats, ds: seq<Decision>) returns (out: seq<byte>, last: Stats)
    requires Known(Coder(START, stats), ds)
    ensures last == Run(tab, Coder(START, stats), ds).stats
    ensures forall tail :: IsMarker(tail) ==> Terminated(out + tail)
    ensures forall tail :: IsMarker(tail) ==> Contains(DataOf(out + tail), Run(tab, Coder(START, stats), ds).i)
  {
    hide Stuff, DataOf, Terminated, IsMarker, Reaches, Contains;
    var e := new Encoder(tab, stats);
    ghost var first := Coder(START, stats);
    for k := 0 to |ds|
      invariant e.Valid() && e.tab == tab && fresh(e)
      invariant Known(first, ds[..k]) && e.View() == Run(tab, first, ds[..k])
    {
      assert ds[..k + 1] == ds[..k] + [ds[k]];
      RunAppend(tab, first, ds[..k], [ds[k]]);
      RunOne(tab, e.View(), ds[k]);
      e.Encode(ds[k].st, ds[k].bit);
    }
    assert ds[..|ds|] == ds;
    last := e.stats;
    e.Finish();
    out := e.out;
    forall tail | IsMarker(tail) ensures Terminated(out + tail) && DataOf(out + tail) == e.data {
      Unstuff(e.data, tail);
    }
  }

  /** Decode as many decisions as there are bins given. */
  method DecodeAll(tab: Aritab, stats: Stats, input: seq<byte>, sts: seq<Stat>)
      returns (ok: bool, bits: seq<bool>, last: Stats)
    requires forall st :: st in sts ==> st in stats
    ensures ok ==> bits == DecodeRun(tab, DataOf(input), Coder(START, stats), sts).0
    ensures ok ==> last == DecodeRun(tab, DataOf(input), Coder(START, stats), sts).1.stats
    ensures Terminated(input) ==> ok
  {
    var d := new Decoder(tab, stats, input);
    ghost var whole := DecodeRun(tab, d.data, d.View(), sts);
    bits := [];
    assert sts[0..] == sts && bits + whole.0 == whole.0;
    for k := 0 to |sts|
      invariant d.Valid() && d.tab == tab && d.data == DataOf(input) && fresh(d)
      invariant d.stats.Keys == stats.Keys && Contains(d.data, d.Cur())
      invariant Terminated(input) ==> d.Supplied()
      invariant forall st :: st in sts[k..] ==> st in stats
      invariant whole == Prepend(bits, DecodeRun(tab, d.data, d.View(), sts[k..]))
    {
      ghost var before := d.View();
      var bit;
      ok, bit := d.Decode(sts[k]);
      if !ok { return ok, bits, stats; }
      assert sts[k..][0] == sts[k] && sts[k..][1..] == sts[k + 1..];
      Decided(tab, d.data, before.i, before.stats[sts[k]], bit);
      RenormContains(d.data, Narrow(tab, before.i, before.stats[sts[k]], bit));
      Unroll(tab, d.data, before, sts[k..], bits);
      bits := bits + [bit];
    }
    ok, last := true, d.stats;
  }

  function Prepend(bits: seq<bool>, r: (seq<bool>, Coder)): (seq<bool>, Coder) { (bits + r.0, r.1) }

  lemma Unroll(tab: Aritab, data: seq<byte>, c: Coder, sts: seq<Stat>, bits: seq<bool>)
    requires Ready(c) && sts != [] && forall st :: st in sts ==> st in c.stats
    ensures var bit := Decide(tab, data, c.i, c.stats[sts[0]]);
      Prepend(bits, DecodeRun(tab, data, c, sts))
        == Prepend(bits + [bit], DecodeRun(tab, data, Step(tab, c, Decision(sts[0], bit)), sts[1..]))
  {
    var bit := Decide(tab, data, c.i, c.stats[sts[0]]);
    var r := DecodeRun(tab, data, Step(tab, c, Decision(sts[0], bit)), sts[1..]);
    assert bits + ([bit] + r.0) == bits + [bit] + r.0;
  }

  lemma Decided(tab: Aritab, data: seq<byte>, i: Interval, b: Bin, bit: bool)
    requires Normal(i) && Contains(data, i) && Contains(data, Narrow(tab, i, b, bit))
    ensures bit == Decide(tab, data, i, b)
  {
    NarrowContains(tab, data, i, b, bit);
  }

  /** The round trip: the decoder, given the bytes written and any marker after them, returns
      every bit that was coded and leaves every bin as the encoder left it. */
  method RoundTrip(tab: Aritab, stats: Stats, ds: seq<Decision>, tail: seq<byte>)
      returns (ok: bool, bits: seq<bool>, encoded: Stats, decoded: Stats)
    requires Known(Coder(START, stats), ds) && IsMarker(tail)
    ensures ok && bits == Bits(ds) && decoded == encoded
  {
    var out;
    out, encoded := EncodeAll(tab, stats, ds);
    StsKnown(Coder(START, stats), ds);
    var sts := Sts(ds);
    ok, bits, decoded := DecodeAll(tab, stats, out + tail, sts);
    DecodingRecovers(tab, DataOf(out + tail), Coder(START, stats), ds);
  }
}
