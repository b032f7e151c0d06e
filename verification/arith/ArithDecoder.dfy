/** The arithmetic decoder of jdarith.c.  Its C register holds the offset of the code value
    from the interval base, with ct extra bits of lookahead below a floating cut-point. */
module ArithDecoder {
  import opened Radix
  import opened ByteStream
  import opened ArithTable
  import opened ArithModel

  class Decoder {
    const tab: Aritab
    var c: int             // offset of the code value from the interval base, with ct more bits
    var a: int             // size of the coding interval, renormalized before the next decision
    var ct: int            // how many bits c still holds below its base; -16 before the first decision
    var unreadMarker: int  // the marker that ended the data, or 0
    var input: seq<byte>   // what the data source still has to give
    var stats: Stats
    ghost const data: seq<byte>  // the data bytes of the whole segment
    ghost var taken: nat         // digits moved into C so far
    ghost var low: Interval      // the interval before renormalization

    /** What is still to come from the source is the rest of the data, or zeros for ever. */
    ghost predicate Stream()
      reads `unreadMarker, `input, `taken
    {
      if unreadMarker == 0 then taken <= |data| && DataOf(input) == data[taken..]
      else |data| <= taken
    }

    ghost predicate Priming()
      reads `c, `a, `ct, `taken, `low
    {
      && a == 0 && low == Interval(0, 0x10000, 0)
      && c == Prefix(data, taken)
      && ((ct == -16 && taken == 0) || (ct == -8 && taken == 1))
    }

    ghost predicate Running()
      reads `c, `a, `ct, `taken, `low
    {
      && 0 <= ct <= 7 && a == low.a && 0 < a <= 0x10000
      && 8 * taken == 16 + low.n + ct
      && c == Prefix(data, taken) - low.base * Pow2(ct)
      && 0 <= c < a * Pow2(ct)
    }

    ghost predicate Valid()
      reads `unreadMarker, `input, `c, `a, `ct, `taken, `low
    {
      Stream() && (Priming() || Running())
    }

    /** The source meets a marker before it runs out, so that it never has to suspend. */
    ghost predicate Supplied()
      reads `unreadMarker, `input
    {
      unreadMarker != 0 || Terminated(input)
    }

    ghost function Cur(): Interval
      reads `unreadMarker, `input, `c, `a, `ct, `taken, `low
      requires Valid()
    {
      Renorm(low)
    }

    ghost function View(): Coder
      reads this
      requires Valid()
    {
      Coder(Cur(), stats)
    }

    constructor (tab: Aritab, stats: Stats, input: seq<byte>)
      ensures Valid() && this.tab == tab && data == DataOf(input)
      ensures View() == Coder(Interval(0, 0x10000, 0), stats)
      ensures Terminated(input) ==> Supplied()
      ensures Contains(data, Cur())
    {
      this.tab := tab;
      this.stats := stats;
      this.input := input;
      data := DataOf(input);
      c, a, ct, unreadMarker := 0, 0, -16, 0;
      taken, low := 0, Interval(0, 0x10000, 0);
      new;
      Pow2Values();
      PrefixBound(data, 2);
    }

    /** Read next input byte, if the source has one. */
    method GetByte() returns (ok: bool, b: byte)
      modifies `input
      ensures ok == (old(input) != [])
      ensures ok ==> old(input) == [b] + input
      ensures !ok ==> input == old(input)
    {
      if input == [] {
        return false, 0;
      }
      ok, b := true, input[0];
      input := input[1..];
    }

    /** Fetch the next data byte: unstuff a zero, or note a marker and supply zeros from then on. */
    method NextData() returns (ok: bool, d: byte)
      requires Stream()
      modifies `input, `unreadMarker, `taken
      ensures ok ==> Stream() && taken == old(taken) + 1 && d == Digit(data, old(taken))
      ensures old(Supplied()) ==> ok && Supplied()
    {
      if unreadMarker != 0 {
        ok, d := true, 0;
      } else {
        ghost var start := input;
        ok, d := GetByte();
        if !ok { return; }
        if d == 0xFF {
          ok, d := GetByte();
          if !ok { return; }
          while d == 0xFF
            invariant unreadMarker == 0 && taken == old(taken)
            invariant SkipFF(start) == SkipFF([d] + input)
            decreases |input|
          {
            ok, d := GetByte();
            if !ok { return; }
          }
          if d == 0 {
            d := 0xFF;
          } else {
            unreadMarker := d;
            d := 0;
          }
        }
      }
      taken := taken + 1;
    }

    /** Renormalization and data input, and at first the two bytes that fill C. */
    method Refill() returns (ok: bool)
      requires Valid()
      modifies `c, `a, `ct, `taken, `low, `input, `unreadMarker
      ensures ok ==> Valid() && Running() && 0x8000 <= a && low == old(Cur())
      ensures old(Supplied()) ==> ok && Supplied()
    {
      while a < 0x8000
        invariant Valid() && Cur() == old(Cur())
        invariant old(Supplied()) ==> Supplied()
        decreases if a == 0 then 0x10000 - ct else 0x10000 - a
      {
        ok := Shift();
        if !ok { return; }
      }
      ok := true;
    }

    /** One doubling, or one of the two initial bytes. */
    method Shift() returns (ok: bool)
      requires Valid() && a < 0x8000
      modifies `c, `a, `ct, `taken, `low, `input, `unreadMarker
      ensures ok ==> Valid() && Cur() == old(Cur())
      ensures ok && a == 0 ==> old(a) == 0 && ct > old(ct)
      ensures ok && a > 0 ==> a == 2 * old(a) || (old(a) == 0 && a == 0x10000)
      ensures old(Supplied()) ==> ok && Supplied()
    {
      hide Prefix, Pow2, DataOf, Terminated, Stream;
      ghost var running := Running();
      if running { HalfStep(data, low, ct, taken, c); }
      PrefixStep(data, taken);
      Pow2Values();
      ct := ct - 1;
      if ct < 0 {
        var d;
        ok, d := NextData();
        if !ok { return; }
        c := c * 0x100 + d;
        ct := ct + 8;
        if ct < 0 {
          ct := ct + 1;
          if ct == 0 {
            PrefixBound(data, 2);
            a := 0x8000;
          }
        }
      }
      a := a * 2;
      if running { low := Interval(2 * low.base, 2 * low.a, low.n + 1); }
      ok := true;
    }

    /** Decode one decision: the bit whose part of the interval holds the code value, and
        one step of the model for that bit. */
    method Decode(st: Stat) returns (ok: bool, bit: bool)
      requires Valid() && st in stats
      modifies this
      ensures ok ==> Contains(data, Narrow(tab, old(Cur()), old(stats)[st], bit))
      ensures ok ==> Valid() && View() == Step(tab, old(View()), Decision(st, bit))
      ensures old(Supplied()) ==> ok && Supplied()
    {
      bit := false;
      ok := Refill();
      if !ok { return; }
      var qe, lps, mps := Lookup(tab, stats[st]);
      var next;
      bit, next := Code(stats[st], qe, lps, mps);
      stats := stats[st := next];
      RenormContains(data, low);
    }

    method Code(sv: Bin, qe: int, lps: Bin, mps: Bin) returns (bit: bool, next: Bin)
      requires Running() && 0x8000 <= a
      requires qe == Est(tab, sv).qe && lps == AfterLps(tab, sv) && mps == AfterMps(tab, sv)
      modifies `c, `a, `low
      ensures Running() && low == Narrow(tab, old(low), sv, bit) && Contains(data, low)
      ensures next == Adapt(tab, old(low), sv, bit)
    {
      var upper := Split(qe);
      bit := sv >= 0x80;
      next := sv;
      if upper {
        // the coder had swapped the parts if the upper one is the larger
        if a < qe {
          next := mps;
        } else {
          next := lps;
          bit := !bit;
        }
        a := qe;
      } else if a < 0x8000 {
        // likewise for the lower part
        if a < qe {
          next := lps;
          bit := !bit;
        } else {
          next := mps;
        }
      }
      low := Narrow(tab, low, sv, bit);
      InLow(data, low, taken, ct, c);
    }

    /** Compare the code value with the bound between the two parts. */
    method Split(qe: int) returns (upper: bool)
      requires Running() && 0x8000 <= a && 0 < qe < 0x8000
      modifies `c, `a
      ensures a == old(a) - qe
      ensures 0 <= c < (if upper then qe else a) * Pow2(ct)
      ensures c == Prefix(data, taken) - (low.base + (if upper then a else 0)) * Pow2(ct)
    {
      var temp := a - qe;
      a := temp;
      temp := temp * Pow2(ct);
      Distribute(low.base, 1, a, Pow2(ct));
      Distribute(a, 1, qe, Pow2(ct));
      upper := c >= temp;
      if upper {
        c := c - temp;
      }
    }
  }

  lemma InLow(data: seq<byte>, low: Interval, taken: nat, ct: nat, c: int)
    requires 8 * taken == 16 + low.n + ct
    requires c == Prefix(data, taken) - low.base * Pow2(ct) && 0 <= c < low.a * Pow2(ct)
    ensures Contains(data, low)
  {
    Distribute(low.base, 1, low.a, Pow2(ct));
    ReachesAnywhere(data, low.n, low.base, taken);
    ReachesAnywhere(data, low.n, low.base + low.a, taken);
  }

  /** Doubling the interval uses up one bit of lookahead, or a new digit brings in eight. */
  lemma HalfStep(data: seq<byte>, low: Interval, ct: int, taken: nat, c: int)
    requires 0 <= ct <= 7
    requires c == Prefix(data, taken) - low.base * Pow2(ct) && 0 <= c < low.a * Pow2(ct)
    ensures ct > 0 ==> c == Prefix(data, taken) - (2 * low.base) * Pow2(ct - 1) && c < (2 * low.a) * Pow2(ct - 1)
    ensures ct == 0 ==> var x := c * 0x100 + Digit(data, taken);
      x == Prefix(data, taken + 1) - (2 * low.base) * Pow2(7) && x < (2 * low.a) * Pow2(7)
  {
    if ct > 0 {
      assert Pow2(ct) == 2 * Pow2(ct - 1);
      Distribute(low.base, 2, 0, Pow2(ct - 1));
      Distribute(low.a, 2, 0, Pow2(ct - 1));
    } else {
      Pow2Values();
      assert Pow2(7) == 128;
    }
  }
}
