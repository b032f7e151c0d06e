/** The arithmetic encoder of jcarith.c: registers, delayed carry, byte output and the
    "Pacman" termination that drops final zero bytes. */
module ArithEncoder {
  import opened Radix
  import opened ByteStream
  import opened ArithTable
  import opened ArithModel
  import opened ArithTermination

  class Encoder {
    const tab: Aritab
    var c: int       // low end of the interval, with the spacer bits of section D.1.3
    var a: int       // width of the interval
    var sc: int      // how many 0xFF bytes a carry could still turn to 0
    var zc: int      // pending 0x00 bytes which might be dropped at the end
    var ct: int      // shifts left until the next byte is written
    var buffer: int  // most recent output byte other than 0xFF; -1 when there is none
    var stats: Stats
    var out: seq<byte>
    ghost var data: seq<byte>  // the bytes written so far, without the stuffed zeros

    /** Everything that has left the C register, written or still held back. */
    ghost function Bytes(): seq<byte>
      reads `data, `zc, `buffer, `sc
      requires -1 <= buffer < 256 && 0 <= sc && 0 <= zc
    {
      data + Fill(0, zc) + (if buffer < 0 then [] else [buffer]) + Fill(0xFF, sc)
    }

    /** No written string of data ends in a zero byte. */
    ghost predicate Stored()
      reads `data, `zc, `buffer, `sc, `out
    {
      && 0 <= sc && 0 <= zc
      && -1 <= buffer < 0xFF
      && (buffer == -1 ==> data == [] && zc == 0)
      && Written()
    }

    ghost predicate Written()
      reads `data, `out
    {
      out == Stuff(data) && (data != [] ==> data[|data| - 1] != 0)
    }

    /** The interval that the registers and the bytes held back stand for. */
    ghost function Cur(): Interval
      reads `data, `zc, `buffer, `sc, `out, `c, `a, `ct
      requires Stored() && 0 <= ct <= 11 && (ct > 8 ==> Bytes() == []) && 0 <= c && 0 <= a
    {
      Interval(Value(Bytes()) * Pow2(27 - ct) + c, a, 11 + 8 * |Bytes()| - ct)
    }

    /** The register bound is what keeps a carry from turning the buffered byte into 0xFF; the
        bound on the interval is what keeps a carry from arriving with no byte to take it. */
    ghost predicate Room(w: int)
      reads `data, `zc, `buffer, `sc, `out, `c, `a, `ct
    {
      && Stored()
      && 0 <= ct <= 11 && (ct > 8 ==> Bytes() == [])
      && 0 <= c && 0 < a <= w <= 0x10000
      && (c + w) * Pow2(ct) <= 0x9000000
      && Cur().base + w <= Pow2(16 + Cur().n)
    }

    ghost predicate Registers()
      reads `data, `zc, `buffer, `sc, `out, `c, `a, `ct
    {
      Room(a) && 1 <= ct
    }

    ghost predicate Valid()
      reads `data, `zc, `buffer, `sc, `out, `c, `a, `ct
    {
      Registers() && 0x8000 <= a
    }

    ghost function View(): Coder
      reads this
      requires Valid()
    {
      Coder(Cur(), stats)
    }

    constructor (tab: Aritab, stats: Stats)
      ensures Valid() && this.tab == tab && out == []
      ensures View() == Coder(Interval(0, 0x10000, 0), stats)
    {
      this.tab := tab;
      this.stats := stats;
      c, a, sc, zc, ct, buffer := 0, 0x10000, 0, 0, 11, -1;
      out := [];
      data := [];
      new;
      assert Bytes() == [];
      assert Pow2(11) == 2048;
      assert Pow2(16) == 65536;
    }

    /** Write one data byte, with a zero stuffed after 0xFF. */
    method EmitByte(val: byte)
      requires out == Stuff(data)
      modifies this`out, this`data
      ensures data == old(data) + [val] && out == Stuff(data)
    {
      StuffAppend(data, [val]);
      StuffOne(val);
      out := out + [val];
      if val == 0xFF {
        out := out + [0];
      }
      data := data + [val];
    }

    /** Write out the pending zero bytes. */
    method EmitZeros()
      requires out == Stuff(data) && 0 <= zc
      modifies this`out, this`data, this`zc
      ensures data == old(data) + Fill(0, old(zc)) && out == Stuff(data) && zc == 0
    {
      hide Stuff;
      while zc > 0
        invariant 0 <= zc <= old(zc)
        invariant out == Stuff(data)
        invariant data == old(data) + Fill(0, old(zc) - zc)
      {
        EmitByte(0);
        zc := zc - 1;
      }
    }

    /** With no byte buffered, everything so far is 0xFF and there is no room for a carry. */
    lemma NoCarryIntoNothing()
      requires Stored() && buffer < 0
      ensures Value(Bytes()) + 1 == Pow2(8 * |Bytes()|)
    {
      FullValue(sc);
      assert Bytes() == Fill(0xFF, sc);
    }

    /** A carry: it runs through the held-back 0xFF bytes and ends in the buffered byte. */
    method CarryOver()
      requires Stored() && Value(Bytes()) + 1 < Pow2(8 * |Bytes()|)
      modifies this`out, this`data, this`zc, this`sc
      ensures Written() && 0 <= zc && sc == 0
      ensures |data| + zc == old(|Bytes()|)
      ensures Value(data + Fill(0, zc)) == old(Value(Bytes())) + 1
    {
      hide Stuff, Prefix, Pow2;
      if buffer < 0 { NoCarryIntoNothing(); }
      if buffer >= 0 {
        Carry(data + Fill(0, zc), buffer, sc);
        EmitZeros();
        EmitByte(buffer + 1);
      }
      zc := zc + sc;
      sc := 0;
    }

    method FlushBuffer()
      requires Stored()
      modifies this`out, this`data, this`zc
      ensures Written() && 0 <= zc
      ensures data + Fill(0, zc) + Fill(0xFF, sc) == old(Bytes())
    {
      if buffer == 0 {
        zc := zc + 1;
        assert Fill(0, zc) == Fill(0, zc - 1) + [0];
      } else if buffer >= 0 {
        EmitZeros();
        EmitByte(buffer);
      }
    }

    method FlushStack()
      requires Written() && 0 <= zc && 0 <= sc
      modifies this`out, this`data, this`zc, this`sc
      ensures Written() && 0 <= zc && sc == 0
      ensures data + Fill(0, zc) == old(data + Fill(0, zc) + Fill(0xFF, sc))
    {
      hide Stuff;
      if sc > 0 {
        EmitZeros();
        EmitStack();
        assert data[|data| - 1] == 0xFF;
        assert data + Fill(0, zc) == data;
      }
    }

    method EmitStack()
      requires out == Stuff(data) && 0 <= sc
      modifies this`out, this`data, this`sc
      ensures data == old(data) + Fill(0xFF, old(sc)) && out == Stuff(data) && sc == 0
    {
      hide Stuff;
      while sc > 0
        invariant 0 <= sc <= old(sc)
        invariant out == Stuff(data)
        invariant data == old(data) + Fill(0xFF, old(sc) - sc)
      {
        EmitByte(0xFF);
        sc := sc - 1;
      }
    }

    /** Write what was held back: no carry can reach it now. */
    method Flush()
      requires Stored()
      modifies this`out, this`data, this`zc, this`sc
      ensures Written() && 0 <= zc && sc == 0
      ensures data + Fill(0, zc) == old(Bytes())
    {
      FlushBuffer();
      FlushStack();
    }

    /** Take one more digit, which may bring a carry.  Whichever way it goes, the number made of all
        the bytes so far has exactly this digit more. */
    method OutputByte(temp: int)
      requires Stored() && 0 <= temp < 0x1FF
      requires Value(Bytes()) * 256 + temp < Pow2(8 * (|Bytes()| + 1))
      modifies this`out, this`data, this`zc, this`sc, this`buffer
      ensures Stored() && |Bytes()| == old(|Bytes()|) + 1
      ensures Value(Bytes()) == old(Value(Bytes())) * 256 + temp
    {
      hide Stuff, Prefix, Pow2;
      ghost var n := |Bytes()|;
      Pow2Byte(8 * n);
      if temp > 0xFF {
        CarryOver();
        buffer := temp - 0x100;
        ValueSnoc(data + Fill(0, zc), buffer);
        assert Bytes() == data + Fill(0, zc) + [buffer];
      } else if temp == 0xFF {
        ghost var bytes := Bytes();
        sc := sc + 1;
        assert Bytes() == bytes + [0xFF];
        ValueSnoc(bytes, 0xFF);
      } else {
        Flush();
        buffer := temp;
        assert Bytes() == data + Fill(0, zc) + [buffer];
        ValueSnoc(data + Fill(0, zc), buffer);
      }
    }

    /** Encode one decision: exactly one step of the model, for the bin as for the interval. */
    method Encode(st: Stat, val: bool)
      requires Valid() && st in stats
      modifies this
      ensures Valid() && View() == Step(tab, old(View()), Decision(st, val))
    {
      var qe, lps, mps := Lookup(tab, stats[st]);
      var next := Code(stats[st], val, qe, lps, mps);
      stats := stats[st := next];
    }

    /** The interval's side of a decision, and the bin to go to. */
    method Code(sv: Bin, val: bool, qe: int, lps: Bin, mps: Bin) returns (next: Bin)
      requires Valid()
      requires qe == Est(tab, sv).qe && lps == AfterLps(tab, sv) && mps == AfterMps(tab, sv)
      modifies `c, `a, `ct, `out, `data, `zc, `sc, `buffer
      ensures Valid() && Cur() == Renorm(Narrow(tab, old(Cur()), sv, val))
      ensures next == Adapt(tab, old(Cur()), sv, val)
    {
      hide Stuff, Prefix, Pow2, Bytes, Stored, Renorm;
      ghost var part := Narrow(tab, Cur(), sv, val);
      if val != (sv >= 0x80) {
        next := lps;
        Select(a - qe >= qe, qe, sv, val);
      } else {
        next := if a - qe >= 0x8000 then sv else mps;
        Select(a - qe < qe, qe, sv, val);
      }
      assert Cur() == part;
      Renormalize();
    }

    /** Keep the part that belongs to the decision. */
    method Select(upper: bool, qe: int, ghost sv: Bin, ghost val: bool)
      requires Valid() && qe == Est(tab, sv).qe && upper == Upper(tab, Cur(), sv, val)
      modifies `a, `c
      ensures Registers() && Cur() == Narrow(tab, old(Cur()), sv, val)
    {
      Split(upper, qe);
    }

    /** Cut off the part of size qe at the top; keep it, or keep the rest. */
    method Split(upper: bool, qe: int)
      requires Valid() && 0 < qe < 0x8000
      modifies `a, `c
      ensures Registers()
      ensures Cur() == if upper then Interval(old(Cur()).base + (old(a) - qe), qe, old(Cur()).n)
                       else Interval(old(Cur()).base, old(a) - qe, old(Cur()).n)
    {
      hide Stuff, Prefix, Pow2, Bytes, Stored;
      Narrowed(c, a - qe, qe, Pow2(ct));
      a := a - qe;
      if upper {
        c := c + a;
        a := qe;
      }
    }

    /** Finish up a scan: write the shortest data whose value lies in the interval. */
    method Finish()
      requires Valid()
      modifies this
      ensures out == Stuff(data) && (data != [] ==> data[|data| - 1] != 0)
      ensures Contains(data, old(Cur())) && NoneShorter(data, old(Cur()))
    {
      hide Stuff, Prefix, Pow2, Reaches, MostZeros, NoneShorter;
      ghost var i, v, n := Cur(), Value(Bytes()), |Bytes()|;
      ghost var x := PickValue();
      FinalCarry();
      ghost var u := Value(data + Fill(0, zc));
      ghost var full := FinalBytes();
      InInterval(data, full, u, v, n, x, ct, old(c), old(a));
    }

    /** Choose what to write at the end: the point of the interval that ends in the most zeros. */
    method PickValue() returns (ghost x: nat)
      requires Valid()
      modifies `c
      ensures old(c) <= x < old(c) + a && c == x * Pow2(ct)
      ensures MostZeros(x, old(c), a)
      ensures var b := Value(Bytes()) * Pow2(27 - ct); MostZeros(b + x, b + old(c), a)
      ensures c < 0x9000000 && c % 0x800 == 0
      ensures c >= 0x8000000 ==> Value(Bytes()) + 1 < Pow2(8 * |Bytes()|)
    {
      hide Stuff, Prefix, Pow2, MostZeros, Picked;
      PickedBits(Value(Bytes()), |Bytes()|, ct, c, a);
      Pick();
      x := c;
      c := c * Pow2(ct);
    }

    method Pick()
      requires 0 <= c && 0 < a
      modifies `c
      ensures c == Picked(old(c), a)
    {
      var temp := (a - 1 + c) / 0x10000 * 0x10000;
      if temp < c {
        c := temp + 0x8000;
      } else {
        c := temp;
      }
    }

    /** Send the remaining bytes to output, with one final overflow if there is one. */
    method FinalCarry()
      requires Stored() && 0 <= c < 0x9000000
      requires c >= 0x8000000 ==> Value(Bytes()) + 1 < Pow2(8 * |Bytes()|)
      modifies this`out, this`data, this`zc, this`sc
      ensures Written() && 0 <= zc && |data| + zc == old(|Bytes()|)
      ensures Value(data + Fill(0, zc)) == old(Value(Bytes())) + c / 0x8000000
    {
      hide Stuff, Prefix, Pow2;
      if c >= 0x8000000 {
        CarryOver();
      } else {
        Flush();
        assert |data + Fill(0, zc)| == |data| + zc;
      }
    }

    /** Output the final two bytes, and the zeros before them, only as far as needed. */
    method FinalBytes() returns (ghost full: seq<byte>)
      requires Written() && 0 <= zc && 0 <= c < 0x9000000 && c % 0x800 == 0
      modifies this`out, this`data, this`zc
      ensures Written() && exists k: nat :: data + Fill(0, k) == full
      ensures |full| == old(|data| + zc) + 2
      ensures Value(full) * 0x800 == (old(Value(data + Fill(0, zc))) - c / 0x8000000) * 0x8000000 + c
    {
      hide Stuff, Prefix;
      var x, y := c / 0x80000 % 0x100, c / 0x800 % 0x100;
      TwoBytes(Value(data + Fill(0, zc)), c);
      BytesZero(c);
      full := data + Fill(0, zc) + [x] + [y];
      ValueSnoc(data + Fill(0, zc), x);
      ValueSnoc(data + Fill(0, zc) + [x], y);
      if c / 0x800 % 0x10000 != 0 {
        EmitZeros();
        EmitByte(x);
        if y != 0 {
          EmitByte(y);
          assert data + Fill(0, 0) == full;
        } else {
          assert data + Fill(0, 1) == full;
        }
      } else {
        assert data + Fill(0, zc + 2) == full;
      }
    }

    lemma BytesZero(c: nat)
      ensures c / 0x800 % 0x10000 != 0 <==> c / 0x80000 % 0x100 != 0 || c / 0x800 % 0x100 != 0
    {
      var w := c / 0x800;
      assert c / 0x80000 == w / 0x100;
      assert w % 0x10000 == 0x100 * (w / 0x100 % 0x100) + w % 0x100;
    }

    /** Renormalization and data output: double until the interval is large enough again. */
    method Renormalize()
      requires Registers()
      modifies this`a, this`c, this`ct, this`out, this`data, this`zc, this`sc, this`buffer
      ensures Valid() && Cur() == Renorm(old(Cur()))
    {
      while a < 0x8000
        invariant Registers() && Renorm(Cur()) == Renorm(old(Cur()))
        decreases 0x10000 - a
      {
        Shift();
      }
    }

    /** One doubling of the interval. */
    method Shift()
      requires Registers() && a < 0x8000
      modifies this`a, this`c, this`ct, this`out, this`data, this`zc, this`sc, this`buffer
      ensures Registers() && a == 2 * old(a)
      ensures Cur() == Interval(2 * old(Cur()).base, 2 * old(a), old(Cur()).n + 1)
    {
      hide Stuff, Prefix, Pow2;
      ghost var before := Cur();
      ghost var p, q := Pow2(27 - ct), Value(Bytes());
      Doubled(q, c, a, ct, before.n);
      a := a * 2;
      c := c * 2;
      ct := ct - 1;
      assert Cur() == Interval(2 * before.base, 2 * before.a, before.n + 1);
      if ct == 0 {
        TakeByte();
      }
    }

    /** Move the bits above the 19 low ones from the C register to the output. */
    method TakeByte()
      requires Room(a) && ct == 0 && a < 0x10000
      modifies this`c, this`ct, this`out, this`data, this`zc, this`sc, this`buffer
      ensures Registers() && Cur() == old(Cur())
    {
      hide Stuff, Prefix, Pow2;
      ghost var v, n := Value(Bytes()), |Bytes()|;
      Pow2Values();
      var temp := c / 0x80000;
      DigitFits(v, temp, c, a, n);
      OutputByte(temp);
      c := c % 0x80000;
      ct := ct + 8;
      assert Cur() == Interval((v * 256 + temp) * Pow2(19) + c, a, 11 + 8 * (n + 1) - 8);
    }
  }

  lemma Doubled(v: nat, c: nat, a: nat, ct: nat, n: nat)
    requires 1 <= ct <= 11
    ensures v * Pow2(27 - (ct - 1)) + 2 * c == 2 * (v * Pow2(27 - ct) + c)
    ensures (2 * c + 2 * a) * Pow2(ct - 1) == (c + a) * Pow2(ct)
    ensures Pow2(16 + (n + 1)) == 2 * Pow2(16 + n)
  {
    assert Pow2(27 - (ct - 1)) == 2 * Pow2(27 - ct);
    assert v * (2 * Pow2(27 - ct)) == 2 * (v * Pow2(27 - ct));
    assert Pow2(ct) == 2 * Pow2(ct - 1);
    assert (2 * (c + a)) * Pow2(ct - 1) == (c + a) * (2 * Pow2(ct - 1));
  }

  /** The interval lies below 1, so the next digit, carry included, fits in one more byte. */
  lemma DigitFits(v: nat, temp: nat, c: nat, a: nat, k: nat)
    requires temp == c / 0x80000 && 0 < a && v * Pow2(27) + c + a <= Pow2(16 + (11 + 8 * k))
    ensures v * 256 + temp < Pow2(8 * (k + 1))
    ensures (v * 256 + temp) * Pow2(19) + c % 0x80000 == v * Pow2(27) + c
  {
    Pow2Add(19, 8 * (k + 1));
    Pow2Values();
    assert 19 + 8 * (k + 1) == 16 + (11 + 8 * k);
    assert c == 0x80000 * temp + c % 0x80000;
  }

  lemma Narrowed(c: nat, a: nat, qe: nat, p: nat)
    ensures (c + a) * p <= (c + (a + qe)) * p
    ensures (c + a + qe) * p == (c + (a + qe)) * p
  {
    MulOrder(c + a, c + (a + qe), p);
  }

  lemma PickedBits(v: nat, n: nat, ct: nat, c: nat, a: nat)
    requires 1 <= ct <= 11 && 0x8000 <= a <= 0x10000 && 0 <= 11 + 8 * n - ct
    requires (c + a) * Pow2(ct) <= 0x9000000
    requires v * Pow2(27 - ct) + c + a <= Pow2(16 + (11 + 8 * n - ct))
    ensures var x := Picked(c, a);
      && c <= x < c + a && x * Pow2(ct) < 0x9000000 && x * Pow2(ct) % 0x800 == 0
      && (x * Pow2(ct) >= 0x8000000 ==> v + 1 < Pow2(8 * n))
      && MostZeros(x, c, a) && MostZeros(v * Pow2(27 - ct) + x, v * Pow2(27 - ct) + c, a)
  {
    hide Picked, MostZeros, Pow2;
    var x := Picked(c, a);
    ZerosBelowBytes(v, ct);
    Termination(c, a, x, v * Pow2(27 - ct));
    InReach(x, c, a);
    FinalBits(v, n, ct, x, c, a);
  }

  /** What is left of the C register fits in two bytes and a carry that has room. */
  lemma FinalBits(v: nat, n: nat, ct: nat, x: nat, c: nat, a: nat)
    requires 1 <= ct <= 11 && c <= x < c + a && x % 0x8000 == 0
    requires (c + a) * Pow2(ct) <= 0x9000000
    requires 0 <= 11 + 8 * n - ct
    requires v * Pow2(27 - ct) + c + a <= Pow2(16 + (11 + 8 * n - ct))
    ensures x * Pow2(ct) < 0x9000000 && x * Pow2(ct) % 0x800 == 0
    ensures x * Pow2(ct) >= 0x8000000 ==> v + 1 < Pow2(8 * n)
  {
    MulOrder(x, c + a, Pow2(ct));
    Aligned(x, Pow2(ct));
    Pow2Values();
    ScaledSum(v, x, ct);
    MulOrder(v * Pow2(27 - ct) + x, Pow2(16 + (11 + 8 * n - ct)), Pow2(ct));
    Pow2Add(16 + (11 + 8 * n - ct), ct);
    assert 16 + (11 + 8 * n - ct) + ct == 27 + 8 * n;
    Pow2Add(27, 8 * n);
  }

  lemma TwoBytes(u: nat, c: nat)
    requires c % 0x800 == 0
    ensures ((u * 256 + c / 0x80000 % 0x100) * 256 + c / 0x800 % 0x100) * 0x800
      == (u - c / 0x8000000) * 0x8000000 + c
  {
    var w := c / 0x800;
    assert c / 0x80000 == w / 0x100 && c / 0x8000000 == w / 0x10000 && c == 0x800 * w;
    assert w == 0x10000 * (w / 0x10000) + 0x100 * (w / 0x100 % 0x100) + w % 0x100;
  }

  lemma Aligned(x: nat, p: nat)
    requires x % 0x8000 == 0
    ensures x * p % 0x800 == 0
  {
    var w := x / 0x8000;
    assert x * p == 0x800 * (16 * w * p) by { assert x == 0x8000 * w; }
  }

  lemma ScaledSum(v: nat, x: nat, ct: nat)
    requires ct <= 27
    ensures (v * Pow2(27 - ct) + x) * Pow2(ct) == v * Pow2(27) + x * Pow2(ct)
  {
    Pow2Add(27 - ct, ct);
    Distribute(v, Pow2(27 - ct), x, Pow2(ct));
  }

  /** The finished digits denote exactly the value picked. */
  lemma InInterval(data: seq<byte>, full: seq<byte>, u: nat, v: nat, n: nat, x: nat, ct: nat, c: nat, a: nat)
    requires 1 <= ct <= 11 && |full| == n + 2 && 0 <= 11 + 8 * n - ct
    requires u == v + x * Pow2(ct) / 0x8000000
    requires Value(full) * 0x800 == (u - x * Pow2(ct) / 0x8000000) * 0x8000000 + x * Pow2(ct)
    requires c <= x < c + a
    requires exists k: nat :: data + Fill(0, k) == full
    requires data != [] ==> data[|data| - 1] != 0
    requires var b := v * Pow2(27 - ct); MostZeros(b + x, b + c, a)
    ensures var i := Interval(v * Pow2(27 - ct) + c, a, 11 + 8 * n - ct); Contains(data, i) && NoneShorter(data, i)
  {
    hide Prefix, Pow2, MostZeros, NoneShorter;
    var b := v * Pow2(27 - ct);
    Pow2Values();
    ScaledSum(v, x, ct);
    Denoted(full, n, b + x, ct);
    assert 8 * (n + 4) - 16 - (11 + 8 * n - ct) == ct + 5;
    Between(full, n + 4, 11 + 8 * n - ct, b + x, b + c, b + c + a);
    var k: nat :| data + Fill(0, k) == full;
    DropZerosContains(data, k, Interval(b + c, a, 11 + 8 * n - ct));
    PrefixDropZeros(data, k, n + 4);
    Shortest(data, b + x, Interval(b + c, a, 11 + 8 * n - ct), n + 4);
  }

  lemma Between(s: seq<byte>, d: nat, n: nat, y: nat, lo: nat, hi: nat)
    requires 8 * d >= 16 + n && Prefix(s, d) == y * Pow2(8 * d - 16 - n)
    requires lo <= y < hi
    ensures Reaches(s, n, lo) && !Reaches(s, n, hi)
  {
    MulOrder(lo, y, Pow2(8 * d - 16 - n));
    MulOrder(y, hi, Pow2(8 * d - 16 - n));
    ReachesAnywhere(s, n, lo, d);
    ReachesAnywhere(s, n, hi, d);
  }

  lemma Denoted(full: seq<byte>, n: nat, y: nat, ct: nat)
    requires |full| == n + 2 && Value(full) * 0x800 == y * Pow2(ct)
    ensures Prefix(full, n + 4) == y * Pow2(ct + 5)
  {
    PrefixPast(full, n + 4);
    Pow2Values();
    Pow2Add(ct, 5);
    assert Pow2(5) == 32;
    assert y * (Pow2(ct) * 32) == 32 * (y * Pow2(ct));
  }

  lemma DropZerosContains(data: seq<byte>, k: nat, i: Interval)
    ensures Contains(data + Fill(0, k), i) == Contains(data, i)
  {
    PrefixDropZeros(data, k, Enough(i.n));
  }
}
