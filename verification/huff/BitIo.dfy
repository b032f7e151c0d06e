/** Bit packing in the Huffman encoder (jchuff.c) and bit fetching in the decoder
    (jdhuff.c), through stuffed bytes. */
module BitIo {
  import opened Radix
  import opened Bits
  import opened ByteStream

  class BitWriter {
    var putBuffer: int  // the bits not yet written out start at bit 23
    var putBits: int    // how many they are
    var out: seq<byte>
    ghost var data: seq<byte>  // the bytes written, without stuffed zeros
    ghost var held: nat        // what the buffer holds, with anything shifted out above it

    /** Between calls at most 7 bits are retained. */
    ghost predicate Valid()
      reads this
    {
      0 <= putBits <= 7 && Loose()
    }

    ghost predicate Loose()
      reads this
    {
      && 0 <= putBits <= 24 && 0 <= putBuffer < Pow2(32)
      && putBuffer == held * Pow2(24 - putBits)
      && out == Stuff(data)
    }

    /** Every bit emitted so far. */
    ghost function Written(): seq<bool>
      reads this
      requires 0 <= putBits
    {
      ByteBits(data) + BitsOf(held, putBits)
    }

    constructor ()
      ensures Valid() && Written() == [] && out == []
    {
      putBuffer, putBits, out, data, held := 0, 0, [], [], 0;
      new;
      Pow2Values();
    }

    method EmitByte(c: byte)
      requires out == Stuff(data)
      modifies `out, `data
      ensures data == old(data) + [c] && out == Stuff(data)
    {
      StuffAppend(data, [c]);
      StuffOne(c);
      out := out + [c];
      if c == 0xFF {
        out := out + [0];
      }
      data := data + [c];
    }

    /** Emit the low size bits of code; size 0 marks a symbol without a code and is refused. */
    method EmitBits(code: int, size: nat) returns (ok: bool)
      requires Valid() && size <= 16
      modifies this
      ensures Valid() && ok == (size != 0)
      ensures Written() == old(Written()) + BitsOf(code % Pow2(size), size)
    {
      if size == 0 { return false; }
      ok := true;
      AddBits(code, size);
      while putBits >= 8
        invariant Loose() && Written() == old(Written()) + BitsOf(code % Pow2(size), size)
        decreases putBits
      {
        ShiftByte();
      }
    }

    method AddBits(code: int, size: nat)
      requires Valid() && 0 < size <= 16
      modifies `putBuffer, `putBits, `held
      ensures Loose() && Written() == old(Written()) + BitsOf(code % Pow2(size), size)
    {
      hide Pow2, BitsOf, Stuff, ByteBits;
      var c := code % Pow2(size);
      var bits := size + putBits;
      AlignedOr(held, putBits, c, size);
      assert old(Written()) + BitsOf(c, size) == ByteBits(data) + (BitsOf(held, putBits) + BitsOf(c, size));
      BitsAppend(held, putBits, c, size);
      putBuffer := c * Pow2(24 - bits) + putBuffer;  // they take up disjoint bits
      putBits := bits;
      held := held * Pow2(size) + c;
    }

    method ShiftByte()
      requires Loose() && 8 <= putBits
      modifies this
      ensures Loose() && putBits == old(putBits) - 8 && Written() == old(Written())
    {
      hide Pow2, BitsOf, Stuff, ByteBits;
      var c := Shr(putBuffer, 16) % 0x100;
      TopByte(held, putBits);
      ByteBitsSnoc(data, c);
      Concat(ByteBits(data), BitsOf(c, 8), BitsOf(held, putBits - 8));
      EmitByte(c);
      Truncate(held, putBits);
      putBuffer := putBuffer * 0x100 % Pow2(32);
      putBits := putBits - 8;
      held := held % Pow2(putBits + 8);
    }

    /** Write the last bits out, padded with ones to a byte. */
    method Flush()
      requires Valid()
      modifies this
      ensures Valid() && putBits == 0 && putBuffer == 0
      ensures ByteBits(data) == old(Written()) + seq((8 - old(putBits)) % 8, _ => true)
    {
      hide Pow2, BitsOf, Stuff, ByteBits;
      ghost var w, n, k := Written(), putBits, |data|;
      var _ := EmitBits(0x7F, 7);
      Ones();
      ghost var pad := (8 - n) % 8;
      PadLength(n, k, putBits, |data|);
      Cut(w, pad, ByteBits(data), BitsOf(held, putBits));
      putBuffer, putBits, held := 0, 0, 0;
      NothingHeld();
    }
  }

  const MIN_GET_BITS := 25

  /** x goes on like y, and then with zeros. */
  predicate Extends(x: seq<bool>, y: seq<bool>) {
    y <= x && forall i :: |y| <= i < |x| ==> !x[i]
  }

  class BitReader {
    var getBuffer: int      // 32-bit extraction buffer
    var bitsLeft: int       // how many of its bits are unread
    var unreadMarker: int   // the marker that ended the data, or 0
    var input: seq<byte>    // the bytes that the source can give now
    var insufficientData: bool
    ghost var ahead: seq<byte>  // everything the source will ever give

    ghost predicate Valid()
      reads this
    {
      && 0 <= bitsLeft <= 32 && 0 <= getBuffer < Pow2(32)
      && (unreadMarker == 0 ==> input <= ahead)
    }

    /** The data bits still to be read. */
    ghost function Bits(): seq<bool>
      reads this
      requires Valid()
    {
      BitsOf(getBuffer, bitsLeft) + (if unreadMarker == 0 then ByteBits(DataOf(ahead)) else [])
    }

    /** The source gives everything up to a marker without suspending. */
    ghost predicate Supplied()
      reads this
    {
      unreadMarker != 0 || Terminated(input)
    }

    constructor (getBuffer: int, bitsLeft: int, unreadMarker: int, input: seq<byte>, ghost ahead: seq<byte>)
      requires 0 <= bitsLeft <= 32 && 0 <= getBuffer < Pow2(32) && (unreadMarker == 0 ==> input <= ahead)
      ensures Valid() && !insufficientData
      ensures this.getBuffer == getBuffer && this.bitsLeft == bitsLeft && this.unreadMarker == unreadMarker
      ensures this.input == input && this.ahead == ahead
    {
      this.getBuffer, this.bitsLeft, this.unreadMarker := getBuffer, bitsLeft, unreadMarker;
      this.input, this.ahead, insufficientData := input, ahead, false;
    }

    /** Once a marker has been read, the source cannot suspend. */
    lemma Unmarked()
      ensures !Supplied() ==> unreadMarker == 0
    {
    }

    /** BITREAD_LOAD_STATE: a working copy of another reader. */
    constructor Copy(r: BitReader)
      requires r.Valid()
      ensures Valid() && Bits() == r.Bits() && Supplied() == r.Supplied() && Like(r)
    {
      getBuffer, bitsLeft, unreadMarker := r.getBuffer, r.bitsLeft, r.unreadMarker;
      input, ahead, insufficientData := r.input, r.ahead, r.insufficientData;
    }

    /** The same state, apart from what the source will give later. */
    predicate Like(r: BitReader)
      reads this, r
    {
      && getBuffer == r.getBuffer && bitsLeft == r.bitsLeft && unreadMarker == r.unreadMarker
      && input == r.input && insufficientData == r.insufficientData
    }

    /** BITREAD_SAVE_STATE: the working copy becomes the state. */
    method Take(w: BitReader)
      requires w.Valid()
      modifies this
      ensures Valid() && Bits() == w.Bits() && Supplied() == w.Supplied() && Like(w)
    {
      getBuffer, bitsLeft, unreadMarker := w.getBuffer, w.bitsLeft, w.unreadMarker;
      input, ahead, insufficientData := w.input, w.ahead, w.insufficientData;
    }

    /** The source has more to give. */
    method Supply(chunk: seq<byte>)
      requires Valid() && input + chunk <= ahead
      modifies `input
      ensures Valid() && input == old(input) + chunk && Bits() == old(Bits())
    {
      input := input + chunk;
    }

    /** Read bytes until nbits are there and no more fit.  Nothing changes when the source
        suspends.  Zeros are made up only when the data itself has fewer bits than asked for. */
    method FillBitBuffer(nbits: nat) returns (ok: bool)
      requires Valid() && nbits <= MIN_GET_BITS
      modifies this
      ensures Valid() && (ok ==> nbits <= bitsLeft && (unreadMarker == 0 ==> MIN_GET_BITS <= bitsLeft))
      ensures ok ==> Extends(Bits(), old(Bits()))
      ensures nbits <= |old(Bits())| ==> Bits() == old(Bits()) && insufficientData == old(insufficientData)
      ensures !ok ==> Bits() == old(Bits()) && insufficientData == old(insufficientData) && unreadMarker == 0 == old(unreadMarker)
      ensures !ok ==> getBuffer == old(getBuffer) && bitsLeft == old(bitsLeft) && input == old(input) && ahead == old(ahead)
      ensures old(Supplied()) ==> ok && Supplied()
    {
      hide Pow2, BitsOf, ByteBits, DataOf, Terminated, FetchFrom;
      var g, b, inp, marker := getBuffer, bitsLeft, input, unreadMarker;
      ghost var ah := ahead;
      if unreadMarker == 0 {
        ok, g, b, inp, marker, ah := LoadBytes(g, b, inp, ah);
        if !ok { return; }
      }
      assert old(Bits()) == BitsOf(g, b) + (if marker == 0 then ByteBits(DataOf(ah)) else []);
      if marker != 0 && nbits > b {
        // warn the first time only, and go on with zeros
        insufficientData := true;
        ZeroFill(g, b);
        g := g * Pow2(MIN_GET_BITS - b) % Pow2(32);
        b := MIN_GET_BITS;
      }
      getBuffer, bitsLeft, input, unreadMarker, ahead := g, b, inp, marker, ah;
      ok := true;
    }

    /** CHECK_BIT_BUFFER and GET_BITS: take the next n bits. */
    method GetBits(n: nat) returns (ok: bool, v: nat)
      requires Valid() && n <= 15
      modifies this
      ensures Valid() && (ok ==> v == Peek(old(Bits()), n) && Extends(Bits(), Skip(old(Bits()), n)))
      ensures ok && n <= |old(Bits())| ==> Bits() == old(Bits())[n..] && insufficientData == old(insufficientData)
      ensures !ok ==> Bits() == old(Bits()) && insufficientData == old(insufficientData) && unreadMarker == 0 == old(unreadMarker)
      ensures old(Supplied()) ==> ok && Supplied()
    {
      hide Pow2, BitsOf, ByteBits, DataOf, Terminated, Peek, Shr;
      v, ok := 0, true;
      if bitsLeft < n {
        ok := FillBitBuffer(n);
        if !ok { return; }
      }
      ghost var full := Bits();
      Extended(full, old(Bits()), n);
      PeekBuffer(getBuffer, bitsLeft, n, if unreadMarker == 0 then ByteBits(DataOf(ahead)) else []);
      v := Shr(getBuffer, bitsLeft - n) % Pow2(n);
      bitsLeft := bitsLeft - n;
      assert Bits() == full[n..];
    }
  }

  lemma Extended(x: seq<bool>, y: seq<bool>, n: nat)
    requires Extends(x, y) && n <= |x|
    ensures Peek(x, n) == Peek(y, n) && Extends(x[n..], Skip(y, n))
  {
    hide Peek;
    PeekAgree(x, y, n);
  }

  /** Read bytes until the buffer is deep enough, or a marker, or the end of what there is. */
  method LoadBytes(g0: nat, b0: nat, inp0: seq<byte>, ghost ah0: seq<byte>)
      returns (ok: bool, g: nat, b: nat, inp: seq<byte>, marker: byte, ghost ah: seq<byte>)
    requires b0 <= 32 && g0 < Pow2(32) && inp0 <= ah0
    ensures ok || !Terminated(inp0)
    ensures ok ==>
      && b <= 32 && g < Pow2(32) && (marker == 0 ==> inp <= ah && MIN_GET_BITS <= b)
      && BitsOf(g, b) + (if marker == 0 then ByteBits(DataOf(ah)) else []) == BitsOf(g0, b0) + ByteBits(DataOf(ah0))
      && (Terminated(inp0) ==> marker != 0 || Terminated(inp))
  {
    hide Pow2, BitsOf, ByteBits, DataOf, Terminated, FetchFrom;
    ghost var goal := BitsOf(g0, b0) + ByteBits(DataOf(ah0));
    g, b, inp, marker, ah, ok := g0, b0, inp0, 0, ah0, true;
    while b < MIN_GET_BITS
      invariant b <= 32 && g < Pow2(32) && inp <= ah && marker == 0 && ok
      invariant BitsOf(g, b) + ByteBits(DataOf(ah)) == goal
      invariant Terminated(inp0) == Terminated(inp)
      decreases |inp|
    {
      var f := ReadByte(inp);
      Reading(inp, ah);
      FetchSmaller(inp);
      match f
      case Exhausted =>
        return false, g, b, inp, 0, ah;
      case Marker(m, rest) =>
        return true, g, b, rest, m, ah;
      case Data(c, rest) =>
        LoadByte(g, b, c, ByteBits(DataOf(rest + ah[|inp|..])));
        g, b := (g * 0x100 + c) % Pow2(32), b + 8;
        ah := rest + ah[|inp|..];
        inp := rest;
    }
  }

  lemma FetchSmaller(s: seq<byte>)
    ensures !FetchFrom(s).Exhausted? ==> |FetchFrom(s).rest| < |s|
  {
  }

  lemma Reading(s: seq<byte>, whole: seq<byte>)
    requires s <= whole
    ensures match FetchFrom(s)
      case Exhausted => !Terminated(s)
      case Marker(m, _) => m != 0 && ByteBits(DataOf(whole)) == []
      case Data(b, rest) =>
        Terminated(s) == Terminated(rest) && ByteBits(DataOf(whole)) == BitsOf(b, 8) + ByteBits(DataOf(rest + whole[|s|..]))
  {
    hide FetchFrom, BitsOf, ByteBits;
    var more := whole[|s|..];
    assert whole == s + more;
    FetchCases(s);
    if !FetchFrom(s).Exhausted? {
      FetchLonger(s, more);
      NoBytes();
      if FetchFrom(s).Data? { FirstByte(FetchFrom(s).b, DataOf(FetchFrom(s).rest + more)); }
    }
  }

  lemma NoBytes()
    ensures ByteBits([]) == []
  {
  }

  lemma FirstByte(b: byte, d: seq<byte>)
    ensures ByteBits([b] + d) == BitsOf(b, 8) + ByteBits(d)
  {
    hide BitsOf;
    ByteBitsAppend([b], d);
    ByteBitsSnoc([], b);
    assert [] + [b] == [b];
  }

  lemma LoadByte(g: nat, b: nat, c: byte, rest: seq<bool>)
    requires b < MIN_GET_BITS && g < Pow2(32)
    ensures BitsOf((g * 0x100 + c) % Pow2(32), b + 8) + rest == BitsOf(g, b) + (BitsOf(c, 8) + rest)
    ensures 0 <= (g * 0x100 + c) % Pow2(32) < Pow2(32)
  {
    hide Pow2, BitsOf;
    Pow2Values();
    BitsAppend(g, b, c, 8);
    Wrap(g * 0x100 + c, b + 8);
  }

  /** A 32-bit buffer keeps the low bits of what is shifted into it. */
  lemma Wrap(v: nat, n: nat)
    requires n <= 32
    ensures BitsOf(v % Pow2(32), n) == BitsOf(v, n)
  {
    hide Pow2, BitsOf;
    var q := DivMod(v, Pow2(32));
    Pow2Add(32 - n, n);
    Distribute(q, Pow2(32 - n), 0, Pow2(n));
    BitsDrop(q * Pow2(32 - n), v % Pow2(32), n);
  }

  lemma ZeroFill(g: nat, b: nat)
    requires b <= MIN_GET_BITS
    ensures Extends(BitsOf(g * Pow2(MIN_GET_BITS - b) % Pow2(32), MIN_GET_BITS), BitsOf(g, b))
    ensures 0 <= g * Pow2(MIN_GET_BITS - b) % Pow2(32) < Pow2(32)
  {
    hide Pow2, BitsOf;
    var k := MIN_GET_BITS - b;
    Small32();
    Wrap(g * Pow2(k), MIN_GET_BITS);
    Pow2Grows(0, k + 1);
    BitsAppend(g, b, 0, k);
    ZeroBits(k);
  }

  lemma Small32()
    ensures forall v: nat :: 0 <= v % Pow2(32) < Pow2(32)
  {
    hide Pow2;
  }

  lemma {:induction false} ZeroBits(k: nat)
    ensures BitsOf(0, k) == seq(k, _ => false)
  {
    if k > 0 { ZeroBits(k - 1); }
  }

  lemma NothingHeld()
    ensures 0 < Pow2(32) && 0 == 0 * Pow2(24)
  {
  }

  lemma PadLength(n: nat, k: nat, n': nat, k': nat)
    requires n <= 7 && n' <= 7 && 8 * k' + n' == 8 * k + n + 7
    ensures n' == 7 - (8 - n) % 8
  {
  }

  lemma Cut(w: seq<bool>, pad: nat, x: seq<bool>, y: seq<bool>)
    requires pad <= 7 && w + seq(7, _ => true) == x + y && |x| == |w| + pad
    ensures x == w + seq(pad, _ => true)
  {
    assert x == (x + y)[..|w| + pad];
  }

  lemma Ones()
    ensures BitsOf(0x7F % Pow2(7), 7) == seq(7, _ => true)
  {
    assert Pow2(7) == 128;
    assert BitsOf(127, 7) == BitsOf(63, 6) + [true] && BitsOf(63, 6) == BitsOf(31, 5) + [true];
    assert BitsOf(31, 5) == BitsOf(15, 4) + [true] && BitsOf(15, 4) == BitsOf(7, 3) + [true];
    assert BitsOf(7, 3) == BitsOf(3, 2) + [true] && BitsOf(3, 2) == BitsOf(1, 1) + [true];
    assert BitsOf(1, 1) == BitsOf(0, 0) + [true];
  }

  lemma AlignedOr(w: nat, k: nat, c: nat, n: nat)
    requires k + n <= 24 && k <= 7 && w * Pow2(24 - k) < Pow2(32) && c < Pow2(n)
    ensures c * Pow2(24 - (k + n)) + w * Pow2(24 - k) == (w * Pow2(n) + c) * Pow2(24 - (k + n))
    ensures c * Pow2(24 - (k + n)) + w * Pow2(24 - k) < Pow2(32)
  {
    hide Pow2;
    var m := 24 - (k + n);
    Pow2Add(n, m);
    Distribute(w, Pow2(n), c, Pow2(m));
    assert n + m == 24 - k;
    RoomBelow(w, c * Pow2(m), 24 - k, 32);
    MulOrder(c, Pow2(n), Pow2(m));
  }

  /** Adding less than one unit to a multiple of the unit does not reach the next power. */
  lemma RoomBelow(w: nat, x: nat, j: nat, n: nat)
    requires j <= n && w * Pow2(j) < Pow2(n)
    ensures x < Pow2(j) ==> w * Pow2(j) + x < Pow2(n)
  {
    hide Pow2;
    Pow2Add(n - j, j);
    if x < Pow2(j) { Room(w, x, Pow2(j), Pow2(n - j)); }
  }

  lemma Room(w: nat, x: nat, p: nat, q: nat)
    requires w * p < q * p && x < p
    ensures w * p + x < q * p
  {
    if q <= w { MulOrder(q, w, p); }
    MulOrder(w + 1, q, p);
    assert (w + 1) * p == w * p + p;
  }

  lemma TopByte(w: nat, k: nat)
    requires 8 <= k <= 24
    ensures var c := Shr(w * Pow2(24 - k), 16) % 0x100;
      BitsOf(w, k) == BitsOf(c, 8) + BitsOf(w, k - 8)
  {
    hide Pow2, BitsOf, Shr;
    Pow2Values();
    ShrShl(w, 24 - k, k - 8);
    assert 24 - k + (k - 8) == 16;
    BitsShr(w, 8, k - 8);
    LowBits(Shr(w, k - 8), 8);
  }

  lemma {:induction false} ShrShl(w: nat, j: nat, k: nat)
    ensures Shr(w * Pow2(j), j + k) == Shr(w, k)
    decreases j
  {
    ShrAdd(w * Pow2(j), j, k);
    ShrUnique(w * Pow2(j), j, w);
  }

  lemma Truncate(w: nat, k: nat)
    requires 8 <= k <= 24
    ensures w * Pow2(24 - k) * 0x100 % Pow2(32) == w % Pow2(k) * Pow2(24 - (k - 8))
    ensures w % Pow2(k) * Pow2(24 - (k - 8)) < Pow2(32)
    ensures BitsOf(w % Pow2(k), k - 8) == BitsOf(w, k - 8)
  {
    hide Pow2, BitsOf;
    var m := 32 - k;
    Pow2Add(k, m);
    Pow2Add(24 - k, 8);
    Pow2Values();
    assert 24 - k + 8 == m && 24 - (k - 8) == m;
    assert w * Pow2(24 - k) * 0x100 == w * Pow2(m) by { assert Pow2(m) == Pow2(24 - k) * 0x100; }
    var q := DivMod(w, Pow2(k));
    var r := w % Pow2(k);
    MulOrder(r, Pow2(k), Pow2(m));
    Distribute(q, Pow2(k), r, Pow2(m));
    ModAbove(q, Pow2(32), r * Pow2(m));
    LowBits(w, k - 8);
    LowBits(r, k - 8);
    Pow2Add(k - 8, 8);
    Distribute(q, 0x100, 0, Pow2(k - 8));
    BitsDrop(q * 0x100, r, k - 8);
  }

  lemma ModAbove(q: nat, p: nat, r: nat)
    requires r < p
    ensures (q * p + r) % p == r
  {
    var q' := DivMod(q * p + r, p);
    Squeeze(q * p + r, p, q, q');
  }
}
