/** DC refinement scans of a progressive file with Huffman coding: one raw bit for each block, no
    symbols and no tables. */
module DcRefine {
  import opened Radix
  import opened Bits
  import opened ByteStream
  import opened Blocks
  import opened DcBits
  import opened HuffTokens
  import opened BitIo
  import opened HuffSegment

  /** The bit that is sent of a DC value. */
  function Number(v: int, al: nat): nat { ShiftRight(v, al) % 2 }

  function BlockBits(v: int, al: nat): seq<Token> { Raws(BitsOf(Number(v, al), 1)) }

  /** What is sent of blocks i, i + 1, ... */
  function BitTokens(srcs: seq<Block>, al: nat, i: nat): seq<Token>
    requires i <= |srcs|
    decreases |srcs| - i
  {
    if i == |srcs| then [] else BlockBits(srcs[i][0], al) + BitTokens(srcs, al, i + 1)
  }

  /** The blocks of all MCUs, one after the other. */
  method EncodeScan(sink: Sink, al: nat, srcs: seq<Block>)
    requires sink.Valid()
    modifies sink, sink.w
    ensures sink.Valid() && sink.sent == old(sink.sent) + BitTokens(srcs, al, 0)
  {
    hide Sink.Valid, BlockBits, ShiftRight;
    ghost var sent, x, total := sink.sent, [], BitTokens(srcs, al, 0);
    EmptySides(sent);
    EmptySides(total);
    for i := 0 to |srcs|
      invariant sink.Valid() && sink.sent == sent + x && x + BitTokens(srcs, al, i) == total
    {
      SentBits(srcs[i][0], al);
      var _ := sink.EmitBits(ShiftRight(srcs[i][0], al), 1);
      Concat(sent, x, BlockBits(srcs[i][0], al));
      Concat(x, BlockBits(srcs[i][0], al), BitTokens(srcs, al, i + 1));
      x := x + BlockBits(srcs[i][0], al);
    }
    EmptySides(x);
  }

  lemma SentBits(v: int, al: nat)
    ensures Raws(BitsOf(ShiftRight(v, al) % Pow2(1), 1)) == BlockBits(v, al)
  {
    hide ShiftRight, BitsOf, Raws;
    assert Pow2(1) == 2;
  }

  /** The decoder sets a bit where it was told to; whatever the value was, it reads one bit. */
  method DecodeScan(r: BitReader, al: nat, olds: seq<Block>, ghost srcs: seq<Block>, ghost tail: seq<bool>) returns (got: seq<Block>)
    requires r.Valid() && r.Supplied() && |olds| == |srcs| && Follows(r, [], BitTokens(srcs, al, 0), tail)
    modifies r
    ensures r.Valid() && Follows(r, [], [], tail)
    ensures |got| == |srcs| && forall i :: 0 <= i < |srcs| ==> got[i] == olds[i][0 := WithBit(olds[i][0], DcBit(srcs[i][0], al), al)]
  {
    hide BitReader.Valid, BitReader.Supplied, Follows, BlockBits, WithBit, DcBit;
    got := [];
    for i := 0 to |olds|
      invariant r.Valid() && r.Supplied() && Follows(r, [], BitTokens(srcs, al, i), tail)
      invariant |got| == i && forall j :: 0 <= j < i ==> got[j] == olds[j][0 := WithBit(olds[j][0], DcBit(srcs[j][0], al), al)]
    {
      AsBits(srcs[i][0], al);
      var ok, bit := NextBits(r, 1, [], Number(srcs[i][0], al), BitTokens(srcs, al, i + 1), tail);
      WithRange(olds[i][0], bit == 1, al);
      got := got + [olds[i][0 := WithBit(olds[i][0], bit == 1, al)]];
    }
  }

  lemma AsBits(v: int, al: nat)
    ensures BlockBits(v, al) == Raws(BitsOf(Number(v, al), 1)) && Number(v, al) < Pow2(1)
    ensures (Number(v, al) == 1) == DcBit(v, al)
  {
    hide ShiftRight, BitsOf, Raws;
    assert Pow2(1) == 2;
  }

  lemma WithRange(c: int, bit: bool, al: nat)
    requires -0x8000 <= c < 0x8000
    ensures -0x8000 <= WithBit(c, bit, al) < 0x8000
  {
  }

  /** A DC refinement scan of any blocks: each gets its bit. */
  method DcRefineRoundTrip(al: nat, srcs: seq<Block>, olds: seq<Block>, marker: seq<byte>) returns (got: seq<Block>)
    requires |olds| == |srcs| && IsMarker(marker)
    ensures |got| == |srcs| && forall i :: 0 <= i < |srcs| ==> got[i] == olds[i][0 := WithBit(olds[i][0], DcBit(srcs[i][0], al), al)]
  {
    hide BitTokens, Sink.Valid, Stuff, ByteBits, StreamBits, Sendable, Follows, WithBit, DcBit, IsMarker;
    var sink := new Sink.Output([], []);
    EncodeScan(sink, al, srcs);
    EmptySides(BitTokens(srcs, al, 0));
    var bytes, data, pad := CloseSegment(sink);
    var r := OpenSegment(bytes + marker, data, [], sink.sent, pad);
    FollowsStart(r, [], sink.sent, pad);
    got := DecodeScan(r, al, olds, srcs, pad);
  }
}
