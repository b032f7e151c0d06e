/** An entropy-coded segment: the bits of a scan as stuffed bytes in front of a marker. */
module HuffSegment {
  import opened Radix
  import opened Bits
  import opened ByteStream
  import HuffCode
  import opened HuffTokens
  import opened BitIo
  import opened TokenStream

  /** Padding of the last byte. */
  predicate Padding(pad: seq<bool>) {
    |pad| <= 7 && forall i :: 0 <= i < |pad| ==> pad[i]
  }

  /** Write out what is left of the segment, and give its bytes. */
  method CloseSegment(sink: Sink) returns (bytes: seq<byte>, ghost data: seq<byte>, ghost pad: seq<bool>)
    requires sink.Valid() && !sink.gather
    modifies sink.w
    ensures bytes == Stuff(data) && Padding(pad)
    ensures AllSendable(sink.tabs, sink.sent) && ByteBits(data) == StreamBits(sink.tabs, sink.sent) + pad
  {
    hide StreamBits, Sendable, ByteBits, BitsOf, Pow2;
    pad := seq((8 - sink.w.putBits) % 8, _ => true);
    sink.w.Flush();
    bytes := sink.w.out;
    data := sink.w.data;
  }

  /** Start reading a segment: its tokens come back, and then the padding. */
  method OpenSegment(bytes: seq<byte>, ghost data: seq<byte>, ghost tabs: seq<HuffCode.Table>, ghost xs: seq<Token>, ghost pad: seq<bool>)
      returns (r: BitReader)
    requires exists tail :: IsMarker(tail) && bytes == Stuff(data) + tail
    requires AllSendable(tabs, xs) && ByteBits(data) == StreamBits(tabs, xs) + pad
    ensures fresh(r) && r.Valid() && r.Supplied() && !r.insufficientData && r.unreadMarker == 0
    ensures r.Bits() == ByteBits(data) && On(r.Bits(), 0, tabs, xs, pad)
  {
    hide StreamBits, Sendable, ByteBits, Pow2, Stuff, IsMarker, Terminated, DataOf;
    ghost var tail :| IsMarker(tail) && bytes == Stuff(data) + tail;
    Unstuff(data, tail);
    Empty();
    r := new BitReader(0, 0, 0, bytes, bytes);
    assert r.Bits() == [] + ByteBits(data);
    assert r.Bits()[0..] == r.Bits();
  }

  lemma Empty()
    ensures 0 < Pow2(32) && BitsOf(0, 0) == []
  {
  }

  lemma FollowsStart(r: BitReader, tabs: seq<HuffCode.Table>, xs: seq<Token>, pad: seq<bool>)
    requires r.Valid() && !r.insufficientData && On(r.Bits(), 0, tabs, xs, pad)
    ensures Follows(r, tabs, xs, pad)
  {
    assert r.Bits()[0..] == r.Bits();
  }
}
