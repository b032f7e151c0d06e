/** A whole sequential scan, or first DC scan, of Huffman-coded MCUs: gathering statistics,
    encoding, packing into stuffed bytes, and decoding again. */
module HuffScan {
  import opened Radix
  import opened Bits
  import opened ByteStream
  import opened Blocks
  import HuffCode
  import opened HuffDecode
  import opened HuffTables
  import opened HuffTokens
  import opened BitIo
  import opened HuffSegment
  import opened EobRuns
  import opened HuffBlock
  import opened HuffMcuEncoder
  import opened HuffGather
  import opened HuffMcuDecoder

  function NoDc(scan: Scan): seq<int> { seq(|scan.dcTab|, _ => 0) }

  method EncodeScan(sink: Sink, scan: Scan, mcus: seq<seq<Block>>) returns (ok: bool)
    requires sink.Valid() && ScanOk(scan, |sink.tabs|) && McusOk(scan, mcus)
    modifies sink, sink.w
    ensures var n, xs := |sink.tabs|, ScanTokens(scan, |sink.tabs|, 0, mcus, NoDc(scan));
      && ok == (ScanInRange(scan, n, 0, mcus, NoDc(scan)) && sink.Can(xs))
      && (ok ==> sink.Valid() && sink.sent == old(sink.sent) + xs)
  {
    hide Sink.Valid, Sink.Can, McuTokens, McuInRange, McuLast, ScanOk;
    var saved := new Saved(|scan.dcTab|);
    ghost var n, sent := |sink.tabs|, sink.sent;
    ghost var total, x: seq<Token> := ScanTokens(scan, n, 0, mcus, NoDc(scan)), [];
    EmptySides(total);
    EmptySides(sent);
    for i := 0 to |mcus|
      invariant SentTo(sink, sent, x) && LastOk(scan, saved.lastDcVal)
      invariant x + ScanTokens(scan, n, i, mcus, saved.lastDcVal) == total
      invariant ScanInRange(scan, n, i, mcus, saved.lastDcVal) == ScanInRange(scan, n, 0, mcus, NoDc(scan))
    {
      ghost var lasts := saved.lastDcVal;
      ghost var y := McuTokens(scan, n, 0, mcus[i], lasts);
      ghost var rest := ScanTokens(scan, n, i + 1, mcus, McuLast(scan, n, 0, mcus[i], lasts));
      ok := EncodeMcu(sink, scan, mcus[i], saved);
      if !ok {
        CanSplit(sink, x, y + rest);
        CanSplit(sink, y, rest);
        return;
      }
      Concat(sent, x, y);
      Concat(x, y, rest);
      x := x + y;
    }
    EmptySides(x);
    SentCan(sink, sent, x);
    ok := true;
  }

  /** The statistics pass over one segment: the count of every symbol grows by the number of times
      the output pass sends it, and the range check has the same outcome. */
  method GatherSegment(counts: seq<array<nat>>, scan: Scan, mcus: seq<seq<Block>>) returns (ok: bool)
    requires Counters(counts) && ScanOk(scan, |counts|) && McusOk(scan, mcus) && scan.al == 0
    modifies set a | a in counts
    ensures ok == ScanInRange(scan, |counts|, 0, mcus, NoDc(scan))
    ensures ok ==> AllCounts(counts, seq(|counts|, t requires 0 <= t < |counts| => old(counts[t][..])),
      ScanTokens(scan, |counts|, 0, mcus, NoDc(scan)))
  {
    hide McuTokens, McuInRange, McuLast, ScanOk, Counts, Count;
    ghost var n := |counts|;
    var saved := new Saved(|scan.dcTab|);
    ghost var first := seq(n, t requires 0 <= t < n => old(counts[t][..]));
    ghost var total, x: seq<Token> := ScanTokens(scan, n, 0, mcus, NoDc(scan)), [];
    EmptySides(total);
    forall t | 0 <= t < n ensures Counts(counts[t][..], first[t], t, []) { CountsStart(first[t], t); }
    for i := 0 to |mcus|
      invariant AllCounts(counts, first, x) && LastOk(scan, saved.lastDcVal)
      invariant x + ScanTokens(scan, n, i, mcus, saved.lastDcVal) == total
      invariant ScanInRange(scan, n, i, mcus, saved.lastDcVal) == ScanInRange(scan, n, 0, mcus, NoDc(scan))
    {
      ghost var lasts, before := saved.lastDcVal, seq(n, t requires 0 <= t < n reads counts => counts[t][..]);
      ghost var y := McuTokens(scan, n, 0, mcus[i], lasts);
      ghost var rest := ScanTokens(scan, n, i + 1, mcus, McuLast(scan, n, 0, mcus[i], lasts));
      ok := EncodeMcuGather(counts, scan, mcus[i], saved);
      if !ok { return; }
      forall t | 0 <= t < n ensures Counts(counts[t][..], first[t], t, x + y) {
        CountsTwice(first[t], before[t], counts[t][..], t, x, y);
      }
      Concat(x, y, rest);
      x := x + y;
    }
    EmptySides(x);
    ok := true;
  }

  // ---- Restart intervals ----

  predicate SegmentsOk(scan: Scan, segments: seq<seq<seq<Block>>>) {
    forall k :: 0 <= k < |segments| ==> McusOk(scan, segments[k])
  }

  /** The tokens of the first k segments; each starts with predictions of 0. */
  function SegmentTokens(scan: Scan, n: nat, segments: seq<seq<seq<Block>>>, k: nat): seq<Token>
    requires ScanOk(scan, n) && SegmentsOk(scan, segments) && k <= |segments|
  {
    if k == 0 then []
    else SegmentTokens(scan, n, segments, k - 1) + ScanTokens(scan, n, 0, segments[k - 1], NoDc(scan))
  }

  predicate SegmentsInRange(scan: Scan, n: nat, segments: seq<seq<seq<Block>>>, k: nat)
    requires ScanOk(scan, n) && SegmentsOk(scan, segments) && k <= |segments|
  {
    forall j :: 0 <= j < k ==> ScanInRange(scan, n, 0, segments[j], NoDc(scan))
  }

  /** The statistics pass over all segments of a scan, with one set of counts. */
  method GatherScan(n: nat, scan: Scan, segments: seq<seq<seq<Block>>>) returns (ok: bool, counts: seq<array<nat>>)
    requires ScanOk(scan, n) && SegmentsOk(scan, segments) && scan.al == 0
    ensures ok == SegmentsInRange(scan, n, segments, |segments|)
    ensures Counters(counts) && |counts| == n && fresh(set a | a in counts)
    ensures ok ==> forall t, s: byte :: 0 <= t < n ==> counts[t][s] == Count(SegmentTokens(scan, n, segments, |segments|), t, s)
  {
    hide ScanTokens, ScanInRange, ScanOk, Counts, Count;
    counts := NewCounters(n);
    ghost var zero := seq(n, _ => seq(257, _ => 0));
    forall t | 0 <= t < n ensures Counts(counts[t][..], zero[t], t, []) { CountsStart(zero[t], t); }
    for k := 0 to |segments|
      invariant Counters(counts) && AllCounts(counts, zero, SegmentTokens(scan, n, segments, k))
      invariant SegmentsInRange(scan, n, segments, k)
    {
      ghost var before := seq(n, t requires 0 <= t < n reads counts => counts[t][..]);
      ghost var x, y := SegmentTokens(scan, n, segments, k), ScanTokens(scan, n, 0, segments[k], NoDc(scan));
      ok := GatherSegment(counts, scan, segments[k]);
      if !ok { return; }
      forall t | 0 <= t < n ensures Counts(counts[t][..], zero[t], t, x + y) {
        CountsTwice(zero[t], before[t], counts[t][..], t, x, y);
      }
    }
    ok := true;
    ghost var all := SegmentTokens(scan, n, segments, |segments|);
    forall t, s: byte | 0 <= t < n ensures counts[t][s] == Count(all, t, s) { FromZero(counts[t][..], zero[t], t, all, s); }
  }

  /** In a progressive file the encoding routine itself counts, without output. */
  method GatherFirst(n: nat, scan: Scan, segments: seq<seq<seq<Block>>>) returns (ok: bool, counts: seq<array<nat>>)
    requires ScanOk(scan, n) && SegmentsOk(scan, segments)
    ensures ok == SegmentsInRange(scan, n, segments, |segments|)
    ensures Counters(counts) && |counts| == n && fresh(set a | a in counts)
    ensures ok ==> forall t, s: byte :: 0 <= t < n ==> counts[t][s] == Count(SegmentTokens(scan, n, segments, |segments|), t, s)
  {
    hide ScanTokens, ScanInRange, ScanOk, Count, Sink.Valid;
    counts := NewCounters(n);
    ghost var none: HuffCode.Table := HuffCode.HuffTbl(seq(17, _ => 0), seq(256, _ => 0));
    var sink := new Sink.Gather(seq(n, _ => none), n);
    for k := 0 to |segments|
      invariant sink.Valid() && sink.gather && fresh(sink) && fresh(sink.w) && |sink.tabs| == n
      invariant sink.sent == SegmentTokens(scan, n, segments, k) && SegmentsInRange(scan, n, segments, k)
    {
      ok := EncodeScan(sink, scan, segments[k]);
      if !ok { return; }
    }
    ok := true;
    SinkSizes(sink);
    counts := AsArrays(sink.counts);
    SinkCounts(sink, counts);
  }

  method AsArrays(c: seq<seq<nat>>) returns (counts: seq<array<nat>>)
    requires forall t :: 0 <= t < |c| ==> |c[t]| == 257
    ensures |counts| == |c| && Counters(counts) && fresh(set a | a in counts)
    ensures forall t :: 0 <= t < |c| ==> counts[t][..] == c[t]
  {
    counts := [];
    for i := 0 to |c|
      invariant |counts| == i && Counters(counts) && fresh(set a | a in counts)
      invariant forall t :: 0 <= t < i ==> allocated(counts[t]) && counts[t][..] == c[t]
    {
      var a := new nat[257](k requires 0 <= k < 257 => c[i][k]);
      assert a[..] == c[i];
      counts := counts + [a];
    }
  }

  lemma SinkSizes(sink: Sink)
    requires sink.Valid() && sink.gather
    ensures |sink.counts| == |sink.tabs| && forall t :: 0 <= t < |sink.counts| ==> |sink.counts[t]| == 257
  {
    hide Count;
  }

  lemma SinkCounts(sink: Sink, counts: seq<array<nat>>)
    requires sink.Valid() && sink.gather && |counts| == |sink.counts| && forall t :: 0 <= t < |counts| ==> counts[t][..] == sink.counts[t]
    ensures forall t, s: byte :: 0 <= t < |counts| ==> counts[t].Length == 257 && counts[t][s] == Count(sink.sent, t, s)
  {
    hide Count;
    forall t, s: byte | 0 <= t < |counts| ensures counts[t].Length == 257 && counts[t][s] == Count(sink.sent, t, s) {
      assert counts[t][..][s] == sink.counts[t][s];
    }
  }

  lemma FromZero(now: seq<nat>, zero: seq<nat>, t: nat, x: seq<Token>, s: byte)
    requires Counts(now, zero, t, x) && zero[s] == 0
    ensures now[s] == Count(x, t, s)
  {
  }

  method NewCounters(n: nat) returns (counts: seq<array<nat>>)
    ensures |counts| == n && Counters(counts) && fresh(set a | a in counts)
    ensures forall t :: 0 <= t < n ==> counts[t][..] == seq(257, _ => 0)
  {
    counts := [];
    for i := 0 to n
      invariant |counts| == i && Counters(counts) && fresh(set a | a in counts)
      invariant forall t :: 0 <= t < i ==> allocated(counts[t]) && counts[t][..] == seq(257, _ => 0)
    {
      var a := new nat[257](_ => 0);
      assert a[..] == seq(257, _ => 0);
      counts := counts + [a];
    }
  }

  /** Tables with a code for every symbol that was counted suffice for the output pass: the
      missing-code error cannot occur. */
  lemma CountedSuffices(tabs: seq<HuffCode.Table>, xs: seq<Token>)
    requires forall t :: 0 <= t < |tabs| ==> Good(tabs[t])
    requires forall x :: x in xs && x.Sym? ==> x.tab < |tabs|
    requires forall t, s: byte :: 0 <= t < |tabs| && Count(xs, t, s) > 0 ==> HasCode(tabs[t], s)
    ensures AllSendable(tabs, xs)
  {
    hide Good, HasCode, Count;
    forall x | x in xs ensures Sendable(tabs, x) {
      if x.Sym? { CountedIsSent(xs, x.tab, x.s); }
    }
  }

  // ---- Decoding ----

  /** Every block of the MCU, in zigzag order, is there as far as it was asked for. */
  ghost predicate McuGot(scan: Scan, limits: seq<nat>, got: seq<seq<int>>, mcu: seq<Block>) {
    |got| == |mcu| == |limits| && forall b :: 0 <= b < |mcu| ==> Got(got[b], scan, mcu[b], Zeros(), limits[b])
  }

  method DecodeOne(r: BitReader, d: seq<DTable>, scan: Scan, limits: seq<nat>, saved: Saved,
                   ghost needed: seq<bool>, ghost tabs: seq<HuffCode.Table>, ghost mcu: seq<Block>, ghost lasts: seq<int>,
                   ghost rest: seq<Token>, ghost tail: seq<bool>)
      returns (got: seq<seq<int>>)
    requires r.Valid() && r.Supplied() && Matching(d, tabs) && ScanOk(scan, |d|) && LastOk(scan, saved.lastDcVal) && LastOk(scan, lasts)
    requires LimitsOk(scan, limits, needed) && CategoryTables(scan, tabs) && |mcu| == |scan.membership|
    requires McuInRange(scan, |d|, 0, mcu, lasts) && Agree(saved.lastDcVal, lasts, needed)
    requires Follows(r, tabs, McuTokens(scan, |d|, 0, mcu, lasts) + rest, tail)
    modifies r, saved
    ensures r.Valid() && r.Supplied() && LastOk(scan, saved.lastDcVal)
    ensures Follows(r, tabs, rest, tail) && Agree(saved.lastDcVal, McuLast(scan, |d|, 0, mcu, lasts), needed)
    ensures McuGot(scan, limits, got, mcu)
  {
    assert |d| == |tabs|;
    hide BitReader.Valid, BitReader.Supplied, Follows, Matching, McuTokens, McuInRange, McuLast, Got, CategoryTables, Agree, Zag;
    var blocks := NewBlocks(|scan.membership|);
    assert forall b :: 0 <= b < |blocks| ==> Zag(blocks[b], scan.order) == Zeros();
    var _ := DecodeMcu(r, d, scan, blocks, limits, saved, needed, tabs, mcu, lasts, rest, tail);
    got := Collect(blocks, scan.order);
  }

  method DecodeScan(r: BitReader, d: seq<DTable>, scan: Scan, limits: seq<nat>, n: nat, ghost needed: seq<bool>,
                    ghost tabs: seq<HuffCode.Table>, ghost mcus: seq<seq<Block>>, ghost tail: seq<bool>)
      returns (got: seq<seq<seq<int>>>)
    requires r.Valid() && r.Supplied() && Matching(d, tabs) && ScanOk(scan, |d|) && McusOk(scan, mcus) && |mcus| == n
    requires LimitsOk(scan, limits, needed) && CategoryTables(scan, tabs)
    requires ScanInRange(scan, |d|, 0, mcus, NoDc(scan))
    requires Follows(r, tabs, ScanTokens(scan, |d|, 0, mcus, NoDc(scan)), tail)
    modifies r
    ensures r.Valid() && Follows(r, tabs, [], tail)
    ensures |got| == n && forall i :: 0 <= i < n ==> McuGot(scan, limits, got[i], mcus[i])
  {
    hide BitReader.Valid, BitReader.Supplied, Follows, Matching, McuTokens, McuInRange, McuLast, McuGot, CategoryTables, LimitsOk;
    ghost var lasts := NoDc(scan);
    var saved := new Saved(|scan.dcTab|);
    AgreeStart(scan, limits, needed);
    got := [];
    for i := 0 to n
      invariant r.Valid() && r.Supplied() && LastOk(scan, saved.lastDcVal) && LastOk(scan, lasts)
      invariant Agree(saved.lastDcVal, lasts, needed) && ScanInRange(scan, |d|, i, mcus, lasts)
      invariant Follows(r, tabs, ScanTokens(scan, |d|, i, mcus, lasts), tail)
      invariant |got| == i && forall j :: 0 <= j < i ==> McuGot(scan, limits, got[j], mcus[j])
    {
      ghost var next := McuLast(scan, |d|, 0, mcus[i], lasts);
      var mcu := DecodeOne(r, d, scan, limits, saved, needed, tabs, mcus[i], lasts, ScanTokens(scan, |d|, i + 1, mcus, next), tail);
      got := got + [mcu];
      lasts := next;
    }
  }

  lemma AgreeStart(scan: Scan, limits: seq<nat>, needed: seq<bool>)
    requires LimitsOk(scan, limits, needed)
    ensures Agree(NoDc(scan), NoDc(scan), needed)
  {
  }

  /** Encoding a scan, packing it into bytes and decoding it again gives every block back, as far
      as it is asked for; nothing is left but the padding of the last byte, and no zeros have been
      made up.  It fails exactly when a coefficient is out of range or a symbol has no code. */
  method SequentialRoundTrip(scan: Scan, limits: seq<nat>, ct: seq<CTable>, d: seq<DTable>, mcus: seq<seq<Block>>, marker: seq<byte>,
                             ghost needed: seq<bool>, ghost tabs: seq<HuffCode.Table>)
      returns (ok: bool, bytes: seq<byte>, got: seq<seq<seq<int>>>)
    requires ScanOk(scan, |tabs|) && McusOk(scan, mcus) && LimitsOk(scan, limits, needed) && IsMarker(marker)
    requires Matching(d, tabs) && |ct| == |tabs| && forall t :: 0 <= t < |tabs| ==> Encodes(ct[t], tabs[t], |Szs(tabs[t])|)
    requires CategoryTables(scan, tabs)
    ensures ok == (ScanInRange(scan, |tabs|, 0, mcus, NoDc(scan)) && AllSendable(tabs, ScanTokens(scan, |tabs|, 0, mcus, NoDc(scan))))
    ensures ok ==> |got| == |mcus| && forall i :: 0 <= i < |mcus| ==> McuGot(scan, limits, got[i], mcus[i])
    ensures forall i :: 0 <= i < |bytes| && bytes[i] == 0xFF ==> i + 1 < |bytes| && bytes[i + 1] == 0
  {
    hide Derived, Good, Encodes, Sink.Valid, Stuff, ByteBits, StreamBits, ScanTokens, ScanInRange, McuGot, LimitsOk,
      ScanOk, CategoryTables, Categories, Follows, Sendable;
    bytes, got := [], [];
    var sink := new Sink.Output(tabs, ct);
    ok := EncodeScan(sink, scan, mcus);
    if !ok { return; }
    EmptySides(ScanTokens(scan, |tabs|, 0, mcus, NoDc(scan)));
    ghost var data, pad;
    bytes, data, pad := CloseSegment(sink);
    var r := OpenSegment(bytes + marker, data, tabs, sink.sent, pad);
    FollowsStart(r, tabs, sink.sent, pad);
    got := DecodeScan(r, d, scan, limits, |mcus|, needed, tabs, mcus, pad);
    forall i | 0 <= i < |bytes| && bytes[i] == 0xFF ensures i + 1 < |bytes| && bytes[i + 1] == 0 { StuffedFF(data, i); }
  }

  /** A sequential scan loses nothing: all 64 coefficients come back as they were. */
  lemma Exact(scan: Scan, now: seq<int>, want: Block, k: nat)
    requires scan.se == 63 && scan.al == 0 && k < 64 && Got(now, scan, want, Zeros(), 64)
    ensures |now| == 64 && now[k] == want[scan.order[k]]
  {
    assert Pow2(0) == 1;
    assert now == Target(scan, want, Zeros(), 64);
  }

  /** A first DC scan keeps the value of the DC coefficient down to the low bit position. */
  lemma DcKept(scan: Scan, now: seq<int>, want: Block)
    requires scan.se == 0 && scan.al <= 13 && Got(now, scan, want, Zeros(), 1)
    ensures |now| == 64 && now[0] == ShiftRight(want[0], scan.al) * Pow2(scan.al) && 0 <= want[0] - now[0] < Pow2(scan.al)
  {
    hide Pow2;
    var p, w := Pow2(scan.al), Pow2(15 - scan.al);
    Pow2Add(scan.al, 15 - scan.al);
    Pow2Values();
    ShiftBack(want[0], p, w);
    assert now == Target(scan, want, Zeros(), 1);
  }

  lemma ShiftBack(v: int, p: nat, w: nat)
    requires 0 < p && p * w == 0x8000 && -0x8000 <= v < 0x8000
    ensures -0x8000 <= v / p * p <= v < v / p * p + p
  {
    var q := v / p;
    assert v == p * q + v % p;
    if q + w < 0 { MulOrder(w + 1, -q, p); }
  }
}
