/** Optimized coding of a scan: a first pass over the data gathers statistics, tables are made
    for them, and the second pass encodes with these tables. */
module TwoPass {
  import opened Radix
  import opened ByteStream
  import opened Blocks
  import opened HuffCode
  import opened HuffDecode
  import opened HuffTables
  import opened HuffTokens
  import opened HuffBlock
  import opened HuffGather
  import opened HuffMcuDecoder
  import opened HuffScan
  import HuffmanSums
  import SymbolList
  import opened OptimalTable
  import opened SymbolUse

  /** All that the output pass sends, over all restart intervals. */
  function TheTokens(scan: Scan, n: nat, segments: seq<seq<seq<Block>>>): seq<Token>
    requires ScanOk(scan, n) && SegmentsOk(scan, segments)
  {
    SegmentTokens(scan, n, segments, |segments|)
  }

  /** There is something to code, for every component. */
  predicate NotEmpty(scan: Scan, segments: seq<seq<seq<Block>>>) {
    Present(scan) && exists k :: 0 <= k < |segments| && segments[k] != []
  }

  predicate AllCountable(scan: Scan, n: nat, segments: seq<seq<seq<Block>>>)
    requires ScanOk(scan, n) && SegmentsOk(scan, segments)
  {
    forall t :: 0 <= t < n && Needed(scan, t) ==> Countable(Uses(TheTokens(scan, n, segments), t))
  }

  predicate AllAccepted(scan: Scan, n: nat, segments: seq<seq<seq<Block>>>)
    requires ScanOk(scan, n) && SegmentsOk(scan, segments)
  {
    forall t :: 0 <= t < n && Needed(scan, t) ==> Accepted(Uses(TheTokens(scan, n, segments), t))
  }

  /** Fewer than nine million symbols for every table are never too many. */
  lemma FewSuffice(scan: Scan, n: nat, segments: seq<seq<seq<Block>>>)
    requires ScanOk(scan, n) && SegmentsOk(scan, segments) && AllFew(scan, n, segments)
    ensures AllAccepted(scan, n, segments)
  {
    hide TheTokens, Needed, Uses, Few, Accepted;
    forall t | 0 <= t < n && Needed(scan, t) ensures Accepted(Uses(TheTokens(scan, n, segments), t)) {
      FewAccepted(Uses(TheTokens(scan, n, segments), t));
    }
  }

  predicate AllFew(scan: Scan, n: nat, segments: seq<seq<seq<Block>>>)
    requires ScanOk(scan, n) && SegmentsOk(scan, segments)
  {
    forall t :: 0 <= t < n && Needed(scan, t) ==> Few(Uses(TheTokens(scan, n, segments), t))
  }

  /** What suffices for all segments suffices for each of them. */
  lemma {:induction false} EachSendable(scan: Scan, n: nat, segments: seq<seq<seq<Block>>>, tabs: seq<Table>, k: nat, j: nat)
    requires ScanOk(scan, n) && SegmentsOk(scan, segments) && j < k <= |segments|
    requires AllSendable(tabs, SegmentTokens(scan, n, segments, k))
    ensures AllSendable(tabs, ScanTokens(scan, n, 0, segments[j], NoDc(scan)))
  {
    hide ScanTokens, ScanOk, Sendable;
    StreamAppend(tabs, SegmentTokens(scan, n, segments, k - 1), ScanTokens(scan, n, 0, segments[k - 1], NoDc(scan)));
    if j < k - 1 { EachSendable(scan, n, segments, tabs, k - 1, j); }
  }

  // ---- Tables for a scan ----

  /** The table serves the uses of table t. */
  ghost predicate Serves(ct: CTable, d: DTable, t: Table, uses: seq<nat>, isDC: bool) {
    && Good(t) && Encodes(ct, t, |Szs(t)|) && Derived(d) && d.pub == t && (isDC ==> Categories(t))
    && |uses| == 257 && forall s: byte :: uses[s] > 0 ==> HasCode(t, s)
  }

  /** jpeg_gen_optimal_table, and the tables derived from its result on both sides. */
  method MakeTables(counts: array<nat>, isDC: bool, ghost uses: seq<nat>) returns (ok: bool, ct: CTable, d: DTable, t: Table)
    requires counts.Length == 257 == |uses| && Moderate(uses) && forall s :: 0 <= s < 256 ==> counts[s] == uses[s]
    requires isDC ==> forall s: byte :: uses[s] > 0 ==> s <= 15
    modifies counts
    ensures ok == Accepted(uses)
    ensures ok ==> Serves(ct, d, t, uses, isDC)
  {
    hide HuffmanSums.Sum, HuffmanSums.UsedBelow, Tailored, Derived, Sizes, SymbolList.Sorted;
    ghost var f := counts[..];
    HuffmanSums.SamePrefix(uses, f, 256);
    assert f[256 := 1] == uses[256 := 1];
    ok, t := GenOptimalTable(counts);
    ct, d := CTable([], []), DTable([], [], [], [], t);
    if !ok { return; }
    TailoredServes(t, f[256 := 1], uses, isDC);
    ok, ct := MakeCDerived(t, isDC);
    ok, d := MakeDDerived(t, isDC);
  }

  /** A table that the scan has no use for is left without codes. */
  method NoTables(isDC: bool) returns (ct: CTable, d: DTable, ghost t: Table)
    ensures forall uses: seq<nat> :: |uses| == 257 && (forall s: byte :: uses[s] == 0) ==> Serves(ct, d, t, uses, isDC)
  {
    hide Derived;
    var none := HuffTbl(seq(17, _ => 0), seq(256, _ => 0));
    NoSizes(none.bits, 16);
    var ok;
    ok, ct := MakeCDerived(none, isDC);
    ok, d := MakeDDerived(none, isDC);
    t := none;
  }

  lemma {:induction false} NoSizes(bits: seq<byte>, l: nat)
    requires |bits| == 17 && l <= 16 && forall k :: 0 <= k <= 16 ==> bits[k] == 0
    ensures Sizes(bits, l) == []
  {
    if l > 0 { NoSizes(bits, l - 1); }
  }

  lemma TailoredServes(t: Table, f: seq<nat>, uses: seq<nat>, isDC: bool)
    requires Tailored(t, f) && |uses| == 257 && forall s :: 0 <= s < 256 ==> f[s] == uses[s]
    requires isDC ==> forall s: byte :: uses[s] > 0 ==> s <= 15
    ensures Good(t) && SymbolsOk(t, |Szs(t)|, MaxSymbol(isDC)) && (isDC ==> Categories(t))
    ensures forall s: byte :: uses[s] > 0 ==> HasCode(t, s)
  {
    hide Sizes, Lj, Pow2;
    forall p | 0 <= p < |Szs(t)| ensures uses[t.huffval[p]] > 0 {
      assert t.huffval[p] == t.huffval[..|Szs(t)|][p];
      assert HasCode(t, t.huffval[p]);
    }
  }

  /** What follows a segment: a restart marker, or what ends the scan. */
  function Behind(k: nat, segments: nat, marker: seq<byte>): seq<byte> {
    if k + 1 < segments then [0xFF, 0xD0 + k % 8] else marker
  }

  lemma BehindIsMarker(k: nat, segments: nat, marker: seq<byte>)
    requires IsMarker(marker)
    ensures IsMarker(Behind(k, segments, marker))
  {
    if k + 1 < segments {
      var s := Behind(k, segments, marker);
      assert s[1..] == [0xD0 + k % 8];
      assert SkipFF(s[1..]) == s[1..];
      assert SkipFF(s) == SkipFF(s[1..]);
    }
  }

  ghost predicate SegmentGot(scan: Scan, limits: seq<nat>, got: seq<seq<seq<int>>>, mcus: seq<seq<Block>>) {
    |got| == |mcus| && forall i :: 0 <= i < |mcus| ==> McuGot(scan, limits, got[i], mcus[i])
  }

  /** Two passes over the data, and decoding.  One set of tables serves all restart intervals, and
      from every one of them the decoder gets back what it was asked for.  Optimized coding fails
      exactly if a coefficient is out of range or the counts for a table make a code too long. */
  method OptimizedRoundTrip(scan: Scan, n: nat, progressive: bool, limits: seq<nat>, segments: seq<seq<seq<Block>>>, marker: seq<byte>,
      ghost needed: seq<bool>) returns (ok: bool, got: seq<seq<seq<seq<int>>>>)
    requires ScanOk(scan, n) && SegmentsOk(scan, segments) && LimitsOk(scan, limits, needed) && IsMarker(marker)
    requires !progressive ==> scan.al == 0
    requires NotEmpty(scan, segments) && AllCountable(scan, n, segments)
    ensures ok == (SegmentsInRange(scan, n, segments, |segments|) && AllAccepted(scan, n, segments))
    ensures ok ==> |got| == |segments| && forall k :: 0 <= k < |segments| ==> SegmentGot(scan, limits, got[k], segments[k])
  {
    hide TheTokens, Uses, Serves, ScanInRange, ScanOk, LimitsOk, McuGot, Derived, Good, Encodes, Sizes, Count, IsMarker,
      Behind, SegmentTokens;
    hide Matching, CategoryTables, AllSendable, SegmentGot, AllCountable, AllAccepted, NotEmpty;
    got := [];
    var counts;
    if progressive {
      ok, counts := GatherFirst(n, scan, segments);
    } else {
      ok, counts := GatherScan(n, scan, segments);
    }
    if !ok { return; }
    Gathered(counts, scan, n, segments);
    var cts, ds;
    ghost var tabs;
    ok, cts, ds, tabs := MakeAllTables(counts, scan, n, segments);
    if !ok { return; }
    for k := 0 to |segments|
      invariant ok && |got| == k && forall j :: 0 <= j < k ==> SegmentGot(scan, limits, got[j], segments[j])
    {
      EachSendable(scan, n, segments, tabs, |segments|, k);
      BehindIsMarker(k, |segments|, marker);
      var bytes, back;
      ok, bytes, back := SequentialRoundTrip(scan, limits, cts, ds, segments[k], Behind(k, |segments|, marker), needed, tabs);
      assert SegmentGot(scan, limits, back, segments[k]) by { GotSegment(scan, limits, back, segments[k]); }
      got := got + [back];
    }
  }

  lemma GotSegment(scan: Scan, limits: seq<nat>, got: seq<seq<seq<int>>>, mcus: seq<seq<Block>>)
    requires |got| == |mcus| && forall i :: 0 <= i < |mcus| ==> McuGot(scan, limits, got[i], mcus[i])
    ensures SegmentGot(scan, limits, got, mcus)
  {
    hide McuGot;
  }

  /** finish_pass_gather: the tables that the scan needs. */
  method MakeAllTables(counts: seq<array<nat>>, scan: Scan, n: nat, ghost segments: seq<seq<seq<Block>>>)
      returns (ok: bool, cts: seq<CTable>, ds: seq<DTable>, ghost tabs: seq<Table>)
    requires ScanOk(scan, n) && SegmentsOk(scan, segments) && SegmentsInRange(scan, n, segments, |segments|)
    requires Counters(counts) && |counts| == n
    requires forall u :: 0 <= u < n ==> counts[u][..256] == Uses(TheTokens(scan, n, segments), u)[..256]
    requires NotEmpty(scan, segments) && AllCountable(scan, n, segments)
    modifies set a | a in counts
    ensures ok == AllAccepted(scan, n, segments)
    ensures ok ==> |cts| == |tabs| == n && Matching(ds, tabs) && CategoryTables(scan, tabs)
    ensures ok ==> forall u :: 0 <= u < n ==> Encodes(cts[u], tabs[u], |Szs(tabs[u])|)
    ensures ok ==> AllSendable(tabs, SegmentTokens(scan, n, segments, |segments|))
  {
    hide TheTokens, Moderate, Countable, Accepted, Uses, Serves, ScanInRange, ScanOk, NotEmpty, Needed;
    hide Derived, Good, Encodes, Sizes, Count, SegmentTokens, Matching, CategoryTables, AllSendable;
    ghost var xs := TheTokens(scan, n, segments);
    cts, ds, tabs := [], [], [];
    for t := 0 to n
      invariant |cts| == |ds| == |tabs| == t
      invariant forall u :: 0 <= u < t && Needed(scan, u) ==> Accepted(Uses(xs, u))
      invariant forall u :: 0 <= u < t ==> Serves(cts[u], ds[u], tabs[u], Uses(xs, u), u in scan.dcTab)
      invariant forall u :: t <= u < n ==> counts[u].Length == 257 && counts[u][..256] == Uses(xs, u)[..256]
    {
      var ct, d;
      ghost var table;
      DcUses(scan, n, segments, t);
      Sliced(counts[t][..], Uses(xs, t));
      if Needed(scan, t) {
        NeededModerate(scan, n, segments, t);
        ok, ct, d, table := MakeTables(counts[t], t in scan.dcTab, Uses(xs, t));
        if !ok { return; }
      } else {
        NotNeeded(scan, n, segments, t);
        ct, d, table := NoTables(t in scan.dcTab);
      }
      cts, ds, tabs := cts + [ct], ds + [d], tabs + [table];
    }
    AllServed(scan, n, segments, cts, ds, tabs);
    ok := true;
  }

  lemma NeededModerate(scan: Scan, n: nat, segments: seq<seq<seq<Block>>>, t: nat)
    requires ScanOk(scan, n) && SegmentsOk(scan, segments) && SegmentsInRange(scan, n, segments, |segments|)
    requires NotEmpty(scan, segments) && AllCountable(scan, n, segments) && t < n && Needed(scan, t)
    ensures Moderate(Uses(TheTokens(scan, n, segments), t))
  {
    hide SegmentTokens, ScanInRange, ScanOk, Present, Needed, Uses, Moderate, Countable;
    var j :| 0 <= j < |segments| && segments[j] != [];
    ScanModerate(scan, n, segments, j, t);
  }

  lemma NotNeeded(scan: Scan, n: nat, segments: seq<seq<seq<Block>>>, t: nat)
    requires ScanOk(scan, n) && SegmentsOk(scan, segments) && SegmentsInRange(scan, n, segments, |segments|) && !Needed(scan, t)
    ensures forall s: byte :: Uses(TheTokens(scan, n, segments), t)[s] == 0
  {
    hide SegmentTokens, ScanInRange, ScanOk, Count, Needed;
    var xs := TheTokens(scan, n, segments);
    forall s: byte ensures Uses(xs, t)[s] == 0 {
      CountedIsSent(xs, t, s);
      if Sym(t, s) in xs { SegmentSuits(scan, n, segments, |segments|, Sym(t, s)); }
    }
  }

  lemma Sliced(x: seq<nat>, y: seq<nat>)
    requires |x| == |y| == 257 && x[..256] == y[..256]
    ensures forall s :: 0 <= s < 256 ==> x[s] == y[s]
  {
    forall s | 0 <= s < 256 ensures x[s] == y[s] { assert x[..256][s] == y[..256][s]; }
  }

  lemma Gathered(counts: seq<array<nat>>, scan: Scan, n: nat, segments: seq<seq<seq<Block>>>)
    requires ScanOk(scan, n) && SegmentsOk(scan, segments) && Counters(counts) && |counts| == n
    requires forall t, s: byte :: 0 <= t < n ==> counts[t][s] == Count(SegmentTokens(scan, n, segments, |segments|), t, s)
    ensures forall u :: 0 <= u < n ==> counts[u].Length == 257 && counts[u][..256] == Uses(TheTokens(scan, n, segments), u)[..256]
  {
    hide SegmentTokens, Count;
  }

  lemma DcUses(scan: Scan, n: nat, segments: seq<seq<seq<Block>>>, t: nat)
    requires ScanOk(scan, n) && SegmentsOk(scan, segments) && SegmentsInRange(scan, n, segments, |segments|)
    ensures t in scan.dcTab ==> forall s: byte :: Uses(TheTokens(scan, n, segments), t)[s] > 0 ==> s <= 15
  {
    hide SegmentTokens, ScanInRange, ScanOk, Count;
    var xs := TheTokens(scan, n, segments);
    forall s: byte | t in scan.dcTab && Uses(xs, t)[s] > 0 ensures s <= 15 {
      CountedIsSent(xs, t, s);
      SegmentSuits(scan, n, segments, |segments|, Sym(t, s));
    }
  }

  lemma AllServed(scan: Scan, n: nat, segments: seq<seq<seq<Block>>>, cts: seq<CTable>, ds: seq<DTable>, tabs: seq<Table>)
    requires ScanOk(scan, n) && SegmentsOk(scan, segments) && SegmentsInRange(scan, n, segments, |segments|) && |cts| == |ds| == |tabs| == n
    requires forall u :: 0 <= u < n ==> Serves(cts[u], ds[u], tabs[u], Uses(TheTokens(scan, n, segments), u), u in scan.dcTab)
    ensures Matching(ds, tabs) && CategoryTables(scan, tabs) && forall u :: 0 <= u < n ==> Encodes(cts[u], tabs[u], |Szs(tabs[u])|)
    ensures AllSendable(tabs, SegmentTokens(scan, n, segments, |segments|))
  {
    hide SegmentTokens, ScanInRange, Count, Derived, Good, Encodes, Sizes, HasCode, Categories;
    var xs := TheTokens(scan, n, segments);
    forall x | x in xs && x.Sym? ensures x.tab < n { SegmentSuits(scan, n, segments, |segments|, x); }
    forall t, s: byte | 0 <= t < n && Count(xs, t, s) > 0 ensures HasCode(tabs[t], s) { assert Uses(xs, t)[s] == Count(xs, t, s); }
    CountedSuffices(tabs, xs);
  }
}
