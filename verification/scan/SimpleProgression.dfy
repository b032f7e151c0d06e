/** jpeg_simple_progression of jcparam.c: the recommended progressive script. */
module SimpleProgression {
  import opened ScanScript

  const MAX_COMPONENTS := 10

  // ---- Single scans ----

  /** A scan of component c only. */
  predicate IsOne(s: Scan, c: int, ss: int, se: int, ah: int, al: int) {
    s.compsInScan == 1 && s.componentIndex[0] == c && s.ss == ss && s.se == se && s.ah == ah && s.al == al
  }

  /** An interleaved DC scan of n components. */
  predicate IsDc(s: Scan, n: nat, ah: int, al: int) {
    && s.compsInScan == n <= MAX_COMPS_IN_SCAN && (forall ci :: 0 <= ci < n ==> s.componentIndex[ci] == ci)
    && s.ss == 0 && s.se == 0 && s.ah == ah && s.al == al
  }

  type Level = l: seq<int> | |l| == DCTSIZE2 witness seq(DCTSIZE2, _ => -1)

  function Put(l: Level, ss: int, se: int, al: int): Level {
    seq(DCTSIZE2, k requires 0 <= k < DCTSIZE2 => if ss <= k <= se then al else l[k])
  }

  /** What a scan needs: a legal band that carries on from what has been sent. */
  predicate Fits(l: Level, ss: int, se: int, ah: int, al: int) {
    && 0 <= ss <= se < DCTSIZE2 && 0 <= ah <= 10 && 0 <= al <= 10 && (ss == 0 ==> se == 0) && (ss != 0 ==> l[0] >= 0)
    && forall k :: ss <= k <= se ==> if l[k] < 0 then ah == 0 else ah == l[k] && al == ah - 1
  }

  lemma OneScan(b: Marks, s: Scan, c: nat, ss: int, se: int, ah: int, al: int)
    requires c < |b| && IsOne(s, c, ss, se, ah, al) && Fits(b[c], ss, se, ah, al)
    ensures ProgressiveOk(b, s, 8) && Marked(b, s) == b[c := Put(b[c], ss, se, al)]
  {
    forall k | ss <= k <= se ensures CarriesOn(b[c][k], s) {}
    forall d, k | 0 <= d < |b| && 0 <= k < DCTSIZE2 ensures Marked(b, s)[d][k] == b[c := Put(b[c], ss, se, al)][d][k] {
      MarkedAt(b, s, d, k);
      assert InScan(s, d) <==> d == c;
    }
    SameMarks(Marked(b, s), b[c := Put(b[c], ss, se, al)]);
  }

  /** The first m components have had their band. */
  function PutAll(b: Marks, m: nat, ss: int, se: int, al: int): (r: Marks)
    ensures |r| == |b|
  {
    seq(|b|, c requires 0 <= c < |b| => if c < m then Put(b[c], ss, se, al) else b[c])
  }

  predicate FitsAll(b: Marks, ss: int, se: int, ah: int, al: int) {
    forall c :: 0 <= c < |b| ==> Fits(b[c], ss, se, ah, al)
  }

  lemma DcScan(b: Marks, s: Scan, ah: int, al: int)
    requires 1 <= |b| && IsDc(s, |b|, ah, al) && FitsAll(b, 0, 0, ah, al)
    ensures ProgressiveOk(b, s, 8) && Marked(b, s) == PutAll(b, |b|, 0, 0, al)
  {
    var r := PutAll(b, |b|, 0, 0, al);
    forall d, k | 0 <= d < |b| && 0 <= k < DCTSIZE2 ensures Marked(b, s)[d][k] == r[d][k] {
      MarkedAt(b, s, d, k);
      assert s.componentIndex[d] == d;
      assert InScan(s, d);
    }
    SameMarks(Marked(b, s), r);
    assert Fits(b[0], 0, 0, ah, al);
  }

  // ---- Runs of scans ----

  /** Some scans are accepted in the state b, and lead to the state r. */
  ghost predicate Leads(z: seq<Scan>, b: Marks, r: Marks) {
    Accepted(z, 0, b, 8) && After(z, 0, b) == r
  }

  lemma {:induction false} LeadsFrom(x: seq<Scan>, y: seq<Scan>, i: nat, b: Marks)
    requires i <= |y| && |x| >= |y| && x[|x| - |y|..] == y
    ensures Accepted(x, |x| - |y| + i, b, 8) == Accepted(y, i, b, 8) && After(x, |x| - |y| + i, b) == After(y, i, b)
    decreases |y| - i
  {
    hide ProgressiveOk, Marked;
    if i < |y| {
      assert x[|x| - |y| + i] == x[|x| - |y|..][i];
      LeadsFrom(x, y, i + 1, Marked(b, y[i]));
    }
  }

  lemma {:induction false} LeadsOn(x: seq<Scan>, y: seq<Scan>, b: Marks, m: Marks, r: Marks, i: nat)
    requires i <= |x| && Accepted(x, i, b, 8) && After(x, i, b) == m && Leads(y, m, r)
    ensures Accepted(x + y, i, b, 8) && After(x + y, i, b) == r
    decreases |x| - i
  {
    hide ProgressiveOk, Marked;
    if i == |x| {
      LeadsFrom(x + y, y, 0, b);
    } else {
      LeadsOn(x, y, Marked(b, x[i]), m, r, i + 1);
    }
  }

  lemma Then(x: seq<Scan>, y: seq<Scan>, b: Marks, m: Marks, r: Marks)
    requires Leads(x, b, m) && Leads(y, m, r)
    ensures Leads(x + y, b, r)
  {
    hide Accepted, After;
    LeadsOn(x, y, b, m, r, 0);
  }

  lemma OneLeads(s: Scan, b: Marks)
    requires ProgressiveOk(b, s, 8)
    ensures Leads([s], b, Marked(b, s))
  {
    hide ProgressiveOk, Marked;
    assert [s][0] == s && Accepted([s], 1, Marked(b, s), 8) && After([s], 1, Marked(b, s)) == Marked(b, s);
  }

  /** The same band of every component, one scan each. */
  predicate AreScans(z: seq<Scan>, n: nat, ss: int, se: int, ah: int, al: int) {
    |z| == n && forall c :: 0 <= c < n ==> IsOne(z[c], c, ss, se, ah, al)
  }

  lemma {:induction false} ScansLead(z: seq<Scan>, b: Marks, i: nat, ss: int, se: int, ah: int, al: int)
    requires AreScans(z, |b|, ss, se, ah, al) && i <= |b| && FitsAll(b, ss, se, ah, al)
    ensures Accepted(z, i, PutAll(b, i, ss, se, al), 8)
    ensures After(z, i, PutAll(b, i, ss, se, al)) == PutAll(b, |b|, ss, se, al)
    decreases |b| - i
  {
    hide ProgressiveOk, Marked, Fits, Put;
    if i < |b| {
      var now := PutAll(b, i, ss, se, al);
      OneScan(now, z[i], i, ss, se, ah, al);
      assert now[i := Put(b[i], ss, se, al)] == PutAll(b, i + 1, ss, se, al);
      ScansLead(z, b, i + 1, ss, se, ah, al);
    }
  }

  /** What fill_scans makes. */
  lemma FilledScans(z: seq<Scan>, b: Marks, ss: int, se: int, ah: int, al: int)
    requires AreScans(z, |b|, ss, se, ah, al) && FitsAll(b, ss, se, ah, al)
    ensures Leads(z, b, PutAll(b, |b|, ss, se, al))
  {
    ScansLead(z, b, 0, ss, se, ah, al);
    assert PutAll(b, 0, ss, se, al) == b;
  }

  predicate AreDc(z: seq<Scan>, n: nat, ah: int, al: int) {
    if n <= MAX_COMPS_IN_SCAN then |z| == 1 && IsDc(z[0], n, ah, al) else AreScans(z, n, 0, 0, ah, al)
  }

  /** What fill_dc_scans makes. */
  lemma FilledDc(z: seq<Scan>, b: Marks, ah: int, al: int)
    requires 1 <= |b| && AreDc(z, |b|, ah, al) && FitsAll(b, 0, 0, ah, al)
    ensures Leads(z, b, PutAll(b, |b|, 0, 0, al))
  {
    if |b| <= MAX_COMPS_IN_SCAN {
      DcScan(b, z[0], ah, al);
      OneLeads(z[0], b);
      assert z == [z[0]];
    } else {
      FilledScans(z, b, 0, 0, ah, al);
    }
  }

  lemma FilledOne(s: Scan, b: Marks, c: nat, ss: int, se: int, ah: int, al: int)
    requires c < |b| && IsOne(s, c, ss, se, ah, al) && Fits(b[c], ss, se, ah, al)
    ensures Leads([s], b, b[c := Put(b[c], ss, se, al)])
  {
    OneScan(b, s, c, ss, se, ah, al);
    OneLeads(s, b);
  }

  // ---- Filling the script ----

  /** A scan of one component. */
  method FillAScan(scans: array<Scan>, p: nat, ci: int, ss: int, se: int, ah: int, al: int) returns (q: nat)
    requires p < scans.Length
    modifies scans
    ensures q == p + 1 && IsOne(scans[p], ci, ss, se, ah, al)
    ensures forall k :: 0 <= k < scans.Length && k != p ==> scans[k] == old(scans[k])
  {
    scans[p] := ScanInfo(1, scans[p].componentIndex[0 := ci], ss, se, ah, al);
    q := p + 1;
  }

  /** The same scan for every component in turn. */
  method FillScans(scans: array<Scan>, p: nat, ncomps: nat, ss: int, se: int, ah: int, al: int) returns (q: nat)
    requires p + ncomps <= scans.Length
    modifies scans
    ensures q == p + ncomps && AreScans(scans[p..q], ncomps, ss, se, ah, al)
    ensures forall k :: 0 <= k < scans.Length && !(p <= k < q) ==> scans[k] == old(scans[k])
  {
    q := p;
    for ci := 0 to ncomps
      invariant q == p + ci && forall k :: p <= k < q ==> IsOne(scans[k], k - p, ss, se, ah, al)
      invariant forall k :: 0 <= k < scans.Length && !(p <= k < q) ==> scans[k] == old(scans[k])
    {
      q := FillAScan(scans, q, ci, ss, se, ah, al);
    }
    forall c | 0 <= c < ncomps ensures IsOne(scans[p..q][c], c, ss, se, ah, al) { assert scans[p..q][c] == scans[p + c]; }
  }

  /** One DC scan of all components, as far as a scan can hold them. */
  method FillDcScans(scans: array<Scan>, p: nat, ncomps: nat, ah: int, al: int) returns (q: nat)
    requires p + DcCount(ncomps) <= scans.Length
    modifies scans
    ensures q == p + DcCount(ncomps) && AreDc(scans[p..q], ncomps, ah, al)
    ensures forall k :: 0 <= k < scans.Length && !(p <= k < q) ==> scans[k] == old(scans[k])
  {
    if ncomps <= MAX_COMPS_IN_SCAN {
      var index := scans[p].componentIndex;
      for ci := 0 to ncomps
        invariant |index| == MAX_COMPS_IN_SCAN && forall c :: 0 <= c < ci ==> index[c] == c
      {
        index := index[ci := ci];
      }
      scans[p] := ScanInfo(ncomps, index, 0, 0, ah, al);
      q := p + 1;
    } else {
      q := FillScans(scans, p, ncomps, 0, 0, ah, al);
    }
  }

  function DcCount(n: nat): nat { if n <= MAX_COMPS_IN_SCAN then 1 else n }

  /** The scans so far, from the beginning, lead to the state b. */
  ghost predicate So(scans: array<Scan>, p: nat, b: Marks)
    reads scans
  {
    p <= scans.Length && Leads(scans[..p], Fresh(|b|), b)
  }

  method AddDc(scans: array<Scan>, p: nat, ncomps: nat, ah: int, al: int, ghost b: Marks) returns (q: nat)
    requires So(scans, p, b) && p + DcCount(ncomps) <= scans.Length && 1 <= ncomps == |b| && FitsAll(b, 0, 0, ah, al)
    modifies scans
    ensures q == p + DcCount(ncomps) && So(scans, q, PutAll(b, ncomps, 0, 0, al))
    ensures scans[..q] == old(scans[..p]) + scans[p..q] && AreDc(scans[p..q], ncomps, ah, al)
  {
    hide Leads, AreDc, PutAll, FitsAll, Fresh;
    ghost var x := scans[..p];
    q := FillDcScans(scans, p, ncomps, ah, al);
    assert scans[..q] == x + scans[p..q];
    FilledDc(scans[p..q], b, ah, al);
    Then(x, scans[p..q], Fresh(ncomps), b, PutAll(b, ncomps, 0, 0, al));
  }

  method AddScans(scans: array<Scan>, p: nat, ncomps: nat, ss: int, se: int, ah: int, al: int, ghost b: Marks) returns (q: nat)
    requires So(scans, p, b) && p + ncomps <= scans.Length && ncomps == |b| && FitsAll(b, ss, se, ah, al)
    modifies scans
    ensures q == p + ncomps && So(scans, q, PutAll(b, ncomps, ss, se, al))
    ensures scans[..q] == old(scans[..p]) + scans[p..q] && AreScans(scans[p..q], ncomps, ss, se, ah, al)
  {
    hide Leads, AreScans, PutAll, FitsAll, Fresh;
    ghost var x := scans[..p];
    q := FillScans(scans, p, ncomps, ss, se, ah, al);
    assert scans[..q] == x + scans[p..q];
    FilledScans(scans[p..q], b, ss, se, ah, al);
    Then(x, scans[p..q], Fresh(ncomps), b, PutAll(b, ncomps, ss, se, al));
  }

  method AddOne(scans: array<Scan>, p: nat, ci: nat, ss: int, se: int, ah: int, al: int, ghost b: Marks) returns (q: nat)
    requires So(scans, p, b) && p + 1 <= scans.Length && ci < |b| && Fits(b[ci], ss, se, ah, al)
    modifies scans
    ensures q == p + 1 && So(scans, q, b[ci := Put(b[ci], ss, se, al)])
    ensures scans[..q] == old(scans[..p]) + [scans[p]] && IsOne(scans[p], ci, ss, se, ah, al)
  {
    hide Leads, IsOne, Put, Fits, Fresh;
    ghost var x := scans[..p];
    q := FillAScan(scans, p, ci, ss, se, ah, al);
    assert scans[..q] == x + [scans[p]];
    FilledOne(scans[p], b, ci, ss, se, ah, al);
    Then(x, [scans[p]], Fresh(|b|), b, b[ci := Put(b[ci], ss, se, al)]);
  }

  /** Every coefficient has been sent in full. */
  predicate Complete(b: Marks) {
    forall c, k :: 0 <= c < |b| && 0 <= k < DCTSIZE2 ==> b[c][k] == 0
  }

  lemma ScriptIsOk(script: seq<Scan>, n: nat, b: Marks)
    requires |b| == n >= 1 && Leads(script, Fresh(n), b) && Complete(b)
    ensures ScriptOk(script, n, 8) && Progressive(script) && Complete(After(script, 0, Fresh(n)))
  {
    hide Marked, CarriesOn;
    assert After([], 0, Fresh(n))[0][0] == -1;
  }

  /** The all-purpose script: the upper bits, in two AC bands; then a bit of all AC coefficients,
      and the last bit of all. */
  predicate IsAllPurpose(z: seq<Scan>, n: nat) {
    var d := DcCount(n);
    && |z| == 2 * d + 4 * n
    && AreDc(z[..d], n, 0, 1)
    && AreScans(z[d..d + n], n, 1, 5, 0, 2)
    && AreScans(z[d + n..d + 2 * n], n, 6, 63, 0, 2)
    && AreScans(z[d + 2 * n..d + 3 * n], n, 1, 63, 2, 1)
    && AreDc(z[d + 3 * n..2 * d + 3 * n], n, 1, 0)
    && AreScans(z[2 * d + 3 * n..], n, 1, 63, 1, 0)
  }

  lemma SixRuns(n: nat, s1: seq<Scan>, s2: seq<Scan>, s3: seq<Scan>, s4: seq<Scan>, s5: seq<Scan>, s6: seq<Scan>)
    requires AreDc(s1, n, 0, 1) && AreScans(s2, n, 1, 5, 0, 2) && AreScans(s3, n, 6, 63, 0, 2)
    requires AreScans(s4, n, 1, 63, 2, 1) && AreDc(s5, n, 1, 0) && AreScans(s6, n, 1, 63, 1, 0)
    ensures IsAllPurpose(s1 + s2 + s3 + s4 + s5 + s6, n)
  {
    hide IsOne, IsDc;
    var d, z := DcCount(n), s1 + s2 + s3 + s4 + s5 + s6;
    assert z[..d] == s1 && z[d..d + n] == s2 && z[d + n..d + 2 * n] == s3 && z[d + 2 * n..d + 3 * n] == s4;
    assert z[d + 3 * n..2 * d + 3 * n] == s5 && z[2 * d + 3 * n..] == s6;
  }

  /** Fill in the all-purpose script. */
  method AllPurpose(scans: array<Scan>, ncomps: nat)
    requires 1 <= ncomps && scans.Length == 2 * DcCount(ncomps) + 4 * ncomps
    modifies scans
    ensures IsAllPurpose(scans[..], ncomps)
    ensures ScriptOk(scans[..], ncomps, 8) && Progressive(scans[..]) && Complete(After(scans[..], 0, Fresh(ncomps)))
  {
    hide Leads, ScriptOk, Progressive, After, AreDc, AreScans, IsAllPurpose;
    ghost var b := Fresh(ncomps);
    Nothing(b);
    assert scans[..0] == [];
    // the first scans, of the upper bits
    var p := AddDc(scans, 0, ncomps, 0, 1, b);
    ghost var s1 := scans[0..p];
    ghost var p1 := p;
    b := PutAll(b, ncomps, 0, 0, 1);
    p := AddScans(scans, p, ncomps, 1, 5, 0, 2, b);
    ghost var s2 := scans[p1..p];
    ghost var p2 := p;
    b := PutAll(b, ncomps, 1, 5, 2);
    p := AddScans(scans, p, ncomps, 6, 63, 0, 2, b);
    ghost var s3 := scans[p2..p];
    ghost var p3 := p;
    b := PutAll(b, ncomps, 6, 63, 2);
    // the scans that add a bit
    p := AddScans(scans, p, ncomps, 1, 63, 2, 1, b);
    ghost var s4 := scans[p3..p];
    ghost var p4 := p;
    b := PutAll(b, ncomps, 1, 63, 1);
    // the scans that add the last bit
    p := AddDc(scans, p, ncomps, 1, 0, b);
    ghost var s5 := scans[p4..p];
    ghost var p5 := p;
    b := PutAll(b, ncomps, 0, 0, 0);
    p := AddScans(scans, p, ncomps, 1, 63, 1, 0, b);
    ghost var s6 := scans[p5..p];
    b := PutAll(b, ncomps, 1, 63, 0);
    assert scans[..p] == scans[..];
    SixRuns(ncomps, s1, s2, s3, s4, s5, s6);
    ScriptIsOk(scans[..], ncomps, b);
  }

  lemma Nothing(b: Marks)
    ensures Leads([], b, b)
  {
  }

  /** The bits still missing: dc of the DC coefficients, and ac[c] of the AC coefficients of component c. */
  predicate Missing(b: Marks, dc: int, ac: seq<int>) {
    |b| == |ac| == 3 && forall c, k :: 0 <= c < 3 && 0 <= k < DCTSIZE2 ==> b[c][k] == if k == 0 then dc else ac[c]
  }

  /** The custom script for luminance and two chrominance components. */
  predicate IsYcc(z: seq<Scan>) {
    && |z| == 10
    && IsDc(z[0], 3, 0, 1)
    && IsOne(z[1], 0, 1, 5, 0, 2) && IsOne(z[2], 2, 1, 63, 0, 1) && IsOne(z[3], 1, 1, 63, 0, 1) && IsOne(z[4], 0, 6, 63, 0, 2)
    && IsOne(z[5], 0, 1, 63, 2, 1)
    && IsDc(z[6], 3, 1, 0)
    && IsOne(z[7], 2, 1, 63, 1, 0) && IsOne(z[8], 1, 1, 63, 1, 0) && IsOne(z[9], 0, 1, 63, 1, 0)
  }

  predicate FirstFive(z: seq<Scan>) {
    && |z| == 5 && IsDc(z[0], 3, 0, 1)
    && IsOne(z[1], 0, 1, 5, 0, 2) && IsOne(z[2], 2, 1, 63, 0, 1) && IsOne(z[3], 1, 1, 63, 0, 1) && IsOne(z[4], 0, 6, 63, 0, 2)
  }

  lemma FiveScans(s0: seq<Scan>, s1: Scan, s2: Scan, s3: Scan, s4: Scan)
    requires AreDc(s0, 3, 0, 1) && IsOne(s1, 0, 1, 5, 0, 2)
    requires IsOne(s2, 2, 1, 63, 0, 1) && IsOne(s3, 1, 1, 63, 0, 1) && IsOne(s4, 0, 6, 63, 0, 2)
    ensures FirstFive([] + s0 + [s1] + [s2] + [s3] + [s4])
  {
    hide IsOne, IsDc;
  }

  /** The first scans of the custom script, with one or two bits of every coefficient missing. */
  method YccFirst(scans: array<Scan>) returns (p: nat, ghost b: Marks)
    requires scans.Length == 10
    modifies scans
    ensures p == 5 && So(scans, p, b) && Missing(b, 1, [2, 1, 1]) && FirstFive(scans[..5])
  {
    hide Leads, IsOne, AreDc, FirstFive;
    b := Fresh(3);
    Nothing(b);
    assert scans[..0] == [];
    p := AddDc(scans, 0, 3, 0, 1, b);         // DC of all components
    b := PutAll(b, 3, 0, 0, 1);
    ghost var s0 := scans[0..1];
    p := AddOne(scans, p, 0, 1, 5, 0, 2, b);  // a little luminance early
    b := b[0 := Put(b[0], 1, 5, 2)];
    ghost var s1 := scans[1];
    p := AddOne(scans, p, 2, 1, 63, 0, 1, b); // each chrominance in one scan
    b := b[2 := Put(b[2], 1, 63, 1)];
    ghost var s2 := scans[2];
    p := AddOne(scans, p, 1, 1, 63, 0, 1, b);
    b := b[1 := Put(b[1], 1, 63, 1)];
    ghost var s3 := scans[3];
    p := AddOne(scans, p, 0, 6, 63, 0, 2, b); // the rest of luminance
    b := b[0 := Put(b[0], 6, 63, 2)];
    FiveScans(s0, s1, s2, s3, scans[4]);
  }

  lemma LastFive(f: seq<Scan>, s5: Scan, s6: seq<Scan>, s7: Scan, s8: Scan, s9: Scan)
    requires FirstFive(f) && IsOne(s5, 0, 1, 63, 2, 1) && AreDc(s6, 3, 1, 0)
    requires IsOne(s7, 2, 1, 63, 1, 0) && IsOne(s8, 1, 1, 63, 1, 0) && IsOne(s9, 0, 1, 63, 1, 0)
    ensures IsYcc(f + [s5] + s6 + [s7] + [s8] + [s9])
  {
    hide IsOne, IsDc;
  }

  /** Its last scans. */
  method YccLast(scans: array<Scan>, p0: nat, ghost b0: Marks) returns (p: nat, ghost b: Marks)
    requires scans.Length == 10 && p0 == 5 && So(scans, p0, b0) && Missing(b0, 1, [2, 1, 1]) && FirstFive(scans[..5])
    modifies scans
    ensures p == 10 && So(scans, p, b) && |b| == 3 && Complete(b) && IsYcc(scans[..])
  {
    hide Leads, IsOne, AreDc, FirstFive, IsYcc;
    p, b := p0, b0;
    p := AddOne(scans, p, 0, 1, 63, 2, 1, b); // one bit more of luminance
    b := b[0 := Put(b[0], 1, 63, 1)];
    assert Missing(b, 1, [1, 1, 1]);
    ghost var s5 := scans[5];
    p := AddDc(scans, p, 3, 1, 0, b);         // the last bit of DC
    b := PutAll(b, 3, 0, 0, 0);
    assert Missing(b, 0, [1, 1, 1]);
    ghost var s6 := scans[6..7];
    p := AddOne(scans, p, 2, 1, 63, 1, 0, b); // the last bit of chrominance
    b := b[2 := Put(b[2], 1, 63, 0)];
    ghost var s7 := scans[7];
    p := AddOne(scans, p, 1, 1, 63, 1, 0, b);
    b := b[1 := Put(b[1], 1, 63, 0)];
    ghost var s8 := scans[8];
    p := AddOne(scans, p, 0, 1, 63, 1, 0, b); // the last bit of luminance
    b := b[0 := Put(b[0], 1, 63, 0)];
    LastFive(old(scans[..5]), s5, s6, s7, s8, scans[9]);
    assert scans[..] == scans[..10];
  }

  /** The script for three components of which the first is luminance. */
  method YccScript(scans: array<Scan>)
    requires scans.Length == 10
    modifies scans
    ensures IsYcc(scans[..])
    ensures ScriptOk(scans[..], 3, 8) && Progressive(scans[..]) && Complete(After(scans[..], 0, Fresh(3)))
  {
    hide Leads, ScriptOk, Progressive, After, Missing, Complete, IsYcc, FirstFive;
    var p;
    ghost var b;
    p, b := YccFirst(scans);
    p, b := YccLast(scans, p, b);
    assert scans[..p] == scans[..];
    ScriptIsOk(scans[..], 3, b);
  }

  /** Create the script: exactly nscans scans, which validate_script accepts, and after which no
      bit of any coefficient is missing. */
  method JpegSimpleProgression(ncomps: nat, ycc: bool) returns (script: seq<Scan>, nscans: nat)
    requires 1 <= ncomps <= MAX_COMPONENTS
    ensures |script| == nscans && ScriptOk(script, ncomps, 8) && Progressive(script)
    ensures Complete(After(script, 0, Fresh(ncomps)))
    ensures if ncomps == 3 && ycc then IsYcc(script) else IsAllPurpose(script, ncomps)
  {
    hide ScriptOk, Progressive, After, Complete, IsYcc, IsAllPurpose;
    // the number of scans, known beforehand
    if ncomps == 3 && ycc {
      nscans := 10;
    } else if ncomps > MAX_COMPS_IN_SCAN {
      nscans := 6 * ncomps;      // DC needs scans of its own for each component
    } else {
      nscans := 2 + 4 * ncomps;  // DC of all components shares its scans
    }
    var scans := new Scan[nscans](_ => ScanInfo(0, [0, 0, 0, 0], 0, 0, 0, 0));
    if ncomps == 3 && ycc {
      YccScript(scans);
    } else {
      AllPurpose(scans, ncomps);
    }
    script := scans[..];
  }
}
