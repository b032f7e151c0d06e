/** What happens to an accepted script: reduce_script adapts it to a smaller block size, and the
    decoders check every scan before they decode it (start_pass of jdhuff.c and jdarith.c). */
module ScanChecks {
  import opened ScanScript

  // ---- Reduced block sizes ----

  function Cut(s: Scan, limSe: int): Scan {
    if s.se > limSe then s.(se := limSe) else s
  }

  /** Scans that lie out of range are dropped, and the others end with the block. */
  function Reduced(script: seq<Scan>, i: nat, limSe: int): seq<Scan>
    requires i <= |script|
    decreases |script| - i
  {
    if i == |script| then []
    else if script[i].ss > limSe then Reduced(script, i + 1, limSe)
    else [Cut(script[i], limSe)] + Reduced(script, i + 1, limSe)
  }

  method ReduceScript(scans: array<Scan>, numScans: nat, limSe: int) returns (num: nat)
    requires numScans <= scans.Length
    modifies scans
    ensures num <= numScans && scans[..num] == Reduced(old(scans[..numScans]), 0, limSe)
    ensures scans[numScans..] == old(scans[numScans..])
  {
    ghost var script := scans[..numScans];
    var idxout := 0;
    for idxin := 0 to numScans
      invariant 0 <= idxout <= idxin && scans[..idxout] + Reduced(script, idxin, limSe) == Reduced(script, 0, limSe)
      invariant forall k :: idxin <= k < scans.Length ==> scans[k] == old(scans[k])
    {
      ghost var done := scans[..idxout];
      if idxin != idxout { scans[idxout] := scans[idxin]; }
      assert scans[..idxout] == done && scans[idxout] == script[idxin];
      if scans[idxout].ss > limSe { continue; }
      if scans[idxout].se > limSe { scans[idxout] := scans[idxout].(se := limSe); }
      assert scans[..idxout + 1] == done + [Cut(script[idxin], limSe)];
      idxout := idxout + 1;
    }
    num := idxout;
  }

  lemma {:induction false} FullSize(script: seq<Scan>, i: nat)
    requires i <= |script| && forall k :: i <= k < |script| ==> script[k].ss < DCTSIZE2 && script[k].se < DCTSIZE2
    ensures Reduced(script, i, DCTSIZE2 - 1) == script[i..]
    decreases |script| - i
  {
    if i < |script| { FullSize(script, i + 1); }
  }

  // ---- The decoder ----

  /** Progression parameters that are a fatal error. */
  predicate Bad(s: Scan, limSe: int) {
    || (s.ss == 0 && s.se != 0)
    || (s.ss != 0 && (s.se < s.ss || s.se > limSe || s.compsInScan != 1))
    || (s.ah != 0 && s.ah - 1 != s.al)
    || s.al > 13
  }

  /** What the decoder refuses: coefficients beside the DC coefficient, a band beyond the block or of
      several components, more or less than one bit in a refinement, and more than 13 bits left. */
  lemma Refused(n: int, c: seq<int>)
    requires |c| == MAX_COMPS_IN_SCAN
    ensures !Bad(ScanInfo(n, c, 0, 0, 0, 13), 63) && Bad(ScanInfo(n, c, 0, 0, 0, 14), 63) && Bad(ScanInfo(n, c, 0, 1, 0, 0), 63)
    ensures Bad(ScanInfo(n, c, 1, 63, 0, 0), 63) <==> n != 1
    ensures Bad(ScanInfo(1, c, 1, 64, 0, 0), 63) && Bad(ScanInfo(1, c, 5, 4, 0, 0), 63)
    ensures !Bad(ScanInfo(1, c, 63, 63, 2, 1), 63) && Bad(ScanInfo(1, c, 63, 63, 2, 2), 63) && Bad(ScanInfo(1, c, 63, 63, 2, 0), 63)
  {
  }

  /** The bit position expected next: 0 if nothing of the coefficient has been seen. */
  function Expected(mark: int): int { if mark < 0 then 0 else mark }

  /** A warning about the order of the scans for component c. */
  predicate Complains(b: Marks, s: Scan, c: nat)
    requires c < |b| && 0 <= s.ss && s.se < DCTSIZE2
  {
    (s.ss != 0 && b[c][0] < 0) || exists k :: s.ss <= k <= s.se && s.ah != Expected(b[c][k])
  }

  /** The decoder takes a scan without an error or a warning. */
  predicate ScanSmooth(b: Marks, s: Scan, limSe: int) {
    CompsOk(s, |b|) && 0 <= s.ss && s.se < DCTSIZE2 && !Bad(s, limSe) &&
    forall ci :: 0 <= ci < s.compsInScan ==> !Complains(b, s, s.componentIndex[ci])
  }

  /** The same for scans i, i + 1, ... */
  predicate Smooth(script: seq<Scan>, i: nat, b: Marks, limSe: int)
    requires i <= |script|
    decreases |script| - i
  {
    i == |script| || (ScanSmooth(b, script[i], limSe) && Smooth(script, i + 1, Marked(b, script[i]), limSe))
  }

  /** Update progression status for one component, and count the warnings. */
  method UpdateStatus(coefBits: array2<int>, s: Scan, c: nat) returns (warnings: nat)
    requires coefBits.Length1 == DCTSIZE2 && c < coefBits.Length0 && 0 <= s.ss && s.se < DCTSIZE2
    modifies coefBits
    ensures warnings == 0 <==> !Complains(old(Rows(coefBits)), s, c)
    ensures forall d, k :: 0 <= d < coefBits.Length0 && 0 <= k < DCTSIZE2 ==>
      coefBits[d, k] == if d == c && s.ss <= k <= s.se then s.al else old(coefBits[d, k])
  {
    ghost var b := Rows(coefBits);
    assert b[c][0] == coefBits[c, 0];
    warnings := 0;
    if s.ss != 0 && coefBits[c, 0] < 0 { warnings := warnings + 1; }  // DC must come first
    var coefi := s.ss;
    while coefi <= s.se
      invariant s.ss <= coefi
      invariant warnings == 0 <==> !(s.ss != 0 && b[c][0] < 0) && forall k :: s.ss <= k < coefi && k <= s.se ==> s.ah == Expected(b[c][k])
      invariant forall d, k :: 0 <= d < coefBits.Length0 && 0 <= k < DCTSIZE2 ==>
        coefBits[d, k] == if d == c && s.ss <= k < coefi && k <= s.se then s.al else b[d][k]
      decreases s.se + 1 - coefi
    {
      var expected := if coefBits[c, coefi] < 0 then 0 else coefBits[c, coefi];
      assert expected == Expected(b[c][coefi]);
      if s.ah != expected { warnings := warnings + 1; }
      coefBits[c, coefi] := s.al;
      coefi := coefi + 1;
    }
    forall d, k | 0 <= d < coefBits.Length0 && 0 <= k < DCTSIZE2 ensures b[d][k] == old(coefBits[d, k]) {}
  }

  /** Check the parameters of a scan, and compare it with what the scans before it have sent. */
  method StartPass(coefBits: array2<int>, s: Scan, limSe: int) returns (bad: bool, warnings: nat)
    requires coefBits.Length1 == DCTSIZE2 && CompsOk(s, coefBits.Length0) && 0 <= s.ss && s.se < DCTSIZE2
    modifies coefBits
    ensures bad == Bad(s, limSe) && (bad ==> Rows(coefBits) == old(Rows(coefBits)))
    ensures !bad ==> Rows(coefBits) == Marked(old(Rows(coefBits)), s)
    ensures !bad ==> (warnings == 0 <==>
      forall ci :: 0 <= ci < s.compsInScan ==> !Complains(old(Rows(coefBits)), s, s.componentIndex[ci]))
  {
    ghost var b := Rows(coefBits);
    warnings := 0;
    bad := true;
    if s.ss == 0 {
      if s.se != 0 { return; }
    } else {
      if s.se < s.ss || s.se > limSe { return; }
      if s.compsInScan != 1 { return; }
    }
    if s.ah != 0 {
      if s.ah - 1 != s.al { return; }
    }
    if s.al > 13 { return; }
    bad := false;
    for ci := 0 to s.compsInScan
      invariant warnings == 0 <==> forall e :: 0 <= e < ci ==> !Complains(b, s, s.componentIndex[e])
      invariant forall d, k :: 0 <= d < coefBits.Length0 && 0 <= k < DCTSIZE2 ==>
        coefBits[d, k] == if Before(s, d, ci) && s.ss <= k <= s.se then s.al else b[d][k]
    {
      NotBefore(s, ci);
      ghost var now := Rows(coefBits);
      SameComplaint(b, now, s, s.componentIndex[ci]);
      var more := UpdateStatus(coefBits, s, s.componentIndex[ci]);
      warnings := warnings + more;
    }
    assert forall d :: Before(s, d, s.compsInScan) == InScan(s, d);
    SameMarks(Rows(coefBits), Marked(b, s));
  }

  lemma SameComplaint(b: Marks, b': Marks, s: Scan, c: nat)
    requires c < |b| == |b'| && 0 <= s.ss && s.se < DCTSIZE2 && b[c] == b'[c]
    ensures Complains(b, s, c) == Complains(b', s, c)
  {
  }

  // ---- Accepted scripts are decoded without complaint ----

  /** The marks agree as far as the block goes. */
  predicate Agree(b: Marks, d: Marks, limSe: int) {
    |b| == |d| && forall c, k :: 0 <= c < |b| && 0 <= k < DCTSIZE2 && k <= limSe ==> b[c][k] == d[c][k]
  }

  lemma OneScan(b: Marks, d: Marks, s: Scan, precision: nat, limSe: int)
    requires ProgressiveOk(b, s, precision) && Agree(b, d, limSe) && 0 <= limSe < DCTSIZE2 && s.ss <= limSe
    ensures ScanSmooth(d, Cut(s, limSe), limSe) && Agree(Marked(b, s), Marked(d, Cut(s, limSe)), limSe)
  {
    var t := Cut(s, limSe);
    assert forall c :: InScan(t, c) == InScan(s, c);
    forall ci | 0 <= ci < t.compsInScan ensures !Complains(d, t, t.componentIndex[ci]) {
      var c := s.componentIndex[ci];
      assert ComponentOk(b, s, c);
      forall k | t.ss <= k <= t.se ensures t.ah == Expected(d[c][k]) { assert CarriesOn(b[c][k], s); }
    }
    assert CarriesOn(b[s.componentIndex[0]][s.ss], s) by { assert ComponentOk(b, s, s.componentIndex[0]); }
  }

  lemma OutOfRange(b: Marks, d: Marks, s: Scan, limSe: int)
    requires Agree(b, d, limSe) && s.ss > limSe
    ensures Agree(Marked(b, s), d, limSe)
  {
  }

  /** The decoder takes every scan of an accepted progressive script, adapted to the block size,
      without an error and without a warning. */
  lemma {:induction false} AcceptedIsSmooth(script: seq<Scan>, i: nat, b: Marks, d: Marks, precision: nat, limSe: int)
    requires i <= |script| && Accepted(script, i, b, precision) && Agree(b, d, limSe) && 0 <= limSe < DCTSIZE2
    ensures Smooth(Reduced(script, i, limSe), 0, d, limSe)
    decreases |script| - i
  {
    hide ProgressiveOk, Marked, Agree, ScanSmooth;
    if i < |script| {
      var s := script[i];
      if s.ss > limSe {
        OutOfRange(b, d, s, limSe);
        AcceptedIsSmooth(script, i + 1, Marked(b, s), d, precision, limSe);
      } else {
        OneScan(b, d, s, precision, limSe);
        AcceptedIsSmooth(script, i + 1, Marked(b, s), Marked(d, Cut(s, limSe)), precision, limSe);
        SmoothCons(Cut(s, limSe), Reduced(script, i + 1, limSe), d, limSe);
      }
    }
  }

  lemma SmoothCons(s: Scan, rest: seq<Scan>, d: Marks, limSe: int)
    requires Smooth(rest, 0, Marked(d, s), limSe) && ScanSmooth(d, s, limSe)
    ensures Smooth([s] + rest, 0, d, limSe)
  {
    hide Marked, ScanSmooth;
    SmoothShift([s] + rest, rest, 0, Marked(d, s), limSe);
  }

  lemma {:induction false} SmoothShift(x: seq<Scan>, y: seq<Scan>, i: nat, d: Marks, limSe: int)
    requires i <= |y| && |x| == |y| + 1 && forall k :: 0 <= k < |y| ==> x[k + 1] == y[k]
    ensures Smooth(x, i + 1, d, limSe) == Smooth(y, i, d, limSe)
    decreases |y| - i
  {
    hide Marked, ScanSmooth;
    if i < |y| { SmoothShift(x, y, i + 1, Marked(d, y[i]), limSe); }
  }

  /** For a whole script that validate_script accepts. */
  lemma ValidScriptIsSmooth(script: seq<Scan>, n: nat, precision: nat, limSe: int)
    requires ScriptOk(script, n, precision) && Progressive(script) && 0 <= limSe < DCTSIZE2
    ensures Smooth(Reduced(script, 0, limSe), 0, Fresh(n), limSe)
  {
    hide Accepted, Marked;
    AcceptedIsSmooth(script, 0, Fresh(n), Fresh(n), precision, limSe);
  }

  /** The decoder's start_pass for one scan after the other. */
  method StartAll(script: seq<Scan>, n: nat, limSe: int) returns (bad: bool, warnings: nat)
    requires Smooth(script, 0, Fresh(n), limSe)
    ensures !bad && warnings == 0
  {
    hide Marked, Bad, CompsOk, Complains;
    var coefBits := new int[n, DCTSIZE2]((_, _) => -1);
    SameMarks(Rows(coefBits), Fresh(n));
    bad, warnings := false, 0;
    for i := 0 to |script|
      invariant !bad && warnings == 0 && Smooth(script, i, Rows(coefBits), limSe)
    {
      var more;
      bad, more := StartPass(coefBits, script[i], limSe);
      if bad { return; }
      warnings := warnings + more;
    }
  }
}
