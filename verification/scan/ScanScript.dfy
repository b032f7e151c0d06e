/** Scan scripts: validate_script and reduce_script of jcmaster.c, and the checks that the
    decoders make at the start of every scan (jdhuff.c and jdarith.c).  A script that is accepted
    never makes a decoder complain. */
module ScanScript {

  const DCTSIZE2 := 64
  const MAX_COMPS_IN_SCAN := 4

  /** One scan: how many components, which ones, the band of coefficients, and the bit positions
      before and after it. */
  datatype ScanInfo = ScanInfo(compsInScan: int, componentIndex: seq<int>, ss: int, se: int, ah: int, al: int)

  type Scan = s: ScanInfo | |s.componentIndex| == MAX_COMPS_IN_SCAN witness ScanInfo(0, [0, 0, 0, 0], 0, 0, 0, 0)

  /** For every coefficient of every component the bit position reached so far; -1 means that
      nothing of it has been sent. */
  type Marks = b: seq<seq<int>> | forall c :: 0 <= c < |b| ==> |b[c]| == DCTSIZE2

  function Fresh(n: nat): (b: Marks)
    ensures |b| == n && forall c, k :: 0 <= c < n && 0 <= k < DCTSIZE2 ==> b[c][k] == -1
  {
    seq(n, _ => seq(DCTSIZE2, _ => -1))
  }

  predicate InScan(s: Scan, c: int) {
    exists ci :: 0 <= ci < s.compsInScan && ci < MAX_COMPS_IN_SCAN && s.componentIndex[ci] == c
  }

  /** The bit positions after a scan. */
  function Marked(b: Marks, s: Scan): (r: Marks)
    ensures |r| == |b|
  {
    seq(|b|, c requires 0 <= c < |b| =>
      seq(DCTSIZE2, k requires 0 <= k < DCTSIZE2 => if InScan(s, c) && s.ss <= k <= s.se then s.al else b[c][k]))
  }

  lemma MarkedAt(b: Marks, s: Scan, c: nat, k: nat)
    requires c < |b| && k < DCTSIZE2
    ensures Marked(b, s)[c][k] == if InScan(s, c) && s.ss <= k <= s.se then s.al else b[c][k]
  {
  }

  // ---- What the encoder accepts ----

  /** Component indexes are valid, and in the order of the frame. */
  predicate CompsOk(s: Scan, n: nat) {
    && 0 < s.compsInScan <= MAX_COMPS_IN_SCAN
    && (forall ci :: 0 <= ci < s.compsInScan ==> 0 <= s.componentIndex[ci] < n)
    && (forall ci :: 0 < ci < s.compsInScan ==> s.componentIndex[ci - 1] < s.componentIndex[ci])
  }

  function MaxBit(precision: nat): int { if precision > 8 then 13 else 10 }

  predicate BandOk(s: Scan, precision: nat) {
    && 0 <= s.ss < DCTSIZE2 && s.ss <= s.se < DCTSIZE2
    && 0 <= s.ah <= MaxBit(precision) && 0 <= s.al <= MaxBit(precision)
    && (s.ss == 0 ==> s.se == 0) && (s.ss != 0 ==> s.compsInScan == 1)
  }

  /** The scan carries on from what has been sent of a coefficient before. */
  predicate CarriesOn(mark: int, s: Scan) {
    if mark < 0 then s.ah == 0 else s.ah == mark && s.al == s.ah - 1
  }

  predicate ComponentOk(b: Marks, s: Scan, c: nat)
    requires c < |b| && 0 <= s.ss && s.se < DCTSIZE2
  {
    (s.ss != 0 ==> b[c][0] >= 0) && forall k :: s.ss <= k <= s.se ==> CarriesOn(b[c][k], s)
  }

  predicate ProgressiveOk(b: Marks, s: Scan, precision: nat) {
    CompsOk(s, |b|) && BandOk(s, precision) && forall ci :: 0 <= ci < s.compsInScan ==> ComponentOk(b, s, s.componentIndex[ci])
  }

  /** Scans i, i + 1, ... are accepted one after the other. */
  predicate Accepted(script: seq<Scan>, i: nat, b: Marks, precision: nat)
    requires i <= |script|
    decreases |script| - i
  {
    i == |script| || (ProgressiveOk(b, script[i], precision) && Accepted(script, i + 1, Marked(b, script[i]), precision))
  }

  function After(script: seq<Scan>, i: nat, b: Marks): (r: Marks)
    requires i <= |script|
    ensures |r| == |b|
    decreases |script| - i
  {
    if i == |script| then b else After(script, i + 1, Marked(b, script[i]))
  }

  predicate SequentialOk(s: Scan, n: nat) {
    CompsOk(s, n) && s.ss == 0 && s.se == DCTSIZE2 - 1 && s.ah == 0 && s.al == 0
  }

  /** All scans are sequential, and no component is sent twice. */
  predicate AllSequential(script: seq<Scan>, i: nat, sent: set<int>, n: nat)
    requires i <= |script|
    decreases |script| - i
  {
    i == |script| ||
    (SequentialOk(script[i], n) && Components(script[i]) !! sent && AllSequential(script, i + 1, sent + Components(script[i]), n))
  }

  function Components(s: Scan): set<int> {
    if s.compsInScan < 0 || s.compsInScan > MAX_COMPS_IN_SCAN then {}
    else set ci | 0 <= ci < s.compsInScan :: s.componentIndex[ci]
  }

  function AllSent(script: seq<Scan>, i: nat): set<int>
    requires i <= |script|
    decreases |script| - i
  {
    if i == |script| then {} else Components(script[i]) + AllSent(script, i + 1)
  }

  predicate Progressive(script: seq<Scan>)
    requires script != []
  {
    script[0].ss != 0 || script[0].se != DCTSIZE2 - 1
  }

  /** Every scan carries on from the ones before, and DC data is sent for every component. */
  predicate ProgressiveScript(script: seq<Scan>, n: nat, precision: nat) {
    Accepted(script, 0, Fresh(n), precision) && forall c :: 0 <= c < n ==> After(script, 0, Fresh(n))[c][0] >= 0
  }

  /** Every component is sent exactly once. */
  predicate SequentialScript(script: seq<Scan>, n: nat) {
    AllSequential(script, 0, {}, n) && forall c :: 0 <= c < n ==> c in AllSent(script, 0)
  }

  predicate ScriptOk(script: seq<Scan>, n: nat, precision: nat) {
    script != [] && (if Progressive(script) then ProgressiveScript(script, n, precision) else SequentialScript(script, n))
  }

  // ---- Validation ----

  ghost function Rows(a: array2<int>): (b: Marks)
    reads a
    requires a.Length1 == DCTSIZE2
    ensures |b| == a.Length0
  {
    seq(a.Length0, c requires 0 <= c < a.Length0 reads a => seq(DCTSIZE2, k requires 0 <= k < DCTSIZE2 reads a => a[c, k]))
  }

  lemma SameMarks(a: Marks, b: Marks)
    requires |a| == |b| && forall c, k :: 0 <= c < |a| && 0 <= k < DCTSIZE2 ==> a[c][k] == b[c][k]
    ensures a == b
  {
    forall c | 0 <= c < |a| ensures a[c] == b[c] {}
  }

  /** Validate component indexes. */
  method CheckComps(s: Scan, n: nat) returns (ok: bool)
    ensures ok == CompsOk(s, n)
  {
    if s.compsInScan <= 0 || s.compsInScan > MAX_COMPS_IN_SCAN { return false; }
    for ci := 0 to s.compsInScan
      invariant forall e :: 0 <= e < ci ==> 0 <= s.componentIndex[e] < n
      invariant forall e :: 0 < e < ci ==> s.componentIndex[e - 1] < s.componentIndex[e]
    {
      var thisi := s.componentIndex[ci];
      if thisi < 0 || thisi >= n { return false; }
      // as the frame lists them
      if ci > 0 && thisi <= s.componentIndex[ci - 1] { return false; }
    }
    ok := true;
  }

  /** Check one component of a progressive scan and note how far it has come. */
  method CheckComponent(lastBitpos: array2<int>, s: Scan, c: nat) returns (ok: bool)
    requires lastBitpos.Length1 == DCTSIZE2 && c < lastBitpos.Length0 && 0 <= s.ss <= s.se < DCTSIZE2
    modifies lastBitpos
    ensures ok == ComponentOk(old(Rows(lastBitpos)), s, c)
    ensures ok ==> forall d, k :: 0 <= d < lastBitpos.Length0 && 0 <= k < DCTSIZE2 ==>
      lastBitpos[d, k] == if d == c && s.ss <= k <= s.se then s.al else old(lastBitpos[d, k])
  {
    ghost var b := Rows(lastBitpos);
    assert b[c][0] == lastBitpos[c, 0];
    if s.ss != 0 && lastBitpos[c, 0] < 0 { return false; }  // DC must come first
    for coefi := s.ss to s.se + 1
      invariant forall k :: s.ss <= k < coefi ==> CarriesOn(old(lastBitpos[c, k]), s)
      invariant forall d, k :: 0 <= d < lastBitpos.Length0 && 0 <= k < DCTSIZE2 ==>
        lastBitpos[d, k] == if d == c && s.ss <= k < coefi then s.al else old(lastBitpos[d, k])
    {
      assert b[c][coefi] == lastBitpos[c, coefi];
      if lastBitpos[c, coefi] < 0 {
        // nothing was sent of it before
        if s.ah != 0 { return false; }
      } else {
        // exactly one bit is added
        if s.ah != lastBitpos[c, coefi] || s.al != s.ah - 1 { return false; }
      }
      lastBitpos[c, coefi] := s.al;
    }
    forall k | s.ss <= k <= s.se ensures CarriesOn(b[c][k], s) { assert b[c][k] == old(lastBitpos[c, k]); }
    ok := true;
  }

  /** One scan of a progressive script. */
  method CheckProgressive(lastBitpos: array2<int>, s: Scan, precision: nat) returns (ok: bool)
    requires lastBitpos.Length1 == DCTSIZE2
    modifies lastBitpos
    ensures ok == ProgressiveOk(old(Rows(lastBitpos)), s, precision)
    ensures ok ==> Rows(lastBitpos) == Marked(old(Rows(lastBitpos)), s)
  {
    ghost var b := Rows(lastBitpos);
    ok := CheckComps(s, lastBitpos.Length0);
    if !ok { return; }
    if s.ss < 0 || s.ss >= DCTSIZE2 || s.se < s.ss || s.se >= DCTSIZE2 { return false; }
    if s.ah < 0 || s.ah > MaxBit(precision) || s.al < 0 || s.al > MaxBit(precision) { return false; }
    if s.ss == 0 {
      if s.se != 0 { return false; }            // a DC scan has nothing else
    } else {
      if s.compsInScan != 1 { return false; }   // and an AC scan one component
    }
    for ci := 0 to s.compsInScan
      invariant forall e :: 0 <= e < ci ==> ComponentOk(b, s, s.componentIndex[e])
      invariant forall d, k :: 0 <= d < lastBitpos.Length0 && 0 <= k < DCTSIZE2 ==>
        lastBitpos[d, k] == if Before(s, d, ci) && s.ss <= k <= s.se then s.al else b[d][k]
    {
      NotBefore(s, ci);
      ghost var now := Rows(lastBitpos);
      SameComponent(b, now, s, s.componentIndex[ci]);
      ok := CheckComponent(lastBitpos, s, s.componentIndex[ci]);
      if !ok { return; }
    }
    assert forall d :: Before(s, d, s.compsInScan) == InScan(s, d);
    SameMarks(Rows(lastBitpos), Marked(b, s));
  }

  /** Component c is one of the first n of the scan. */
  predicate Before(s: Scan, c: int, n: nat) {
    exists ci :: 0 <= ci < n && ci < MAX_COMPS_IN_SCAN && s.componentIndex[ci] == c
  }

  lemma NotBefore(s: Scan, ci: nat)
    requires ci < s.compsInScan && ci < MAX_COMPS_IN_SCAN && Ascending(s)
    ensures !Before(s, s.componentIndex[ci], ci)
    ensures forall c :: Before(s, c, ci + 1) <==> Before(s, c, ci) || c == s.componentIndex[ci]
  {
    forall c ensures Before(s, c, ci + 1) <==> Before(s, c, ci) || c == s.componentIndex[ci] {
      if c == s.componentIndex[ci] { assert ci < ci + 1; }
    }
    AscendingFar(s);
  }

  predicate Ascending(s: Scan) {
    s.compsInScan <= MAX_COMPS_IN_SCAN && forall ci :: 0 < ci < s.compsInScan ==> s.componentIndex[ci - 1] < s.componentIndex[ci]
  }

  lemma AscendingFar(s: Scan)
    requires Ascending(s)
    ensures forall i, j :: 0 <= i < j < s.compsInScan ==> s.componentIndex[i] < s.componentIndex[j]
  {
    forall i, j | 0 <= i < j < s.compsInScan ensures s.componentIndex[i] < s.componentIndex[j] { AscendingTo(s, i, j); }
  }

  lemma {:induction false} AscendingTo(s: Scan, i: nat, j: nat)
    requires Ascending(s) && i < j < s.compsInScan
    ensures s.componentIndex[i] < s.componentIndex[j]
    decreases j
  {
    if i < j - 1 { AscendingTo(s, i, j - 1); }
  }

  lemma SameComponent(b: Marks, b': Marks, s: Scan, c: nat)
    requires c < |b| == |b'| && 0 <= s.ss && s.se < DCTSIZE2 && b[c] == b'[c]
    ensures ComponentOk(b, s, c) == ComponentOk(b', s, c)
  {
  }

  /** Accept or refuse a script; its first scan tells whether the file will be progressive. */
  method ValidateScript(script: seq<Scan>, n: nat, precision: nat) returns (ok: bool, progressive: bool)
    ensures ok == ScriptOk(script, n, precision)
    ensures ok ==> progressive == Progressive(script)
  {
    hide ProgressiveScript, SequentialScript;
    ok, progressive := false, false;
    if script == [] { return; }
    progressive := script[0].ss != 0 || script[0].se != DCTSIZE2 - 1;
    if progressive {
      ok := ValidateProgressive(script, n, precision);
    } else {
      ok := ValidateSequential(script, n);
    }
  }

  method ValidateProgressive(script: seq<Scan>, n: nat, precision: nat) returns (ok: bool)
    ensures ok == ProgressiveScript(script, n, precision)
  {
    hide ProgressiveOk, Marked;
    var lastBitpos := new int[n, DCTSIZE2]((_, _) => -1);
    SameMarks(Rows(lastBitpos), Fresh(n));
    for i := 0 to |script|
      invariant Accepted(script, i, Rows(lastBitpos), precision) == Accepted(script, 0, Fresh(n), precision)
      invariant After(script, i, Rows(lastBitpos)) == After(script, 0, Fresh(n))
    {
      ok := CheckProgressive(lastBitpos, script[i], precision);
      if !ok { return; }
    }
    ghost var b := Rows(lastBitpos);
    for ci := 0 to n
      invariant Rows(lastBitpos) == b && forall c :: 0 <= c < ci ==> b[c][0] >= 0
    {
      if lastBitpos[ci, 0] < 0 {
        assert b[ci][0] == lastBitpos[ci, 0];
        return false;
      }
    }
    ok := true;
  }

  /** The components of a scan are marked as sent, unless one of them was sent before. */
  method MarkSent(componentSent: array<bool>, s: Scan, ghost sent: set<int>) returns (isNew: bool)
    requires CompsOk(s, componentSent.Length)
    requires forall c :: 0 <= c < componentSent.Length ==> componentSent[c] == (c in sent)
    modifies componentSent
    ensures isNew == (sent !! Components(s))
    ensures isNew ==> forall c :: 0 <= c < componentSent.Length ==> componentSent[c] == (c in sent + Components(s))
  {
    AscendingFar(s);
    for ci := 0 to s.compsInScan
      invariant forall e :: 0 <= e < ci ==> s.componentIndex[e] !in sent
      invariant forall c :: 0 <= c < componentSent.Length ==> componentSent[c] == (c in sent || Before(s, c, ci))
    {
      NotBefore(s, ci);
      var thisi := s.componentIndex[ci];
      if componentSent[thisi] {
        assert thisi in Components(s);
        return false;
      }
      componentSent[thisi] := true;
    }
    forall c | 0 <= c < componentSent.Length ensures Before(s, c, s.compsInScan) == (c in Components(s)) {}
    isNew := true;
  }

  method ValidateSequential(script: seq<Scan>, n: nat) returns (ok: bool)
    ensures ok == SequentialScript(script, n)
  {
    var componentSent := new bool[n](_ => false);
    ghost var sent: set<int> := {};
    for i := 0 to |script|
      invariant forall c :: 0 <= c < n ==> componentSent[c] == (c in sent)
      invariant AllSequential(script, i, sent, n) == AllSequential(script, 0, {}, n)
      invariant AllSent(script, 0) == sent + AllSent(script, i)
    {
      var s := script[i];
      ok := CheckComps(s, n);
      if !ok { return; }
      if s.ss != 0 || s.se != DCTSIZE2 - 1 || s.ah != 0 || s.al != 0 { return false; }
      var isNew := MarkSent(componentSent, s, sent);
      if !isNew { return false; }
      sent := sent + Components(s);
    }
    for ci := 0 to n
      invariant forall c :: 0 <= c < ci ==> c in sent
      invariant forall c :: 0 <= c < n ==> componentSent[c] == (c in sent)
    {
      if !componentSent[ci] { return false; }
    }
    ok := true;
  }
}
