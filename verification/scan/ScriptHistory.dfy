/** What an accepted progressive script looks like as a whole, without the bit positions that
    validate_script keeps: every scan is legal by itself, and the scans of each coefficient are a
    chain of successive approximation behind the first DC scan of its component. */
module ScriptHistory {
  import opened ScanScript

  /** One scan by itself: one to four components in ascending order, the DC coefficient of all of
      them or a band of one of them, and bit positions within the precision. */
  predicate Legal(s: Scan, n: nat, precision: nat) {
    && 1 <= s.compsInScan <= 4
    && (forall ci :: 0 <= ci < s.compsInScan ==> 0 <= s.componentIndex[ci] < n)
    && (forall i, j :: 0 <= i < j < s.compsInScan ==> s.componentIndex[i] < s.componentIndex[j])
    && (s.ss == s.se == 0 || (1 <= s.ss <= s.se <= 63 && s.compsInScan == 1))
    && 0 <= s.ah && 0 <= s.al && (if precision <= 8 then s.ah <= 10 && s.al <= 10 else s.ah <= 13 && s.al <= 13)
  }

  lemma LegalIs(s: Scan, n: nat, precision: nat)
    ensures Legal(s, n, precision) <==> CompsOk(s, n) && BandOk(s, precision)
  {
    if CompsOk(s, n) { AscendingFar(s); }
  }

  /** The scan sends coefficient k of component c. */
  predicate Sends(s: Scan, c: int, k: int) { InScan(s, c) && s.ss <= k <= s.se }

  /** Those of the first j scans that send the coefficient. */
  function History(script: seq<Scan>, j: nat, c: int, k: int): (h: seq<Scan>)
    requires j <= |script|
    ensures h != [] <==> exists i :: 0 <= i < j && Sends(script[i], c, k)
    ensures h != [] ==> exists i :: 0 <= i < j && Sends(script[i], c, k) && h[|h| - 1] == script[i]
  {
    if j == 0 then [] else History(script, j - 1, c, k) + (if Sends(script[j - 1], c, k) then [script[j - 1]] else [])
  }

  /** The first scan has no bits before it, and each of the others adds one. */
  predicate Chain(h: seq<Scan>) {
    forall i :: 0 <= i < |h| ==> Link(h, i)
  }

  predicate Link(h: seq<Scan>, i: nat)
    requires i < |h|
  {
    if i == 0 then h[0].ah == 0 else h[i].ah == h[i - 1].al && h[i].al == h[i].ah - 1
  }

  predicate AllLegal(script: seq<Scan>, n: nat, precision: nat) {
    forall i :: 0 <= i < |script| ==> Legal(script[i], n, precision)
  }

  /** No AC coefficients of a component come before its first DC scan. */
  predicate DcFirst(script: seq<Scan>, n: nat) {
    forall j, c :: 0 <= j < |script| && 0 <= c < n && InScan(script[j], c) && script[j].ss != 0 ==> History(script, j, c, 0) != []
  }

  predicate AllChains(script: seq<Scan>, n: nat) {
    forall c, k :: 0 <= c < n && 0 <= k < 64 ==> Chain(History(script, |script|, c, k))
  }

  predicate DcSent(script: seq<Scan>, n: nat) {
    forall c :: 0 <= c < n ==> History(script, |script|, c, 0) != []
  }

  // ---- The bit positions ----

  function Mark(h: seq<Scan>): int { if h == [] then -1 else h[|h| - 1].al }

  function MarksAt(script: seq<Scan>, j: nat, n: nat): (b: Marks)
    requires j <= |script|
    ensures |b| == n
  {
    if j == 0 then Fresh(n) else Marked(MarksAt(script, j - 1, n), script[j - 1])
  }

  lemma {:induction false} MarkIs(script: seq<Scan>, j: nat, n: nat, c: nat, k: nat)
    requires j <= |script| && c < n && k < DCTSIZE2
    ensures MarksAt(script, j, n)[c][k] == Mark(History(script, j, c, k))
  {
    hide Marked, Fresh, InScan;
    if j > 0 {
      MarkIs(script, j - 1, n, c, k);
      MarkedAt(MarksAt(script, j - 1, n), script[j - 1], c, k);
    }
  }

  lemma ChainSnoc(h: seq<Scan>, s: Scan)
    requires h != [] ==> 0 <= h[|h| - 1].al
    ensures Chain(h + [s]) <==> Chain(h) && CarriesOn(Mark(h), s)
  {
    var t := h + [s];
    forall i | 0 <= i < |h| ensures Link(t, i) == Link(h, i) {}
    assert Link(t, |h|) == CarriesOn(Mark(h), s);
  }

  lemma NoChain(script: seq<Scan>, c: int, k: int)
    ensures Chain(History(script, 0, c, k))
  {
  }

  predicate Goes(script: seq<Scan>, j: nat, c: int, k: int)
    requires j < |script|
  {
    Sends(script[j], c, k) ==> CarriesOn(Mark(History(script, j, c, k)), script[j])
  }

  predicate AllGo(script: seq<Scan>, j: nat, c: int, k: int)
    requires j <= |script|
  {
    forall i :: 0 <= i < j ==> Goes(script, i, c, k)
  }

  lemma OneMoreGoes(script: seq<Scan>, j: nat, c: int, k: int)
    requires j < |script|
    ensures AllGo(script, j + 1, c, k) <==> AllGo(script, j, c, k) && Goes(script, j, c, k)
  {
    hide Goes;
  }

  lemma NoneGo(script: seq<Scan>, c: int, k: int)
    ensures AllGo(script, 0, c, k)
  {
  }

  /** What the chain of a coefficient asks of each scan. */
  lemma {:induction false} ChainIs(script: seq<Scan>, j: nat, c: int, k: int, n: nat, precision: nat)
    requires j <= |script| && AllLegal(script, n, precision)
    ensures Chain(History(script, j, c, k)) <==> AllGo(script, j, c, k)
  {
    hide Chain, Goes, AllGo, History, AllLegal;
    if j == 0 {
      NoChain(script, c, k);
      NoneGo(script, c, k);
    } else {
      ChainIs(script, j - 1, c, k, n, precision);
      ChainStep(script, j - 1, c, k, n, precision);
      OneMoreGoes(script, j - 1, c, k);
    }
  }

  lemma ChainStep(script: seq<Scan>, j: nat, c: int, k: int, n: nat, precision: nat)
    requires j < |script| && AllLegal(script, n, precision)
    ensures Chain(History(script, j + 1, c, k)) <==> Chain(History(script, j, c, k)) && Goes(script, j, c, k)
  {
    hide Chain, CarriesOn, InScan, Mark;
    var h := History(script, j, c, k);
    assert h != [] ==> 0 <= h[|h| - 1].al;
    ChainSnoc(h, script[j]);
    assert h + [] == h;
  }

  // ---- Accepted scripts ----

  predicate OkAt(script: seq<Scan>, j: nat, n: nat, precision: nat)
    requires j < |script|
  {
    ProgressiveOk(MarksAt(script, j, n), script[j], precision)
  }

  lemma {:induction false} AcceptedFrom(script: seq<Scan>, i: nat, n: nat, precision: nat)
    requires i <= |script|
    ensures Accepted(script, i, MarksAt(script, i, n), precision) <==>
      forall j :: i <= j < |script| ==> OkAt(script, j, n, precision)
    decreases |script| - i
  {
    hide ProgressiveOk, Marked, Fresh;
    if i < |script| {
      AcceptedFrom(script, i + 1, n, precision);
      assert OkAt(script, i, n, precision) == ProgressiveOk(MarksAt(script, i, n), script[i], precision);
    }
  }

  /** A legal scan fits behind those before it. */
  predicate Fits(script: seq<Scan>, j: nat, n: nat)
    requires j < |script|
  {
    && (forall c, k :: 0 <= c < n && 0 <= k < DCTSIZE2 ==> Goes(script, j, c, k))
    && (forall c :: 0 <= c < n && InScan(script[j], c) && script[j].ss != 0 ==> History(script, j, c, 0) != [])
  }

  lemma OkIs(script: seq<Scan>, j: nat, n: nat, precision: nat)
    requires j < |script| && AllLegal(script, n, precision)
    ensures OkAt(script, j, n, precision) <==> Fits(script, j, n)
  {
    hide Fits, Legal, CompsOk, BandOk, ComponentOk;
    var s, b := script[j], MarksAt(script, j, n);
    LegalIs(s, n, precision);
    InRange(s, n, precision);
    Separate(script, j, n);
    forall c | 0 <= c < n && InScan(s, c) ensures ComponentOk(b, s, c) <==> ComponentFits(script, j, c) {
      ComponentIs(script, j, n, c, precision);
    }
    forall ci | 0 <= ci < s.compsInScan ensures InScan(s, s.componentIndex[ci]) {}
  }

  lemma InRange(s: Scan, n: nat, precision: nat)
    requires Legal(s, n, precision)
    ensures 1 <= s.compsInScan <= 4 && 0 <= s.ss <= s.se < DCTSIZE2
    ensures forall ci :: 0 <= ci < s.compsInScan ==> 0 <= s.componentIndex[ci] < n
  {
  }

  predicate ComponentFits(script: seq<Scan>, j: nat, c: int)
    requires j < |script|
  {
    (forall k :: 0 <= k < DCTSIZE2 ==> Goes(script, j, c, k)) && (script[j].ss != 0 ==> History(script, j, c, 0) != [])
  }

  lemma Separate(script: seq<Scan>, j: nat, n: nat)
    requires j < |script|
    ensures Fits(script, j, n) <==> forall c :: 0 <= c < n && InScan(script[j], c) ==> ComponentFits(script, j, c)
  {
    hide InScan, History, CarriesOn;
    if forall c :: 0 <= c < n && InScan(script[j], c) ==> ComponentFits(script, j, c) {
      forall c, k | 0 <= c < n && 0 <= k < DCTSIZE2 ensures Goes(script, j, c, k) {}
    }
  }

  lemma ComponentIs(script: seq<Scan>, j: nat, n: nat, c: nat, precision: nat)
    requires j < |script| && c < n && AllLegal(script, n, precision) && 0 <= script[j].ss && script[j].se < DCTSIZE2
    requires InScan(script[j], c)
    ensures ComponentOk(MarksAt(script, j, n), script[j], c) <==> ComponentFits(script, j, c)
  {
    hide InScan, History, CarriesOn, Marked, Fresh, Legal;
    var s, b := script[j], MarksAt(script, j, n);
    MarkIs(script, j, n, c, 0);
    KnownMark(script, j, n, c, 0, precision);
    forall k | 0 <= k < DCTSIZE2 ensures Goes(script, j, c, k) == (s.ss <= k <= s.se ==> CarriesOn(b[c][k], s)) {
      MarkIs(script, j, n, c, k);
    }
  }

  lemma KnownMark(script: seq<Scan>, j: nat, n: nat, c: int, k: int, precision: nat)
    requires j <= |script| && AllLegal(script, n, precision)
    ensures Mark(History(script, j, c, k)) >= 0 <==> History(script, j, c, k) != []
  {
    hide InScan;
  }

  /** A progressive script is accepted exactly if every scan is legal, the scans of every coefficient
      are a chain, and every component has a DC scan, in front of all its AC scans. */
  lemma AcceptedScripts(script: seq<Scan>, n: nat, precision: nat)
    ensures ProgressiveScript(script, n, precision) <==>
      AllLegal(script, n, precision) && AllChains(script, n) && DcFirst(script, n) && DcSent(script, n)
  {
    hide Legal, AllLegal, AllChains, DcFirst, DcSent, Fits, OkAt, Fresh, Marked;
    AcceptedFrom(script, 0, n, precision);
    assert MarksAt(script, 0, n) == Fresh(n);
    if AllLegal(script, n, precision) {
      forall j | 0 <= j < |script| ensures OkAt(script, j, n, precision) <==> Fits(script, j, n) {
        OkIs(script, j, n, precision);
      }
      AllFit(script, n);
      ChainsGo(script, n, precision);
      SentIs(script, n, precision);
      assert Accepted(script, 0, Fresh(n), precision) <==> forall j :: 0 <= j < |script| ==> Fits(script, j, n);
      assert Accepted(script, 0, Fresh(n), precision) <==> AllChains(script, n) && DcFirst(script, n);
      assert DcSent(script, n) <==> forall c :: 0 <= c < n ==> After(script, 0, Fresh(n))[c][0] >= 0;
    } else {
      NotLegal(script, n, precision);
    }
  }

  lemma ChainsGo(script: seq<Scan>, n: nat, precision: nat)
    requires AllLegal(script, n, precision)
    ensures AllChains(script, n) <==> forall c, k :: 0 <= c < n && 0 <= k < DCTSIZE2 ==> AllGo(script, |script|, c, k)
  {
    hide AllLegal, Chain, AllGo, History;
    forall c, k | 0 <= c < n && 0 <= k < DCTSIZE2
      ensures Chain(History(script, |script|, c, k)) <==> AllGo(script, |script|, c, k)
    {
      ChainIs(script, |script|, c, k, n, precision);
    }
  }

  lemma SentIs(script: seq<Scan>, n: nat, precision: nat)
    requires AllLegal(script, n, precision)
    ensures DcSent(script, n) <==> forall c :: 0 <= c < n ==> After(script, 0, Fresh(n))[c][0] >= 0
  {
    hide AllLegal, History, Fresh, Mark;
    assert MarksAt(script, 0, n) == Fresh(n);
    AfterAll(script, 0, n);
    forall c | 0 <= c < n ensures MarksAt(script, |script|, n)[c][0] >= 0 <==> History(script, |script|, c, 0) != [] {
      MarkIs(script, |script|, n, c, 0);
      KnownMark(script, |script|, n, c, 0, precision);
    }
  }

  lemma NotLegal(script: seq<Scan>, n: nat, precision: nat)
    requires !AllLegal(script, n, precision)
    ensures !forall j :: 0 <= j < |script| ==> OkAt(script, j, n, precision)
  {
    hide Legal, CompsOk, BandOk, ComponentOk;
    var j :| 0 <= j < |script| && !Legal(script[j], n, precision);
    LegalIs(script[j], n, precision);
    assert !OkAt(script, j, n, precision);
  }

  lemma {:induction false} AfterAll(script: seq<Scan>, i: nat, n: nat)
    requires i <= |script|
    ensures After(script, i, MarksAt(script, i, n)) == MarksAt(script, |script|, n)
    decreases |script| - i
  {
    hide Marked, Fresh;
    if i < |script| { AfterAll(script, i + 1, n); }
  }

  lemma AllFit(script: seq<Scan>, n: nat)
    ensures (forall j :: 0 <= j < |script| ==> Fits(script, j, n)) <==>
      (forall c, k :: 0 <= c < n && 0 <= k < DCTSIZE2 ==> AllGo(script, |script|, c, k)) && DcFirst(script, n)
  {
    hide Goes, InScan, History;
    if forall j :: 0 <= j < |script| ==> Fits(script, j, n) {
      forall c, k | 0 <= c < n && 0 <= k < DCTSIZE2 ensures AllGo(script, |script|, c, k) {
        forall j | 0 <= j < |script| ensures Goes(script, j, c, k) { assert Fits(script, j, n); }
      }
      forall j, c | 0 <= j < |script| && 0 <= c < n && InScan(script[j], c) && script[j].ss != 0
        ensures History(script, j, c, 0) != []
      {
        assert Fits(script, j, n);
      }
    } else {
      var j :| 0 <= j < |script| && !Fits(script, j, n);
      NoFit(script, j, n);
    }
  }

  lemma NoFit(script: seq<Scan>, j: nat, n: nat)
    requires j < |script| && !Fits(script, j, n)
    ensures (exists c, k :: 0 <= c < n && 0 <= k < DCTSIZE2 && !AllGo(script, |script|, c, k)) || !DcFirst(script, n)
  {
    hide Goes, InScan, History;
    if c, k :| 0 <= c < n && 0 <= k < DCTSIZE2 && !Goes(script, j, c, k) {
      assert !AllGo(script, |script|, c, k);
    }
  }
}
