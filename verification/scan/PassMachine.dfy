/** The pass machine of the compressor: prepare_for_pass and finish_pass_master of jcmaster.c,
    driven by jpeg_finish_compress of jcapimin.c. */
module PassMachine {
  import opened ScanScript
  import opened ScanChecks

  datatype PassType = MainPass | HuffOptPass | OutputPass

  /** A scan that refines DC coefficients needs no table. */
  predicate DcRefinement(s: Scan) { s.ss == 0 && s.ah != 0 }

  class Master {
    const script: seq<Scan>
    const optimizeCoding: bool
    const totalPasses: nat
    var passType: PassType
    var passNumber: nat           // how many passes are over
    var scanNumber: nat           // the scan at hand
    var isLastPass: bool
    var gathering: bool           // the current pass only gathers statistics
    ghost var written: seq<nat>   // the scans output so far
    ghost var gathered: seq<nat>  // the scans for which statistics have been gathered

    /** The passes of an optimizing compressor alternate; the first scan needs statistics. */
    ghost predicate Setup()
      reads this
    {
      && script != [] && !DcRefinement(script[0])
      && totalPasses == (if optimizeCoding then 2 else 1) * |script|
    }

    /** Before a pass: every scan before the current one has been output, in order, and with
        optimization the current one has had its statistics gathered when its output is next. */
    ghost predicate Ready()
      reads this
    {
      && Setup() && scanNumber < |script| && written == seq(scanNumber, i => i)
      && (optimizeCoding ==> passNumber == 2 * scanNumber + (if passType == OutputPass then 1 else 0))
      && (!optimizeCoding ==> passNumber == scanNumber && passType != HuffOptPass)
      && (passType == MainPass ==> scanNumber == 0)
      && gathered == Tables(if passType == OutputPass then scanNumber + 1 else scanNumber)
    }

    /** The scans below n that need tables, when coding is optimized. */
    ghost function Tables(n: nat): seq<nat>
    {
      if n == 0 || !optimizeCoding then []
      else if n <= |script| && !DcRefinement(script[n - 1]) then Tables(n - 1) + [n - 1]
      else Tables(n - 1)
    }

    /** During a pass. */
    ghost predicate Running()
      reads this
    {
      && Setup() && scanNumber < |script| && written == seq(scanNumber, i => i)
      && (optimizeCoding ==> passNumber == 2 * scanNumber + (if gathering then 0 else 1))
      && (!optimizeCoding ==> passNumber == scanNumber && !gathering && passType != HuffOptPass)
      && (passType == MainPass ==> scanNumber == 0 && gathering == optimizeCoding)
      && (passType == HuffOptPass ==> gathering) && (passType == OutputPass ==> !gathering)
      && (gathering ==> !DcRefinement(script[scanNumber]))
      && gathered == Tables(if gathering then scanNumber else scanNumber + 1)
      && isLastPass == (passNumber == totalPasses - 1)
    }

    constructor (script: seq<Scan>, optimizeCoding: bool, transcodeOnly: bool)
      requires script != [] && !DcRefinement(script[0])
      ensures Ready() && this.script == script && this.optimizeCoding == optimizeCoding && !isLastPass
      ensures Left() >= 0
    {
      this.script, this.optimizeCoding := script, optimizeCoding;
      passType := if !transcodeOnly then MainPass else if optimizeCoding then HuffOptPass else OutputPass;
      scanNumber, passNumber, isLastPass, gathering := 0, 0, false, false;
      totalPasses := if optimizeCoding then |script| * 2 else |script|;
      written, gathered := [], [];
      new;
      assert !optimizeCoding ==> Tables(1) == [];
    }

    /** Start a pass: what it does, and whether another follows. */
    method PrepareForPass()
      requires Ready()
      modifies this
      ensures Running() && scanNumber == old(scanNumber) && written == old(written)
      ensures isLastPass <==> scanNumber == |script| - 1 && !gathering
      ensures Left() <= old(Left())
    {
      match passType {
        case MainPass =>
          gathering := optimizeCoding;
        case HuffOptPass =>
          if !DcRefinement(script[scanNumber]) {
            gathering := true;
          } else {
            // raw bits only: there is nothing to count
            passType := OutputPass;
            passNumber := passNumber + 1;
            gathering := false;
          }
        case OutputPass =>
          gathering := false;
      }
      assert !optimizeCoding ==> Tables(scanNumber) == [] == Tables(scanNumber + 1);
      isLastPass := passNumber == totalPasses - 1;
    }

    /** End a pass. */
    method FinishPass()
      requires Running()
      modifies this
      ensures isLastPass == old(isLastPass) && Setup()
      ensures !isLastPass ==> Ready() && Left() >= 0
      ensures written == if old(gathering) then old(written) else old(written) + [old(scanNumber)]
      ensures gathered == if old(gathering) then old(gathered) + [old(scanNumber)] else old(gathered)
      ensures Left() < old(Left())
      ensures isLastPass ==> scanNumber == |script| && gathered == Tables(|script|) && written == seq(|script|, i => i)
    {
      if gathering { gathered := gathered + [scanNumber]; } else { written := written + [scanNumber]; }
      match passType {
        case MainPass =>
          passType := OutputPass;
          if !optimizeCoding { scanNumber := scanNumber + 1; }
        case HuffOptPass =>
          passType := OutputPass;
        case OutputPass =>
          if optimizeCoding { passType := HuffOptPass; }
          scanNumber := scanNumber + 1;
      }
      passNumber := passNumber + 1;
      assert !optimizeCoding ==> Tables(scanNumber) == [] && Tables(scanNumber + 1) == [];
    }

    ghost function Left(): int
      reads this
    {
      2 * (|script| - scanNumber) - (if passType == OutputPass && optimizeCoding then 1 else 0)
    }
  }

  /** All passes of a compression.  Every scan is output exactly once, in order; with optimization
      every scan but the DC refinement scans first has its statistics gathered. */
  method Compress(script: seq<Scan>, optimizeCoding: bool, transcodeOnly: bool) returns (m: Master)
    requires script != [] && !DcRefinement(script[0])
    ensures fresh(m) && m.script == script && m.written == seq(|script|, i => i)
    ensures m.optimizeCoding == optimizeCoding && m.gathered == m.Tables(|script|)
  {
    hide Master.Ready, Master.Running, Master.Setup, Master.Tables, Master.Left;
    m := new Master(script, optimizeCoding, transcodeOnly);
    if !transcodeOnly {
      // the pass in which the application supplies rows
      m.PrepareForPass();
      m.FinishPass();
    }
    // the others work from the stored coefficients
    while !m.isLastPass
      invariant fresh(m) && (!m.isLastPass ==> m.Ready() && m.Left() >= 0)
      invariant m.isLastPass ==> m.written == seq(|script|, i => i) && m.gathered == m.Tables(|script|)
      decreases m.Left()
    {
      m.PrepareForPass();
      m.FinishPass();
    }
  }

  // ---- From a script ----

  /** The last coefficient of a block. */
  function LimSe(blockSize: nat): int {
    if blockSize < 8 then blockSize * blockSize - 1 else DCTSIZE2 - 1
  }

  lemma LimRange(blockSize: nat)
    requires 1 <= blockSize
    ensures 0 <= LimSe(blockSize) < DCTSIZE2
  {
    if blockSize < 8 { assert blockSize * blockSize <= 7 * 7 by { Squares(blockSize, 7); } }
  }

  lemma Squares(a: nat, b: nat)
    requires 1 <= a <= b
    ensures 1 <= a * a <= b * b
  {
    assert b * b == a * a + (b - a) * (b + a);
  }

  /** The script that the passes go through. */
  function ScriptFor(script: seq<Scan>, blockSize: nat): seq<Scan> {
    if blockSize < 8 then Reduced(script, 0, LimSe(blockSize)) else script
  }

  /** A script that is accepted starts with DC coefficients, and not with a refinement of them. */
  lemma StartsWithDc(script: seq<Scan>, n: nat, precision: nat)
    requires ScriptOk(script, n, precision)
    ensures script[0].ss == 0 && script[0].ah == 0
  {
    if Progressive(script) {
      var s := script[0];
      var c := s.componentIndex[0];
      assert ProgressiveOk(Fresh(n), s, precision);
      assert ComponentOk(Fresh(n), s, c);
      assert CarriesOn(Fresh(n)[c][s.ss], s);
    }
  }

  /** So the first pass has tables to make. */
  lemma FirstScan(script: seq<Scan>, n: nat, precision: nat, blockSize: nat)
    requires ScriptOk(script, n, precision) && 1 <= blockSize
    ensures ScriptFor(script, blockSize) != [] && !DcRefinement(ScriptFor(script, blockSize)[0])
  {
    hide ScriptOk;
    StartsWithDc(script, n, precision);
    LimRange(blockSize);
    ScriptNonempty(script, n, precision);
  }

  lemma ScriptNonempty(script: seq<Scan>, n: nat, precision: nat)
    requires ScriptOk(script, n, precision)
    ensures script != []
  {
  }

  /** jinit_c_master_control, and all passes: a script is validated and adapted to the block size;
      then every one of its scans is output once, in order. */
  method CompressScript(script: seq<Scan>, n: nat, precision: nat, blockSize: nat, arithCode: bool, optimize: bool, transcodeOnly: bool)
      returns (ok: bool, m: Master?)
    requires 1 <= blockSize
    ensures ok == ScriptOk(script, n, precision) == (m != null)
    ensures ok ==> m.script == ScriptFor(script, blockSize) && m.written == seq(|m.script|, i => i)
    ensures ok ==> m.optimizeCoding == (optimize || (!arithCode && (Progressive(script) || 1 < blockSize < 8)))
    ensures ok ==> m.gathered == m.Tables(|m.script|)
  {
    m := null;
    var progressive;
    ok, progressive := ValidateScript(script, n, precision);
    if !ok { return; }
    FirstScan(script, n, precision, blockSize);
    var scans := new Scan[|script|](i requires 0 <= i < |script| => script[i]);
    assert scans[..|script|] == script;
    var num := |script|;
    if blockSize < 8 { num := ReduceScript(scans, |script|, LimSe(blockSize)); }
    var optimizeCoding := optimize || (!arithCode && (progressive || 1 < blockSize < 8));
    assert scans[..num] == ScriptFor(script, blockSize);
    m := Compress(scans[..num], optimizeCoding, transcodeOnly);
  }
}
