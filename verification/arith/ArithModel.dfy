/** The arithmetic coder in exact arithmetic: a nest of integer intervals.  The encoder and
    decoder classes are proved to follow this model; here it is proved that a code
    stream whose value lies in the final interval gives every decision back. */
module ArithModel {
  import opened Radix
  import opened ArithTable

  /** A statistics bin: the more probable symbol in bit 7, the table index below. */
  type Bin = b: int | 0 <= b < 256 && b % 128 < 114 witness 0

  /** Where a bin lives: a byte offset in one of the DC or AC areas, or the bin with
      fixed probability 0.5. */
  datatype Stat = Dc(tbl: nat, off: nat) | Ac(tbl: nat, off: nat) | Fixed

  type Stats = map<Stat, Bin>

  datatype Decision = Decision(st: Stat, bit: bool)

  predicate Mps(b: Bin) { b >= 0x80 }

  function Est(tab: Aritab, b: Bin): Estimate { tab[b % 128] }

  /** (sv & 0x80) ^ next, where only bit 7 of sv and all eight bits of next take part. */
  function Xor80(sv: Bin, next: nat): nat
    requires next < 256
  {
    if sv < 0x80 then next else if next < 0x80 then next + 0x80 else next - 0x80
  }

  function AfterMps(tab: Aritab, b: Bin): Bin { Xor80(b, Est(tab, b).mps) }

  function AfterLps(tab: Aritab, b: Bin): Bin {
    Xor80(b, Est(tab, b).switch * 0x80 + Est(tab, b).lps)
  }

  /** Fetch values from the packed representation: Qe, and the bins to go to after a less
      and after a more probable symbol. */
  method Lookup(tab: Aritab, sv: Bin) returns (qe: nat, lps: Bin, mps: Bin)
    ensures qe == Est(tab, sv).qe && lps == AfterLps(tab, sv) && mps == AfterMps(tab, sv)
  {
    Unpack(tab[sv % 0x80]);
    qe := V(tab[sv % 0x80]);
    var nl := qe % 0x100;
    qe := qe / 0x100;
    var nm := qe % 0x100;
    qe := qe / 0x100;
    lps := Xor80(sv, nl);
    mps := Xor80(sv, nm);
  }

  /** The coding interval [base, base + a) in units of 2^-(16 + n). */
  datatype Interval = Interval(base: nat, a: nat, n: nat)

  predicate Normal(i: Interval) { 0x8000 <= i.a <= 0x10000 }

  /** Does the bit select the upper part?  The part of width Qe is always the upper one; it
      goes to the less probable symbol unless it is the wider of the two. */
  predicate Upper(tab: Aritab, i: Interval, b: Bin, bit: bool) {
    var qe := Est(tab, b).qe;
    (bit != Mps(b)) == (i.a - qe >= qe)
  }

  function Narrow(tab: Aritab, i: Interval, b: Bin, bit: bool): (r: Interval)
    requires Normal(i)
    ensures 0 < r.a < 0x10000
  {
    var qe := Est(tab, b).qe;
    if Upper(tab, i, b, bit) then Interval(i.base + i.a - qe, qe, i.n)
    else Interval(i.base, i.a - qe, i.n)
  }

  function Renorm(i: Interval): (r: Interval)
    requires 0 < i.a <= 0x10000
    ensures Normal(r)
    decreases 0x10000 - i.a
  {
    if i.a < 0x8000 then Renorm(Interval(2 * i.base, 2 * i.a, i.n + 1)) else i
  }

  /** The bin changes after every less probable symbol, but after a more probable one only
      when the interval has to be renormalized. */
  function Adapt(tab: Aritab, i: Interval, b: Bin, bit: bool): Bin
    requires Normal(i)
  {
    if bit != Mps(b) then AfterLps(tab, b)
    else if i.a - Est(tab, b).qe >= 0x8000 then b
    else AfterMps(tab, b)
  }

  datatype Coder = Coder(i: Interval, stats: Stats)

  predicate Ready(c: Coder) { Normal(c.i) }

  function Step(tab: Aritab, c: Coder, d: Decision): (r: Coder)
    requires Ready(c) && d.st in c.stats
    ensures Ready(r) && r.stats.Keys == c.stats.Keys
  {
    Coder(Renorm(Narrow(tab, c.i, c.stats[d.st], d.bit)),
          c.stats[d.st := Adapt(tab, c.i, c.stats[d.st], d.bit)])
  }

  predicate Known(c: Coder, ds: seq<Decision>) {
    forall d :: d in ds ==> d.st in c.stats
  }

  function Run(tab: Aritab, c: Coder, ds: seq<Decision>): (r: Coder)
    requires Ready(c) && Known(c, ds)
    ensures Ready(r) && r.stats.Keys == c.stats.Keys
    decreases ds
  {
    if ds == [] then c else Run(tab, Step(tab, c, ds[0]), ds[1..])
  }

  lemma {:induction false} RunAppend(tab: Aritab, c: Coder, xs: seq<Decision>, ys: seq<Decision>)
    requires Ready(c) && Known(c, xs + ys)
    ensures Known(c, xs) && Known(Run(tab, c, xs), ys)
    ensures Run(tab, c, xs + ys) == Run(tab, Run(tab, c, xs), ys)
    decreases xs
  {
    assert forall d :: d in xs ==> d in xs + ys;
    assert forall d :: d in ys ==> d in xs + ys;
    if xs == [] {
      assert xs + ys == ys;
    } else {
      var zs := xs + ys;
      assert zs[0] == xs[0] && zs[1..] == xs[1..] + ys;
      RunAppend(tab, Step(tab, c, xs[0]), xs[1..], ys);
    }
  }

  lemma RunOne(tab: Aritab, c: Coder, d: Decision)
    requires Ready(c) && d.st in c.stats
    ensures Run(tab, c, [d]) == Step(tab, c, d)
  {
    assert Run(tab, Step(tab, c, d), [d][1..]) == Step(tab, c, d);
  }

  // ---- The value of a code stream against a bound ----

  /** The fewest digits that are at least 16 + n bits. */
  function Enough(n: nat): nat { (n + 23) / 8 }

  predicate ReachesAt(data: seq<byte>, n: nat, bound: nat, d: nat)
    requires 8 * d >= 16 + n
  {
    Prefix(data, d) >= bound * Pow2(8 * d - 16 - n)
  }

  /** The code value, read as a fraction, is at least bound / 2^(16 + n). */
  predicate Reaches(data: seq<byte>, n: nat, bound: nat) {
    ReachesAt(data, n, bound, Enough(n))
  }

  /** It does not matter how many digits are looked at, as the bound is a whole number. */
  lemma {:induction false} ReachesAnywhere(data: seq<byte>, n: nat, bound: nat, d: nat)
    requires 8 * d >= 16 + n
    ensures ReachesAt(data, n, bound, d) == Reaches(data, n, bound)
    decreases d
  {
    if d > Enough(n) {
      ReachesAnywhere(data, n, bound, d - 1);
      OneMoreDigit(data, n, bound, d - 1);
    }
  }

  lemma OneMoreDigit(data: seq<byte>, n: nat, bound: nat, d: nat)
    requires 8 * d >= 16 + n
    ensures ReachesAt(data, n, bound, d + 1) == ReachesAt(data, n, bound, d)
  {
    hide Pow2;
    var k := 8 * d - 16 - n;
    Pow2Byte(k);
    Distribute(bound, 256, 0, Pow2(k));
    assert 8 * (d + 1) - 16 - n == k + 8;
    assert bound * Pow2(k + 8) == 256 * (bound * Pow2(k));
  }

  lemma ReachesScaled(data: seq<byte>, n: nat, bound: nat)
    ensures Reaches(data, n + 1, 2 * bound) == Reaches(data, n, bound)
  {
    var d := Enough(n + 1);
    ReachesAnywhere(data, n, bound, d);
    var k := 8 * d - 16 - (n + 1);
    assert Pow2(k + 1) == 2 * Pow2(k);
    assert 2 * bound * Pow2(k) == bound * Pow2(k + 1);
  }

  lemma ReachesMonotone(data: seq<byte>, n: nat, x: nat, y: nat)
    requires x <= y && Reaches(data, n, y)
    ensures Reaches(data, n, x)
  {
    hide Pow2, Prefix;
    MulOrder(x, y, Pow2(8 * Enough(n) - 16 - n));
  }

  predicate Contains(data: seq<byte>, i: Interval) {
    Reaches(data, i.n, i.base) && !Reaches(data, i.n, i.base + i.a)
  }

  lemma {:induction false} RenormContains(data: seq<byte>, i: Interval)
    requires 0 < i.a <= 0x10000
    ensures Contains(data, Renorm(i)) == Contains(data, i)
    decreases 0x10000 - i.a
  {
    if i.a < 0x8000 {
      RenormContains(data, Interval(2 * i.base, 2 * i.a, i.n + 1));
      ReachesScaled(data, i.n, i.base);
      ReachesScaled(data, i.n, i.base + i.a);
    }
  }

  lemma NarrowContains(tab: Aritab, data: seq<byte>, i: Interval, b: Bin, bit: bool)
    requires Normal(i) && Contains(data, Narrow(tab, i, b, bit))
    ensures Contains(data, i)
    ensures !Contains(data, Narrow(tab, i, b, !bit))
  {
    var r := Narrow(tab, i, b, bit);
    ReachesMonotone(data, i.n, i.base, r.base);
    if Reaches(data, i.n, i.base + i.a) {
      ReachesMonotone(data, i.n, r.base + r.a, i.base + i.a);
    }
  }

  lemma {:induction false} RunContains(tab: Aritab, data: seq<byte>, c: Coder, ds: seq<Decision>)
    requires Ready(c) && Known(c, ds) && Contains(data, Run(tab, c, ds).i)
    ensures Contains(data, c.i)
    decreases ds
  {
    if ds != [] {
      RunContains(tab, data, Step(tab, c, ds[0]), ds[1..]);
      RenormContains(data, Narrow(tab, c.i, c.stats[ds[0].st], ds[0].bit));
      NarrowContains(tab, data, c.i, c.stats[ds[0].st], ds[0].bit);
    }
  }

  // ---- Decoding in the model ----

  /** The bit whose part of the interval holds the code value. */
  function Decide(tab: Aritab, data: seq<byte>, i: Interval, b: Bin): (bit: bool)
    requires Normal(i)
    ensures Contains(data, i) ==> Contains(data, Narrow(tab, i, b, bit))
  {
    var qe := Est(tab, b).qe;
    (Reaches(data, i.n, i.base + i.a - qe) == (i.a - qe >= qe)) != Mps(b)
  }

  function DecodeRun(tab: Aritab, data: seq<byte>, c: Coder, sts: seq<Stat>): (seq<bool>, Coder)
    requires Ready(c) && forall st :: st in sts ==> st in c.stats
    decreases sts
  {
    if sts == [] then ([], c)
    else
      var bit := Decide(tab, data, c.i, c.stats[sts[0]]);
      var (bits, last) := DecodeRun(tab, data, Step(tab, c, Decision(sts[0], bit)), sts[1..]);
      ([bit] + bits, last)
  }

  function Sts(ds: seq<Decision>): seq<Stat> { seq(|ds|, i requires 0 <= i < |ds| => ds[i].st) }
  function Bits(ds: seq<Decision>): seq<bool> { seq(|ds|, i requires 0 <= i < |ds| => ds[i].bit) }

  lemma FirstDecision(tab: Aritab, data: seq<byte>, c: Coder, ds: seq<Decision>)
    requires Ready(c) && ds != [] && Known(c, ds) && Contains(data, Run(tab, c, ds).i)
    ensures Contains(data, c.i)
    ensures Contains(data, Narrow(tab, c.i, c.stats[ds[0].st], ds[0].bit))
    ensures !Contains(data, Narrow(tab, c.i, c.stats[ds[0].st], !ds[0].bit))
  {
    RunContains(tab, data, c, ds);
    RunContains(tab, data, Step(tab, c, ds[0]), ds[1..]);
    RenormContains(data, Narrow(tab, c.i, c.stats[ds[0].st], ds[0].bit));
    NarrowContains(tab, data, c.i, c.stats[ds[0].st], ds[0].bit);
  }

  lemma StsKnown(c: Coder, ds: seq<Decision>)
    requires Known(c, ds)
    ensures forall st :: st in Sts(ds) ==> st in c.stats
  {
    forall st | st in Sts(ds) ensures st in c.stats {
      var k :| 0 <= k < |ds| && Sts(ds)[k] == st;
      assert ds[k] in ds;
    }
  }

  /** Any stream whose value lies in the final interval decodes to the coded decisions, and
      the decoder ends with the interval and the statistics the encoder ended with. */
  lemma {:induction false} DecodingRecovers(tab: Aritab, data: seq<byte>, c: Coder, ds: seq<Decision>)
    requires Ready(c) && Known(c, ds) && Contains(data, Run(tab, c, ds).i)
    ensures forall st :: st in Sts(ds) ==> st in c.stats
    ensures DecodeRun(tab, data, c, Sts(ds)) == (Bits(ds), Run(tab, c, ds))
    decreases ds
  {
    StsKnown(c, ds);
    if ds == [] {
      assert Sts(ds) == [] && Bits(ds) == [];
    } else {
      var d := ds[0];
      assert d in ds;
      FirstDecision(tab, data, c, ds);
      assert Decide(tab, data, c.i, c.stats[d.st]) == d.bit;
      var c' := Step(tab, c, d);
      DecodingRecovers(tab, data, c', ds[1..]);
      assert Sts(ds)[0] == d.st && Sts(ds)[1..] == Sts(ds[1..]);
      assert Bits(ds) == [d.bit] + Bits(ds[1..]);
    }
  }
}
