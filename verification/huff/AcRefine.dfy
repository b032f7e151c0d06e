/** Successive approximation refinement of AC bands (section G.1.2.3 of ITU-T T.81): what a
    block turns into, as the encoder finds it while it scans the band with its counters, and
    as the decoder takes it apart, one code at a time. */
module AcRefine {
  import opened Radix
  import opened Blocks
  import opened HuffTokens
  import opened EobRuns

  /** A band of one block after the point transform: magnitudes and signs, in zigzag order. */
  datatype Band = Band(tab: nat, ss: nat, se: nat, z: seq<nat>, neg: seq<bool>)

  predicate BandOk(b: Band) {
    1 <= b.ss <= b.se < 64 && |b.z| == |b.neg| == 64
  }

  function BandOf(tab: nat, ss: nat, se: nat, block: Block, order: Order, al: nat): (b: Band)
    requires 1 <= ss <= se < 64
    ensures BandOk(b)
  {
    Band(tab, ss, se,
         seq(64, k requires 0 <= k < 64 => Shr(Abs(block[order[k]]), al)),
         seq(64, k requires 0 <= k < 64 => block[order[k]] < 0))
  }

  /** The last newly nonzero coefficient up to position k, or 0. */
  function LastNew(b: Band, k: nat): (r: nat)
    requires BandOk(b) && b.ss <= k + 1 <= 64
    ensures r == 0 || (b.ss <= r <= k && b.z[r] == 1)
    ensures forall i :: b.ss <= i <= k && b.z[i] == 1 ==> i <= r
  {
    if k < b.ss then 0 else if b.z[k] == 1 then k else LastNew(b, k - 1)
  }

  function Eob(b: Band): (r: nat)
    requires BandOk(b)
    ensures r == 0 || (b.ss <= r <= b.se && b.z[r] == 1)
    ensures forall i :: b.ss <= i <= b.se && b.z[i] == 1 ==> i <= r
  {
    LastNew(b, b.se)
  }

  /** The first position behind the last newly nonzero coefficient. */
  function TailStart(b: Band): nat
    requires BandOk(b)
  {
    if Eob(b) == 0 then b.ss else Eob(b) + 1
  }

  function Bit(v: nat): bool { v % 2 == 1 }

  /** The correction bits from position k on. */
  function Tail(b: Band, k: nat): (t: seq<bool>)
    requires BandOk(b) && k <= b.se + 1
    ensures |t| <= b.se + 1 - k
    decreases b.se + 1 - k
  {
    if k > b.se then [] else (if b.z[k] > 1 then [Bit(b.z[k])] else []) + Tail(b, k + 1)
  }

  // ---- As the encoder finds it ----

  /** Figure G.7 from position k on, up to the last newly nonzero coefficient: r zeros and the
      correction bits br have been passed since the last code. */
  function Scanned(b: Band, k: nat, r: nat, br: seq<bool>): seq<Token>
    requires BandOk(b)
    decreases Eob(b) + 1 - k, r
  {
    if k > Eob(b) then []
    else if b.z[k] == 0 then Scanned(b, k + 1, r + 1, br)
    else if r > 15 then [Sym(b.tab, 0xF0)] + Raws(br) + Scanned(b, k, r - 16, [])
    else if b.z[k] > 1 then Scanned(b, k + 1, r, br + [Bit(b.z[k])])
    else [Sym(b.tab, r * 16 + 1), Raw(!b.neg[k])] + Raws(br) + Scanned(b, k + 1, 0, [])
  }

  // ---- As the decoder takes it apart ----

  /** A code covers the band up to the sixteenth zero or the next newly nonzero coefficient,
      whichever comes first, and is followed by the correction bits in between. */
  datatype Hit = Hit(pos: nat, run: nat, bits: seq<bool>)

  function NextHit(b: Band, k: nat, r: nat, br: seq<bool>): (h: Hit)
    requires BandOk(b) && b.ss <= k <= Eob(b) && r <= 15
    ensures br <= h.bits && r <= h.run
    ensures k <= h.pos <= Eob(b) && h.run <= 15 && ((b.z[h.pos] == 0 && h.run == 15) || b.z[h.pos] == 1)
    decreases Eob(b) - k
  {
    if b.z[k] == 1 then Hit(k, r, br)
    else if b.z[k] > 1 then NextHit(b, k + 1, r, br + [Bit(b.z[k])])
    else if r == 15 then Hit(k, 15, br)
    else NextHit(b, k + 1, r + 1, br)
  }

  function HitTokens(b: Band, h: Hit): seq<Token>
    requires BandOk(b) && h.pos < 64 && h.run <= 15
  {
    (if b.z[h.pos] == 1 then [Sym(b.tab, h.run * 16 + 1), Raw(!b.neg[h.pos])] else [Sym(b.tab, 0xF0)]) + Raws(h.bits)
  }

  function Head(b: Band, k: nat): (t: seq<Token>)
    requires BandOk(b) && b.ss <= k
    ensures k <= Eob(b) ==> t != []
    decreases Eob(b) + 1 - k
  {
    if k > Eob(b) then []
    else
      var h := NextHit(b, k, 0, []);
      HitTokens(b, h) + Head(b, h.pos + 1)
  }

  function ItemOf(b: Band): (x: Item)
    requires BandOk(b)
    ensures ItemOk(x)
  {
    var eob := Eob(b) < b.se;
    Item(Head(b, b.ss), eob, if eob then Tail(b, TailStart(b)) else [])
  }

  // ---- Both are the same ----

  /** Zeros counted beyond the sixteenth belong to the next code. */
  lemma {:induction false} LongRun(b: Band, k: nat, r: nat, br: seq<bool>)
    requires BandOk(b) && b.ss <= k <= Eob(b) && r >= 16
    ensures Scanned(b, k, r, br) == [Sym(b.tab, 0xF0)] + Raws(br) + Scanned(b, k, r - 16, [])
    decreases Eob(b) - k
  {
    hide Raws;
    if b.z[k] == 0 { LongRun(b, k + 1, r + 1, br); }
  }

  lemma {:induction false} ScannedIsHits(b: Band, k: nat, r: nat, br: seq<bool>)
    requires BandOk(b) && b.ss <= k <= Eob(b) && r <= 15
    ensures var h := NextHit(b, k, r, br); Scanned(b, k, r, br) == HitTokens(b, h) + Head(b, h.pos + 1)
    decreases Eob(b) - k, 0
  {
    hide Raws, Eob, Head;
    if b.z[k] == 1 {
      ScannedIsHead(b, k + 1);
    } else if b.z[k] > 1 {
      ScannedIsHits(b, k + 1, r, br + [Bit(b.z[k])]);
    } else if r == 15 {
      LongRun(b, k + 1, 16, br);
      ScannedIsHead(b, k + 1);
    } else {
      ScannedIsHits(b, k + 1, r + 1, br);
    }
  }

  /** The run-length counting of the encoder, with its zero run codes folded into the end of
      the band, produces exactly the codes that the decoder steps over. */
  lemma {:induction false} ScannedIsHead(b: Band, k: nat)
    requires BandOk(b) && b.ss <= k
    ensures Scanned(b, k, 0, []) == Head(b, k)
    decreases Eob(b) - k, 1
  {
    if k <= Eob(b) { ScannedIsHits(b, k, 0, []); }
  }
}
