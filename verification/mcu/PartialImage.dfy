/** What a decoder knows of an image in the middle of a progressive file: for every coefficient of
    every component the bits down to the position that the scans so far have reached. */
module PartialImage {
  import opened Blocks
  import opened DcBits
  import opened McuGeometry
  import opened ScanScript

  /** The place of a coefficient in the zigzag order. */
  ghost function Rank(order: Order, p: nat): (k: nat)
    requires p < 64
    ensures k < 64 && order[k] == p
  {
    Ranked(order, p);
    var k: nat :| k < 64 && order[k] == p;
    k
  }

  lemma Ranked(order: Order, p: nat)
    requires p < 64
    ensures exists k: nat :: k < 64 && order[k] == p
  {
    var k := OrderOnto(order, p);
  }

  /** A coefficient down to bit position mark; nothing of it if that is negative. */
  function Part(k: nat, mark: int, v: int): int {
    if mark < 0 then 0 else if k == 0 then DcCoarse(v, mark) else Coarse(v, mark)
  }

  predicate MarkOk(mark: seq<int>) {
    |mark| == 64 && forall k :: 0 <= k < 64 ==> -1 <= mark[k] <= 13
  }

  lemma PartRange(k: nat, mark: int, v: int)
    requires -1 <= mark <= 13 && -0x8000 <= v < 0x8000
    ensures -0x8000 <= Part(k, mark, v) < 0x8000
  {
    hide DcCoarse, Coarse;
    if mark >= 0 {
      if k == 0 { DcRange(v, mark); } else { ShrinkIsShr(v, mark); }
    }
  }

  ghost function Partial(order: Order, mark: seq<int>, block: Block): (r: Block)
    requires MarkOk(mark)
  {
    hide Part;
    PartsInRange(order, mark, block);
    seq(64, p requires 0 <= p < 64 => Part(Rank(order, p), mark[Rank(order, p)], block[p]))
  }

  lemma PartsInRange(order: Order, mark: seq<int>, block: Block)
    requires MarkOk(mark)
    ensures forall p :: 0 <= p < 64 ==> -0x8000 <= Part(Rank(order, p), mark[Rank(order, p)], block[p]) < 0x8000
  {
    hide Part;
    forall p | 0 <= p < 64 ensures -0x8000 <= Part(Rank(order, p), mark[Rank(order, p)], block[p]) < 0x8000 {
      PartRange(Rank(order, p), mark[Rank(order, p)], block[p]);
    }
  }

  lemma PartialAt(order: Order, mark: seq<int>, block: Block, k: nat)
    requires MarkOk(mark) && k < 64
    ensures Partial(order, mark, block)[order[k]] == Part(k, mark[k], block[order[k]])
  {
    hide Part;
    assert Rank(order, order[k]) == k;
  }

  lemma IsPartial(order: Order, mark: seq<int>, block: Block, r: seq<int>)
    requires MarkOk(mark) && |r| == 64 && forall k :: 0 <= k < 64 ==> r[order[k]] == Part(k, mark[k], block[order[k]])
    ensures r == Partial(order, mark, block)
  {
    hide Part;
    forall p | 0 <= p < 64 ensures r[p] == Partial(order, mark, block)[p] {
      assert order[Rank(order, p)] == p;
    }
  }

  /** At first nothing is known, and a block is zero. */
  lemma NothingKnown(order: Order, mark: seq<int>, block: Block)
    requires |mark| == 64 && forall k :: 0 <= k < 64 ==> mark[k] == -1
    ensures MarkOk(mark) && Partial(order, mark, block) == seq(64, _ => 0)
  {
    IsPartial(order, mark, block, seq(64, _ => 0));
  }

  lemma AllKnown(order: Order, mark: seq<int>, block: Block)
    requires |mark| == 64 && forall k :: 0 <= k < 64 ==> mark[k] == 0
    ensures MarkOk(mark) && Partial(order, mark, block) == block
  {
    hide DcCoarse, Coarse;
    forall k | 0 <= k < 64 ensures block[order[k]] == Part(k, mark[k], block[order[k]]) {
      DcAll(block[order[k]]);
      NothingMissing(block[order[k]]);
    }
    IsPartial(order, mark, block, block);
  }

  // ---- Images ----

  predicate MarksOk(b: Marks) { forall c :: 0 <= c < |b| ==> MarkOk(b[c]) }

  ghost function PartialPlane(order: Order, mark: seq<int>, p: Plane): (r: Plane)
    requires MarkOk(mark)
    ensures |r| == |p| && forall y :: 0 <= y < |p| ==> |r[y]| == |p[y]|
    ensures forall y, x :: 0 <= y < |p| && 0 <= x < |p[y]| ==> r[y][x] == Partial(order, mark, p[y][x])
  {
    hide Partial;
    seq(|p|, y requires 0 <= y < |p| => seq(|p[y]|, x requires 0 <= x < |p[y]| => Partial(order, mark, p[y][x])))
  }

  ghost function PartialOf(order: Order, b: Marks, image: seq<Plane>): (r: seq<Plane>)
    requires MarksOk(b) && |b| == |image|
    ensures |r| == |image| && forall c :: 0 <= c < |image| ==> r[c] == PartialPlane(order, b[c], image[c])
  {
    seq(|image|, c requires 0 <= c < |image| => PartialPlane(order, b[c], image[c]))
  }

  lemma PartialOk(f: Frame, order: Order, b: Marks, image: seq<Plane>)
    requires MarksOk(b) && |b| == |f.comps| && ImageOk(f, image)
    ensures ImageOk(f, PartialOf(order, b, image))
  {
  }

  lemma FullImage(order: Order, b: Marks, image: seq<Plane>)
    requires |b| == |image| && forall c, k :: 0 <= c < |b| && 0 <= k < 64 ==> b[c][k] == 0
    ensures MarksOk(b) && PartialOf(order, b, image) == image
  {
    hide Partial;
    var r := PartialOf(order, b, image);
    forall c | 0 <= c < |image| ensures r[c] == image[c] {
      forall y | 0 <= y < |image[c]| ensures r[c][y] == image[c][y] {
        forall x | 0 <= x < |image[c][y]| ensures r[c][y][x] == image[c][y][x] { AllKnown(order, b[c], image[c][y][x]); }
      }
    }
  }

  // ---- One scan ----

  /** The marks of a component in the scan. */
  function Raised(mark: seq<int>, ss: int, se: int, al: int): (r: seq<int>)
    requires |mark| == 64
    ensures |r| == 64
  {
    seq(64, k requires 0 <= k < 64 => if ss <= k <= se then al else mark[k])
  }

  lemma MarkedRows(b: Marks, s: Scan, c: nat)
    requires c < |b|
    ensures Marked(b, s)[c] == if InScan(s, c) then Raised(b[c], s.ss, s.se, s.al) else b[c]
  {
    forall k | 0 <= k < 64
      ensures Marked(b, s)[c][k] == (if InScan(s, c) then Raised(b[c], s.ss, s.se, s.al) else b[c])[k]
    {
      MarkedAt(b, s, c, k);
    }
  }

  lemma MarkedOk(b: Marks, s: Scan)
    requires MarksOk(b) && 0 <= s.al <= 13
    ensures MarksOk(Marked(b, s))
  {
    forall c | 0 <= c < |b| ensures MarkOk(Marked(b, s)[c]) { MarkedRows(b, s, c); }
  }

  /** A block in which the band has been replaced by what the scan gives. */
  lemma BandRaised(order: Order, mark: seq<int>, block: Block, was: seq<int>, now: seq<int>, ss: nat, se: nat, al: nat)
    requires MarkOk(mark) && al <= 13 && |now| == 64 && was == Partial(order, mark, block)
    requires forall k :: 0 <= k < 64 ==> now[order[k]] == if ss <= k <= se then Part(k, al, block[order[k]]) else was[order[k]]
    ensures MarkOk(Raised(mark, ss, se, al)) && now == Partial(order, Raised(mark, ss, se, al), block)
  {
    hide Part, Partial;
    var r := Raised(mark, ss, se, al);
    forall k | 0 <= k < 64 ensures now[order[k]] == Part(k, r[k], block[order[k]]) { PartialAt(order, mark, block, k); }
    IsPartial(order, r, block, now);
  }
}
