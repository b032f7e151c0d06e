/** The order of data units that section A.2 of ITU-T T.81 prescribes, in place of the counters that
    produce it: a component alone goes row by row, and interleaved MCUs follow each other from left
    to right and top to bottom. */
module McuLayout {
  import opened Radix
  import opened McuGeometry
  import opened McuEncoder
  import opened McuController

  // ---- MCUs by rows ----

  /** The MCU rows above iMCU row r. */
  function RowsAbove(f: Frame, s: ScanComps, r: nat): nat
    requires ScanOk(f, s)
  {
    if |s| > 1 then r else r * f.comps[s[0]].v
  }

  function McuRowsInAll(f: Frame, s: ScanComps): nat
    requires ScanOk(f, s)
  {
    if |s| > 1 then TotalIMcuRows(f) else f.comps[s[0]].height
  }

  lemma RowsBelow(f: Frame, s: ScanComps, r: nat)
    requires ScanOk(f, s) && r < TotalIMcuRows(f)
    ensures RowsAbove(f, s, r) + McuRows(f, s, r) ==
      if r < TotalIMcuRows(f) - 1 then RowsAbove(f, s, r + 1) else McuRowsInAll(f, s)
  {
    hide TotalIMcuRows, Rest;
    CompFits(f, s[0]);
    var v := f.comps[s[0]].v;
    assert (r + 1) * v == r * v + v;
  }

  lemma {:induction false} Count(f: Frame, s: ScanComps, image: seq<Plane>, r: nat, y: nat, col: nat)
    requires ScanOk(f, s) && ImageOk(f, image) && r < TotalIMcuRows(f) && y <= McuRows(f, s, r) && col <= McusPerRow(f, s)
    ensures |McusBefore(f, s, image, r, y, col)| == (RowsAbove(f, s, r) + y) * McusPerRow(f, s) + col
    decreases r, y, col
  {
    hide Mcu, McuRows, TotalIMcuRows, McusPerRow, RowsAbove;
    if col > 0 {
      Count(f, s, image, r, y, col - 1);
    } else if y > 0 {
      Count(f, s, image, r, y - 1, McusPerRow(f, s));
      Rows(RowsAbove(f, s, r) + y - 1, McusPerRow(f, s));
    } else if r > 0 {
      RowsBelow(f, s, r - 1);
      Count(f, s, image, r - 1, McuRows(f, s, r - 1), 0);
    } else {
      NoRows(f, s);
    }
  }

  lemma Rows(n: nat, w: nat)
    ensures n * w + w == (n + 1) * w
  {
  }

  lemma NoRows(f: Frame, s: ScanComps)
    requires ScanOk(f, s)
    ensures RowsAbove(f, s, 0) == 0
  {
  }

  /** How many MCUs there are above an MCU and to its left. */
  function PlaceOf(rows: nat, w: nat, col: nat): nat { rows * w + col }

  ghost predicate AtPlace<T>(mcus: seq<T>, i: nat, mcu: T) { i < |mcus| && mcus[i] == mcu }

  /** An MCU has as many MCUs before it as there are above it and to its left. */
  lemma RasterOrder(f: Frame, s: ScanComps, image: seq<Plane>, r: nat, y: nat, col: nat)
    requires ScanOk(f, s) && ImageOk(f, image) && r < TotalIMcuRows(f) && y < McuRows(f, s, r) && col < McusPerRow(f, s)
    ensures |AllMcus(f, s, image)| == PlaceOf(McuRowsInAll(f, s), McusPerRow(f, s), 0)
    ensures AtPlace(AllMcus(f, s, image), PlaceOf(RowsAbove(f, s, r) + y, McusPerRow(f, s), col), Mcu(f, s, image, r, y, col))
  {
    hide Mcu, McuRows, TotalIMcuRows, McusPerRow, RowsAbove, McuRowsInAll;
    AllCounted(f, s, image);
    Count(f, s, image, r, y, col);
    BeforeIsPrefix(f, s, image, r, y, col + 1);
    var before, after := McusBefore(f, s, image, r, y, col), McusBefore(f, s, image, r, y, col + 1);
    assert after[|before|] == Mcu(f, s, image, r, y, col);
  }

  lemma AllCounted(f: Frame, s: ScanComps, image: seq<Plane>)
    requires ScanOk(f, s) && ImageOk(f, image)
    ensures |AllMcus(f, s, image)| == McuRowsInAll(f, s) * McusPerRow(f, s)
  {
    hide Mcu, McuRows, TotalIMcuRows, McusPerRow, RowsAbove, McuRowsInAll;
    CompFits(f, s[0]);
    var t := TotalIMcuRows(f);
    RowsBelow(f, s, t - 1);
    Count(f, s, image, t - 1, McuRows(f, s, t - 1), 0);
    LastStep(f, s, image);
  }

  lemma LastStep(f: Frame, s: ScanComps, image: seq<Plane>)
    requires ScanOk(f, s) && ImageOk(f, image) && 0 < TotalIMcuRows(f)
    ensures var t := TotalIMcuRows(f); AllMcus(f, s, image) == McusBefore(f, s, image, t - 1, McuRows(f, s, t - 1), 0)
  {
    hide Mcu, McuRows, TotalIMcuRows, McusPerRow;
  }

  /** A component alone: its blocks row by row, and no dummies. */
  lemma OneComponent(f: Frame, s: ScanComps, image: seq<Plane>, row: nat, col: nat)
    requires ScanOk(f, s) && ImageOk(f, image) && |s| == 1 && row < f.comps[s[0]].height && col < f.comps[s[0]].width
    ensures |AllMcus(f, s, image)| == PlaceOf(f.comps[s[0]].height, f.comps[s[0]].width, 0)
    ensures AtPlace(AllMcus(f, s, image), PlaceOf(row, f.comps[s[0]].width, col), [image[s[0]][row][col]])
  {
    hide TotalIMcuRows, AllMcus, FrameOk, Mcu, McuRows, PlaceOf, AtPlace;
    RowFound(f, s, row);
    var v := f.comps[s[0]].v;
    RasterOrder(f, s, image, row / v, row % v, col);
    AloneIs(f, s, image, row / v, row % v, col);
  }

  lemma RowFound(f: Frame, s: ScanComps, row: nat)
    requires ScanOk(f, s) && |s| == 1 && row < f.comps[s[0]].height
    ensures 0 < f.comps[s[0]].v && row / f.comps[s[0]].v < TotalIMcuRows(f)
    ensures row == row / f.comps[s[0]].v * f.comps[s[0]].v + row % f.comps[s[0]].v
    ensures row % f.comps[s[0]].v < McuRows(f, s, row / f.comps[s[0]].v)
  {
    hide TotalIMcuRows, Rest, CeilDiv;
    CompFits(f, s[0]);
    var k, t := f.comps[s[0]], TotalIMcuRows(f);
    RestSmall(k.height, k.v);
    var q := row / k.v;
    assert row == q * k.v + row % k.v && t * k.v == (t - 1) * k.v + k.v;
    if q >= t { MulOrder(t, q, k.v); }
  }

  lemma AloneIs(f: Frame, s: ScanComps, image: seq<Plane>, r: nat, y: nat, col: nat)
    requires ScanOk(f, s) && ImageOk(f, image) && |s| == 1
    requires r * f.comps[s[0]].v + y < f.comps[s[0]].height && col < f.comps[s[0]].width
    ensures Mcu(f, s, image, r, y, col) == [image[s[0]][r * f.comps[s[0]].v + y][col]]
  {
    hide FrameOk;
    var k, p, row := f.comps[s[0]], image[s[0]], r * f.comps[s[0]].v + y;
    assert RowBlocks(k, p, row, col, 0) == [];
    assert RowBlocks(k, p, row, col, 1) == [p[row][col]];
    assert CompBlocks(k, p, row, col, 1, 1) == [p[row][col]];
    assert McuBlocks(f, s, image, r, y, col, 0) == [];
  }

  // ---- An image with subsampled chrominance ----

  /** 33 by 17 samples, with chrominance at half the resolution: the luminance has 5 by 3 blocks, the
      chrominance 3 by 2, and there are 3 by 2 MCUs of six blocks each. */
  function Small(): Frame {
    Frame(33, 17, 2, 2, 8, [Comp(2, 2, 5, 3), Comp(1, 1, 3, 2), Comp(1, 1, 3, 2)])
  }

  lemma SmallSizes()
    ensures ScanOk(Small(), [0, 1, 2]) && TotalIMcuRows(Small()) == 2 && McusPerRow(Small(), [0, 1, 2]) == 3
    ensures BlocksInMcu(Small(), [0, 1, 2], 3) == 6 <= C_MAX_BLOCKS_IN_MCU == 10
    ensures Membership(Small(), [0, 1, 2], 3) == [0, 0, 0, 0, 1, 2]
  {
    var f: Frame, s: ScanComps := Small(), [0, 1, 2];
    assert FrameOk(f);
    assert Membership(f, s, 0) == [] && Membership(f, s, 1) == [0, 0, 0, 0] && Membership(f, s, 2) == [0, 0, 0, 0, 1];
    assert BlocksInMcu(f, s, 1) == 4 && BlocksInMcu(f, s, 2) == 5;
  }

  /** Two rows of two luminance blocks, and one block of each chrominance component.  At the right edge
      the missing blocks have the DC value of the block to their left, and in a row below the
      component that of the last block above. */
  lemma SmallMcus(image: seq<Plane>)
    requires ScanOk(Small(), [0, 1, 2]) && ImageOk(Small(), image)
    ensures var y, b, r := image[0], image[1], image[2];
      && Mcu(Small(), [0, 1, 2], image, 0, 0, 1) == [y[0][2], y[0][3], y[1][2], y[1][3], b[0][1], r[0][1]]
      && Mcu(Small(), [0, 1, 2], image, 1, 0, 0) == [y[2][0], y[2][1], Dummy(y[2][1][0]), Dummy(y[2][1][0]), b[1][0], r[1][0]]
      && Mcu(Small(), [0, 1, 2], image, 0, 0, 2) ==
           [y[0][4], Dummy(y[0][4][0]), y[1][4], Dummy(y[1][4][0]), b[0][2], r[0][2]]
  {
    var f: Frame, s: ScanComps := Small(), [0, 1, 2];
    assert PlaneOk(f.comps[0], image[0]) && PlaneOk(f.comps[1], image[1]) && PlaneOk(f.comps[2], image[2]);
    SmallMcu(image, 0, 1);
    SmallMcu(image, 1, 0);
    SmallMcu(image, 0, 2);
  }

  lemma SmallMcu(image: seq<Plane>, r: nat, col: nat)
    requires ScanOk(Small(), [0, 1, 2]) && ImageOk(Small(), image)
    ensures PlaneOk(Comp(2, 2, 5, 3), image[0]) && PlaneOk(Comp(1, 1, 3, 2), image[1]) && PlaneOk(Comp(1, 1, 3, 2), image[2])
    ensures var y, c, a := Comp(2, 2, 5, 3), Comp(1, 1, 3, 2), 2 * col;
      Mcu(Small(), [0, 1, 2], image, r, 0, col) == [
        Padded(y, image[0], 2 * r, a), Padded(y, image[0], 2 * r, a + 1),
        Padded(y, image[0], 2 * r + 1, a), Padded(y, image[0], 2 * r + 1, a + 1),
        Padded(c, image[1], r, col), Padded(c, image[2], r, col)]
  {
    hide Padded;
    var f: Frame, s: ScanComps := Small(), [0, 1, 2];
    assert PlaneOk(f.comps[0], image[0]) && PlaneOk(f.comps[1], image[1]) && PlaneOk(f.comps[2], image[2]);
    FourBlocks(f.comps[0], image[0], 2 * r, 2 * col);
    OneBlock(f.comps[1], image[1], r, col);
    OneBlock(f.comps[2], image[2], r, col);
    Three(f, s, image, r, col);
  }

  lemma FourBlocks(k: Comp, p: Plane, row: nat, col: nat)
    requires PlaneOk(k, p)
    ensures CompBlocks(k, p, row, col, 2, 2) ==
      [Padded(k, p, row, col), Padded(k, p, row, col + 1), Padded(k, p, row + 1, col), Padded(k, p, row + 1, col + 1)]
  {
    hide Padded;
    assert RowBlocks(k, p, row, col, 1) == [Padded(k, p, row, col)];
    assert RowBlocks(k, p, row + 1, col, 1) == [Padded(k, p, row + 1, col)];
    assert CompBlocks(k, p, row, col, 2, 1) == RowBlocks(k, p, row, col, 2);
  }

  lemma OneBlock(k: Comp, p: Plane, row: nat, col: nat)
    requires PlaneOk(k, p)
    ensures CompBlocks(k, p, row, col, 1, 1) == [Padded(k, p, row, col)]
  {
    hide Padded;
    assert RowBlocks(k, p, row, col, 1) == [Padded(k, p, row, col)];
  }

  lemma Three(f: Frame, s: ScanComps, image: seq<Plane>, r: nat, col: nat)
    requires f == Small() && s == [0, 1, 2] && ScanOk(f, s) && ImageOk(f, image)
    ensures Mcu(f, s, image, r, 0, col) == CompBlocks(f.comps[0], image[0], 2 * r, 2 * col, 2, 2)
      + CompBlocks(f.comps[1], image[1], r, col, 1, 1) + CompBlocks(f.comps[2], image[2], r, col, 1, 1)
  {
    hide CompBlocks;
    assert McuBlocks(f, s, image, r, 0, col, 3) ==
      McuBlocks(f, s, image, r, 0, col, 2) + CompBlocks(f.comps[2], image[2], r, col, 1, 1);
    assert McuBlocks(f, s, image, r, 0, col, 2) ==
      McuBlocks(f, s, image, r, 0, col, 1) + CompBlocks(f.comps[1], image[1], r, col, 1, 1);
    assert McuBlocks(f, s, image, r, 0, col, 0) == [];
    assert McuBlocks(f, s, image, r, 0, col, 1) == CompBlocks(f.comps[0], image[0], 2 * r, 2 * col, 2, 2);
  }

  /** A dummy block has nothing but its DC value. */
  lemma DummyIs(dc: int, k: nat)
    requires -0x8000 <= dc < 0x8000 && k < 64
    ensures Dummy(dc)[k] == if k == 0 then dc else 0
  {
  }
}
