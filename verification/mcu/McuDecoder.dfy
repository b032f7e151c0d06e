/** How the decoder puts the blocks of the MCUs back in their places: consume_data and
    decompress_onepass of jdcoefct.c. */
module McuDecoder {
  import opened Radix
  import opened Blocks
  import opened McuGeometry
  import opened McuEncoder
  import opened McuController

  // ---- The places of the blocks ----

  /** The MCU that has a block of a component: row in its iMCU row, iMCU row, and column. */
  function OwnRow(f: Frame, s: ScanComps, ci: nat, row: nat): nat
    requires ScanOk(f, s) && ci < |s|
  {
    if |s| == 1 then row % f.comps[s[ci]].v else 0
  }

  function OwnIMcuRow(f: Frame, s: ScanComps, ci: nat, row: nat): nat
    requires ScanOk(f, s) && ci < |s|
  {
    row / f.comps[s[ci]].v
  }

  function OwnCol(f: Frame, s: ScanComps, ci: nat, col: nat): nat
    requires ScanOk(f, s) && ci < |s|
  {
    col / McuWidth(f, s, ci)
  }

  /** The traversal comes to each block in one MCU only. */
  lemma OwnMcu(f: Frame, s: ScanComps, t: Spot, yindex: nat, x: nat)
    requires SpotOk(f, s, t) && yindex < McuHeight(f, s, t.ci) && x < McuWidth(f, s, t.ci)
    ensures var row, col := BaseRow(f, s, t) + yindex, BaseCol(f, s, t) + x;
      && t.r == OwnIMcuRow(f, s, t.ci, row) && t.y == OwnRow(f, s, t.ci, row) && t.col == OwnCol(f, s, t.ci, col)
      && yindex == row - BaseRow(f, s, t) && x == col - BaseCol(f, s, t)
  {
    var v := f.comps[s[t.ci]].v;
    RealBlocks(f, s, t.ci, t.r, t.y, t.col, yindex, x);
    DivIs(BaseRow(f, s, t) + yindex, v, t.r, t.y + yindex);
    ModIs(BaseRow(f, s, t) + yindex, v, t.r, t.y + yindex);
    DivIs(BaseCol(f, s, t) + x, McuWidth(f, s, t.ci), t.col, x);
  }

  /** And it comes to every block that is real. */
  lemma OwnSpot(f: Frame, s: ScanComps, ci: nat, row: nat, col: nat)
    requires ScanOk(f, s) && ci < |s| && row < f.comps[s[ci]].height && col < f.comps[s[ci]].width
    ensures var t := Spot(ci, OwnIMcuRow(f, s, ci, row), OwnRow(f, s, ci, row), OwnCol(f, s, ci, col));
      && SpotOk(f, s, t)
      && BaseRow(f, s, t) <= row < BaseRow(f, s, t) + McuHeight(f, s, ci)
      && BaseCol(f, s, t) <= col < BaseCol(f, s, t) + McuWidth(f, s, ci)
  {
    hide TotalIMcuRows, IMcusPerRow;
    RowIn(f, s, ci, row);
    ColIn(f, s, ci, col);
  }

  lemma RowIn(f: Frame, s: ScanComps, ci: nat, row: nat)
    requires ScanOk(f, s) && ci < |s| && row < f.comps[s[ci]].height
    ensures OwnIMcuRow(f, s, ci, row) < TotalIMcuRows(f)
    ensures OwnRow(f, s, ci, row) < McuRows(f, s, OwnIMcuRow(f, s, ci, row))
    ensures var base := OwnIMcuRow(f, s, ci, row) * f.comps[s[ci]].v + OwnRow(f, s, ci, row); base <= row < base + McuHeight(f, s, ci)
  {
    hide TotalIMcuRows, IMcusPerRow, Rest, CeilDiv;
    var k := f.comps[s[ci]];
    CompFits(f, s[ci]);
    RestSmall(k.height, k.v);
    DivMod(row, k.v);
    Under(row / k.v, row % k.v, k.v, TotalIMcuRows(f), Rest(k.height, k.v));
  }

  lemma ColIn(f: Frame, s: ScanComps, ci: nat, col: nat)
    requires ScanOk(f, s) && ci < |s| && col < f.comps[s[ci]].width
    ensures var w, c := McuWidth(f, s, ci), OwnCol(f, s, ci, col);
      c < McusPerRow(f, s) && c * w <= col < c * w + w
  {
    hide TotalIMcuRows, IMcusPerRow;
    var k := f.comps[s[ci]];
    CompFits(f, s[ci]);
    RestSmall(k.width, k.h);
    if |s| > 1 {
      DivMod(col, k.h);
      Under(col / k.h, col % k.h, k.h, IMcusPerRow(f), Rest(k.width, k.h));
    }
  }

  lemma DivMod(n: nat, v: nat)
    requires 0 < v
    ensures n == n / v * v + n % v && n % v < v
  {
  }

  lemma Under(q: nat, m: nat, v: nat, n: nat, rest: nat)
    requires 0 < n && q * v + m < (n - 1) * v + rest && rest <= v && m < v
    ensures q < n && (q == n - 1 ==> m < rest)
  {
    assert n * v == (n - 1) * v + v;
    if q >= n { MulOrder(n, q, v); }
  }

  // ---- The blocks of an MCU ----

  lemma {:induction false} RowAt(k: Comp, p: Plane, row: nat, col: nat, n: nat, x: nat)
    requires PlaneOk(k, p) && x < n
    ensures RowBlocks(k, p, row, col, n)[x] == Padded(k, p, row, col + x)
  {
    hide Padded;
    if x < n - 1 { RowAt(k, p, row, col, n - 1, x); }
  }

  lemma {:induction false} CompAt(k: Comp, p: Plane, row: nat, col: nat, w: nat, n: nat, yindex: nat, x: nat)
    requires PlaneOk(k, p) && yindex < n && x < w
    ensures yindex * w + x < n * w && CompBlocks(k, p, row, col, w, n)[yindex * w + x] == Padded(k, p, row + yindex, col + x)
  {
    hide Padded, RowBlocks;
    MulOrder(yindex + 1, n, w);
    assert (yindex + 1) * w == yindex * w + w && (n - 1) * w + w == n * w;
    if yindex < n - 1 {
      CompAt(k, p, row, col, w, n - 1, yindex, x);
    } else {
      RowAt(k, p, row + n - 1, col, w, x);
    }
  }

  /** The index of a block in the MCU, and what it has to be. */
  function Index(f: Frame, s: ScanComps, t: Spot, yindex: nat, x: nat): nat
    requires SpotOk(f, s, t)
  {
    BlocksInMcu(f, s, t.ci) + yindex * McuWidth(f, s, t.ci) + x
  }

  function BlockAt(f: Frame, s: ScanComps, image: seq<Plane>, t: Spot, yindex: nat, x: nat): Block
    requires SpotOk(f, s, t) && ImageOk(f, image)
  {
    Padded(f.comps[s[t.ci]], image[s[t.ci]], BaseRow(f, s, t) + yindex, BaseCol(f, s, t) + x)
  }

  lemma {:induction false} McuPrefix(f: Frame, s: ScanComps, image: seq<Plane>, r: nat, y: nat, col: nat, m: nat, n: nat)
    requires ScanOk(f, s) && ImageOk(f, image) && m <= n <= |s|
    ensures McuBlocks(f, s, image, r, y, col, m) <= McuBlocks(f, s, image, r, y, col, n)
  {
    hide Padded, CompBlocks, PlaneOk;
    if m < n { McuPrefix(f, s, image, r, y, col, m, n - 1); }
  }

  lemma McuAt(f: Frame, s: ScanComps, image: seq<Plane>, t: Spot, yindex: nat, x: nat)
    requires SpotOk(f, s, t) && ImageOk(f, image)
    requires yindex < McuHeight(f, s, t.ci) && x < McuWidth(f, s, t.ci)
    ensures Index(f, s, t, yindex, x) < |Mcu(f, s, image, t.r, t.y, t.col)|
    ensures Mcu(f, s, image, t.r, t.y, t.col)[Index(f, s, t, yindex, x)] == BlockAt(f, s, image, t, yindex, x)
  {
    hide Padded, CompBlocks, BlocksInMcu, McuBlocks, McuRows, FrameOk, PlaneOk, McuWidth, McuHeight, BaseRow, BaseCol,
      TotalIMcuRows;
    var k, p := f.comps[s[t.ci]], image[s[t.ci]];
    var w, h := McuWidth(f, s, t.ci), McuHeight(f, s, t.ci);
    var part := CompBlocks(k, p, BaseRow(f, s, t), BaseCol(f, s, t), w, h);
    McuLength(f, s, image, t.r, t.y, t.col, t.ci);
    CompAt(k, p, BaseRow(f, s, t), BaseCol(f, s, t), w, h, yindex, x);
    McuSnoc(f, s, image, t);
    McuPrefix(f, s, image, t.r, t.y, t.col, t.ci + 1, |s|);
    AtOffset(McuBlocks(f, s, image, t.r, t.y, t.col, t.ci), part, Mcu(f, s, image, t.r, t.y, t.col), yindex * w + x);
  }

  lemma AtOffset<T>(front: seq<T>, part: seq<T>, whole: seq<T>, i: nat)
    requires front + part <= whole && i < |part|
    ensures |front| + i < |whole| && whole[|front| + i] == part[i]
  {
    assert (front + part)[|front| + i] == part[i];
  }

  lemma McuSnoc(f: Frame, s: ScanComps, image: seq<Plane>, t: Spot)
    requires SpotOk(f, s, t) && ImageOk(f, image)
    ensures McuBlocks(f, s, image, t.r, t.y, t.col, t.ci + 1) == McuBlocks(f, s, image, t.r, t.y, t.col, t.ci)
      + CompBlocks(f.comps[s[t.ci]], image[s[t.ci]], BaseRow(f, s, t), BaseCol(f, s, t), McuWidth(f, s, t.ci), McuHeight(f, s, t.ci))
  {
    hide Padded, CompBlocks;
  }

  // ---- MCUs with the real blocks of an image ----

  /** The block of the MCU, if it is a real one, is that of the image. */
  predicate RealIs(f: Frame, s: ScanComps, image: seq<Plane>, t: Spot, yindex: nat, x: nat, b: Block)
    requires SpotOk(f, s, t) && ImageOk(f, image)
  {
    var row, col := BaseRow(f, s, t) + yindex, BaseCol(f, s, t) + x;
    row < f.comps[s[t.ci]].height && col < f.comps[s[t.ci]].width ==> b == image[s[t.ci]][row][col]
  }

  /** What the dummies of the MCU are does not matter. */
  predicate ShowsMcu(f: Frame, s: ScanComps, image: seq<Plane>, r: nat, y: nat, col: nat, mcu: seq<Block>)
    requires SpotOk(f, s, Spot(0, r, y, col)) && ImageOk(f, image)
  {
    && |mcu| == BlocksInMcu(f, s, |s|)
    && forall ci, yindex, x :: 0 <= ci < |s| && 0 <= yindex < McuHeight(f, s, ci) && 0 <= x < McuWidth(f, s, ci) ==>
         var t := Spot(ci, r, y, col);
         Index(f, s, t, yindex, x) < |mcu| && RealIs(f, s, image, t, yindex, x, mcu[Index(f, s, t, yindex, x)])
  }

  /** Where the MCUs in front of a place are; component 0 stands for all. */
  function SpotsBefore(f: Frame, s: ScanComps, r: nat, y: nat, col: nat): (spots: seq<Spot>)
    requires ScanOk(f, s) && r <= TotalIMcuRows(f)
    requires if r < TotalIMcuRows(f) then y <= McuRows(f, s, r) && col <= McusPerRow(f, s) else y == col == 0
    decreases r, y, col
  {
    if col > 0 then SpotsBefore(f, s, r, y, col - 1) + [Spot(0, r, y, col - 1)]
    else if y > 0 then SpotsBefore(f, s, r, y - 1, McusPerRow(f, s))
    else if r > 0 then SpotsBefore(f, s, r - 1, McuRows(f, s, r - 1), 0)
    else []
  }

  function AllSpots(f: Frame, s: ScanComps): seq<Spot>
    requires ScanOk(f, s)
  {
    SpotsBefore(f, s, TotalIMcuRows(f), 0, 0)
  }

  lemma {:induction false} SpotsArePrefix(f: Frame, s: ScanComps, r: nat, y: nat, col: nat)
    requires ScanOk(f, s) && r <= TotalIMcuRows(f)
    requires if r < TotalIMcuRows(f) then y <= McuRows(f, s, r) && col <= McusPerRow(f, s) else y == col == 0
    requires r < TotalIMcuRows(f) && y == McuRows(f, s, r) ==> col == 0
    ensures SpotsBefore(f, s, r, y, col) <= AllSpots(f, s)
    decreases TotalIMcuRows(f) - r, if r < TotalIMcuRows(f) then McuRows(f, s, r) - y else 0, McusPerRow(f, s) - col
  {
    hide McuRows, TotalIMcuRows, McusPerRow;
    if r < TotalIMcuRows(f) {
      if y == McuRows(f, s, r) {
        SpotsArePrefix(f, s, r + 1, 0, 0);
      } else if col < McusPerRow(f, s) {
        SpotsArePrefix(f, s, r, y, col + 1);
      } else {
        SpotsArePrefix(f, s, r, y + 1, 0);
      }
    }
  }

  /** The i'th MCU of an image is that of the i'th spot. */
  lemma {:induction false} McuOfSpot(f: Frame, s: ScanComps, image: seq<Plane>, r: nat, y: nat, col: nat)
    requires ScanOk(f, s) && ImageOk(f, image) && r <= TotalIMcuRows(f)
    requires if r < TotalIMcuRows(f) then y <= McuRows(f, s, r) && col <= McusPerRow(f, s) else y == col == 0
    requires r < TotalIMcuRows(f) && y == McuRows(f, s, r) ==> col == 0
    ensures var spots, mcus := SpotsBefore(f, s, r, y, col), McusBefore(f, s, image, r, y, col);
      |spots| == |mcus| && forall i :: 0 <= i < |spots| ==>
        SpotOk(f, s, spots[i]) && spots[i].ci == 0 && mcus[i] == Mcu(f, s, image, spots[i].r, spots[i].y, spots[i].col)
    decreases r, y, col
  {
    hide Mcu, McuRows, TotalIMcuRows, McusPerRow, ImageOk;
    if col > 0 {
      McuOfSpot(f, s, image, r, y, col - 1);
    } else if y > 0 {
      McuOfSpot(f, s, image, r, y - 1, McusPerRow(f, s));
    } else if r > 0 {
      McuOfSpot(f, s, image, r - 1, McuRows(f, s, r - 1), 0);
    }
  }

  /** The MCUs show the real blocks of the image. */
  ghost predicate Shows(f: Frame, s: ScanComps, image: seq<Plane>, mcus: seq<seq<Block>>)
    requires ScanOk(f, s) && ImageOk(f, image)
  {
    && |mcus| == |AllSpots(f, s)|
    && forall i :: 0 <= i < |mcus| ==>
         SpotOk(f, s, AllSpots(f, s)[i]) && ShowsMcu(f, s, image, AllSpots(f, s)[i].r, AllSpots(f, s)[i].y, AllSpots(f, s)[i].col, mcus[i])
  }

  // ---- One component of an MCU ----

  /** The MCU of a block is in front of column col of MCU row y of iMCU row r. */
  predicate Earlier(f: Frame, s: ScanComps, ci: nat, row: nat, x: nat, r: nat, y: nat, col: nat)
    requires ScanOk(f, s) && ci < |s|
  {
    var mr, my, mc := OwnIMcuRow(f, s, ci, row), OwnRow(f, s, ci, row), OwnCol(f, s, ci, x);
    mr < r || (mr == r && (my < y || (my == y && mc < col)))
  }

  /** The real blocks of the MCUs so far are in their places. */
  ghost predicate Landed(f: Frame, s: ScanComps, image: seq<Plane>, ci: nat, a: array2<Block>, r: nat, y: nat, col: nat)
    requires ScanOk(f, s) && ImageOk(f, image) && ci < |s|
    reads a
  {
    forall row, x :: (0 <= row < a.Length0 && 0 <= x < a.Length1 && row < f.comps[s[ci]].height && x < f.comps[s[ci]].width
      && Earlier(f, s, ci, row, x, r, y, col)) ==> a[row, x] == image[s[ci]][row][x]
  }

  /** The real blocks in the first rows of the MCU, and the first n of the next row, are there. */
  ghost predicate Filled(f: Frame, s: ScanComps, image: seq<Plane>, t: Spot, a: array2<Block>, yindex: nat, n: nat)
    requires SpotOk(f, s, t) && ImageOk(f, image)
    reads a
  {
    forall row, x :: (BaseRow(f, s, t) <= row < a.Length0 && BaseCol(f, s, t) <= x < a.Length1
      && row < f.comps[s[t.ci]].height && x < f.comps[s[t.ci]].width && x < BaseCol(f, s, t) + McuWidth(f, s, t.ci)
      && (row < BaseRow(f, s, t) + yindex || (row == BaseRow(f, s, t) + yindex && x < BaseCol(f, s, t) + n)))
      ==> a[row, x] == image[s[t.ci]][row][x]
  }

  /** When all of the MCU is there, the traversal can go on to the next. */
  lemma McuLanded(f: Frame, s: ScanComps, image: seq<Plane>, t: Spot, a: array2<Block>)
    requires SpotOk(f, s, t) && ImageOk(f, image) && Landed(f, s, image, t.ci, a, t.r, t.y, t.col)
    requires Filled(f, s, image, t, a, McuHeight(f, s, t.ci), 0)
    ensures Landed(f, s, image, t.ci, a, t.r, t.y, t.col + 1)
  {
    hide OwnRow, OwnCol, OwnIMcuRow, McuHeight, McuWidth, BaseRow, BaseCol;
    forall row, x | 0 <= row < a.Length0 && 0 <= x < a.Length1 && row < f.comps[s[t.ci]].height && x < f.comps[s[t.ci]].width
      && Earlier(f, s, t.ci, row, x, t.r, t.y, t.col + 1)
      ensures a[row, x] == image[s[t.ci]][row][x]
    {
      OwnSpot(f, s, t.ci, row, x);
    }
  }

  /** The next block goes to its place. */
  method PutBlock(f: Frame, s: ScanComps, ghost image: seq<Plane>, t: Spot, a: array2<Block>, yindex: nat, x: nat, b: Block)
    requires SpotOk(f, s, t) && ImageOk(f, image)
    requires BaseRow(f, s, t) + yindex < a.Length0 && BaseCol(f, s, t) + x < a.Length1
    requires RealIs(f, s, image, t, yindex, x, b)
    requires Landed(f, s, image, t.ci, a, t.r, t.y, t.col) && Filled(f, s, image, t, a, yindex, x)
    modifies a
    ensures Landed(f, s, image, t.ci, a, t.r, t.y, t.col) && Filled(f, s, image, t, a, yindex, x + 1)
  {
    hide McuRows, TotalIMcuRows, FrameOk, Earlier, BaseRow, BaseCol;
    a[BaseRow(f, s, t) + yindex, BaseCol(f, s, t) + x] := b;
  }

  lemma TakeBlock(f: Frame, s: ScanComps, image: seq<Plane>, t: Spot, mcu: seq<Block>, yindex: nat, x: nat)
    requires SpotOk(f, s, t) && ImageOk(f, image) && ShowsMcu(f, s, image, t.r, t.y, t.col, mcu)
    requires yindex < McuHeight(f, s, t.ci) && x < McuWidth(f, s, t.ci)
    ensures Index(f, s, t, yindex, x) < |mcu| && RealIs(f, s, image, t, yindex, x, mcu[Index(f, s, t, yindex, x)])
  {
    hide RealIs, McuRows, TotalIMcuRows, BlocksInMcu, FrameOk, ImageOk;
    assert Spot(t.ci, t.r, t.y, t.col) == t;
  }

  /** consume_data: pointers into the full-image array for all blocks, dummies included; the
      entropy decoder stores the blocks there. */
  method StoreComp(f: Frame, s: ScanComps, ghost image: seq<Plane>, t: Spot, a: array2<Block>, mcu: seq<Block>, blkn: nat)
    requires SpotOk(f, s, t) && ImageOk(f, image) && Room(f, s[t.ci], a)
    requires ShowsMcu(f, s, image, t.r, t.y, t.col, mcu) && blkn == BlocksInMcu(f, s, t.ci)
    requires Landed(f, s, image, t.ci, a, t.r, t.y, t.col)
    modifies a
    ensures Landed(f, s, image, t.ci, a, t.r, t.y, t.col + 1)
  {
    hide RowBlocks, CompBlocks, McuRows, TotalIMcuRows, Room, BlocksInMcu, McuBlocks, Landed, RealIs, ShowsMcu;
    for yindex := 0 to McuHeight(f, s, t.ci)
      invariant Landed(f, s, image, t.ci, a, t.r, t.y, t.col) && Filled(f, s, image, t, a, yindex, 0)
    {
      for x := 0 to McuWidth(f, s, t.ci)
        invariant Landed(f, s, image, t.ci, a, t.r, t.y, t.col) && Filled(f, s, image, t, a, yindex, x)
      {
        InRoom(f, s, t, a, yindex, x);
        TakeBlock(f, s, image, t, mcu, yindex, x);
        PutBlock(f, s, image, t, a, yindex, x, mcu[Index(f, s, t, yindex, x)]);
      }
    }
    McuLanded(f, s, image, t, a);
  }

  /** decompress_onepass: the real blocks go through the IDCT to the output; blkp is moved past
      the dummies. */
  method OutputComp(f: Frame, s: ScanComps, ghost image: seq<Plane>, t: Spot, a: array2<Block>, mcu: seq<Block>, blkn: nat)
    requires SpotOk(f, s, t) && ImageOk(f, image)
    requires a.Length0 == f.comps[s[t.ci]].height && a.Length1 == f.comps[s[t.ci]].width
    requires ShowsMcu(f, s, image, t.r, t.y, t.col, mcu) && blkn == BlocksInMcu(f, s, t.ci)
    requires Landed(f, s, image, t.ci, a, t.r, t.y, t.col)
    modifies a
    ensures Landed(f, s, image, t.ci, a, t.r, t.y, t.col + 1)
  {
    hide RowBlocks, CompBlocks, McuRows, TotalIMcuRows, BlocksInMcu, Earlier, McuBlocks, Landed, Filled, Rest, FrameOk, ShowsMcu;
    HasRows(f, s);
    NoneFilled(f, s, image, t, a);
    var lastIMcuRow, lastCol := TotalIMcuRows(f) - 1, McusPerRow(f, s) - 1;
    var usefulWidth := if t.col < lastCol then McuWidth(f, s, t.ci) else LastColWidth(f, s, t.ci);
    var blkp := blkn;
    for yindex := 0 to McuHeight(f, s, t.ci)
      invariant blkp == blkn + yindex * McuWidth(f, s, t.ci)
      invariant Landed(f, s, image, t.ci, a, t.r, t.y, t.col) && Filled(f, s, image, t, a, yindex, 0)
    {
      RealBlocks(f, s, t.ci, t.r, t.y, t.col, yindex, 0);
      if t.r < lastIMcuRow || t.y + yindex < LastRowHeight(f, s, t.ci) {
        OutputRow(f, s, image, t, a, mcu, blkp, yindex, usefulWidth);
      }
      assert Filled(f, s, image, t, a, yindex + 1, 0) by { RowFilled(f, s, image, t, a, yindex, usefulWidth); }
      assert (yindex + 1) * McuWidth(f, s, t.ci) == yindex * McuWidth(f, s, t.ci) + McuWidth(f, s, t.ci);
      blkp := blkp + McuWidth(f, s, t.ci);
    }
    McuLanded(f, s, image, t, a);
  }

  lemma HasRows(f: Frame, s: ScanComps)
    requires ScanOk(f, s)
    ensures 0 < f.maxV && 0 < f.blockSize
  {
  }

  lemma NoneFilled(f: Frame, s: ScanComps, image: seq<Plane>, t: Spot, a: array2<Block>)
    requires SpotOk(f, s, t) && ImageOk(f, image)
    ensures Filled(f, s, image, t, a, 0, 0)
  {
  }

  lemma RowFilled(f: Frame, s: ScanComps, image: seq<Plane>, t: Spot, a: array2<Block>, yindex: nat, usefulWidth: nat)
    requires SpotOk(f, s, t) && ImageOk(f, image) && yindex < McuHeight(f, s, t.ci)
    requires usefulWidth == if t.col < McusPerRow(f, s) - 1 then McuWidth(f, s, t.ci) else LastColWidth(f, s, t.ci)
    requires Filled(f, s, image, t, a, yindex, if BaseRow(f, s, t) + yindex < f.comps[s[t.ci]].height then usefulWidth else 0)
    ensures Filled(f, s, image, t, a, yindex + 1, 0)
  {
    hide McuRows, TotalIMcuRows, FrameOk;
    RealBlocks(f, s, t.ci, t.r, t.y, t.col, yindex, 0);
    if usefulWidth < McuWidth(f, s, t.ci) { RealBlocks(f, s, t.ci, t.r, t.y, t.col, yindex, usefulWidth); }
  }

  method OutputRow(f: Frame, s: ScanComps, ghost image: seq<Plane>, t: Spot, a: array2<Block>, mcu: seq<Block>, blkp: nat,
      yindex: nat, usefulWidth: nat)
    requires SpotOk(f, s, t) && ImageOk(f, image) && yindex < McuHeight(f, s, t.ci)
    requires a.Length0 == f.comps[s[t.ci]].height && a.Length1 == f.comps[s[t.ci]].width
    requires ShowsMcu(f, s, image, t.r, t.y, t.col, mcu) && blkp == Index(f, s, t, yindex, 0)
    requires usefulWidth == if t.col < McusPerRow(f, s) - 1 then McuWidth(f, s, t.ci) else LastColWidth(f, s, t.ci)
    requires BaseRow(f, s, t) + yindex < f.comps[s[t.ci]].height
    requires Landed(f, s, image, t.ci, a, t.r, t.y, t.col) && Filled(f, s, image, t, a, yindex, 0)
    modifies a
    ensures Landed(f, s, image, t.ci, a, t.r, t.y, t.col) && Filled(f, s, image, t, a, yindex, usefulWidth)
  {
    hide RowBlocks, CompBlocks, McuRows, TotalIMcuRows, BlocksInMcu, McuBlocks, Landed, Filled, PlaneOk, RealIs, CeilDiv, ShowsMcu;
    RealBlocks(f, s, t.ci, t.r, t.y, t.col, yindex, 0);
    for x := 0 to usefulWidth
      invariant Landed(f, s, image, t.ci, a, t.r, t.y, t.col) && Filled(f, s, image, t, a, yindex, x)
    {
      RealBlocks(f, s, t.ci, t.r, t.y, t.col, yindex, x);
      TakeBlock(f, s, image, t, mcu, yindex, x);
      PutBlock(f, s, image, t, a, yindex, x, mcu[blkp + x]);
    }
  }

  // ---- The traversal ----

  lemma RowLanded(f: Frame, s: ScanComps, image: seq<Plane>, ci: nat, a: array2<Block>, r: nat, y: nat)
    requires ScanOk(f, s) && ImageOk(f, image) && ci < |s| && Landed(f, s, image, ci, a, r, y, McusPerRow(f, s))
    ensures Landed(f, s, image, ci, a, r, y + 1, 0)
  {
    hide OwnRow, OwnCol, OwnIMcuRow, McusPerRow;
    forall row, x | 0 <= row < a.Length0 && 0 <= x < a.Length1 && row < f.comps[s[ci]].height && x < f.comps[s[ci]].width
      && Earlier(f, s, ci, row, x, r, y + 1, 0)
      ensures a[row, x] == image[s[ci]][row][x]
    {
      ColIn(f, s, ci, x);
    }
  }

  lemma IMcuRowLanded(f: Frame, s: ScanComps, image: seq<Plane>, ci: nat, a: array2<Block>, r: nat)
    requires ScanOk(f, s) && ImageOk(f, image) && ci < |s| && r < TotalIMcuRows(f)
    requires Landed(f, s, image, ci, a, r, McuRows(f, s, r), 0)
    ensures Landed(f, s, image, ci, a, r + 1, 0, 0)
  {
    hide OwnRow, OwnCol, OwnIMcuRow, McuRows, TotalIMcuRows;
    forall row, x | 0 <= row < a.Length0 && 0 <= x < a.Length1 && row < f.comps[s[ci]].height && x < f.comps[s[ci]].width
      && Earlier(f, s, ci, row, x, r + 1, 0, 0)
      ensures a[row, x] == image[s[ci]][row][x]
    {
      RowIn(f, s, ci, row);
    }
  }

  lemma NoneEarlier(f: Frame, s: ScanComps, image: seq<Plane>, ci: nat, a: array2<Block>)
    requires ScanOk(f, s) && ImageOk(f, image) && ci < |s|
    ensures Landed(f, s, image, ci, a, 0, 0, 0)
  {
  }

  /** At the end of the scan every real block of the component is in its place. */
  ghost predicate Complete(k: Comp, p: Plane, a: array2<Block>)
    requires PlaneOk(k, p)
    reads a
  {
    && k.height <= a.Length0 && k.width <= a.Length1
    && forall row, x :: 0 <= row < k.height && 0 <= x < k.width ==> a[row, x] == p[row][x]
  }

  lemma ScanLanded(f: Frame, s: ScanComps, image: seq<Plane>, ci: nat, a: array2<Block>)
    requires ScanOk(f, s) && ImageOk(f, image) && ci < |s| && Landed(f, s, image, ci, a, TotalIMcuRows(f), 0, 0)
    requires f.comps[s[ci]].height <= a.Length0 && f.comps[s[ci]].width <= a.Length1
    ensures Complete(f.comps[s[ci]], image[s[ci]], a)
  {
    hide OwnRow, OwnCol, OwnIMcuRow, TotalIMcuRows;
    forall row, x | 0 <= row < f.comps[s[ci]].height && 0 <= x < f.comps[s[ci]].width
      ensures a[row, x] == image[s[ci]][row][x]
    {
      RowIn(f, s, ci, row);
      assert Earlier(f, s, ci, row, x, TotalIMcuRows(f), 0, 0);
    }
  }

  datatype Answer = Suspended | RowCompleted | ScanCompleted

  class InputController {
    const f: Frame
    const s: ScanComps
    ghost const image: seq<Plane>
    /** Into full-image arrays, or straight to the output. */
    const multiscan: bool
    const needed: seq<bool>
    const planes: seq<array2<Block>>
    /** The MCUs that the entropy decoder finds in the scan. */
    const mcus: seq<seq<Block>>
    var taken: nat
    var inputIMcuRow: nat
    var mcuCtr: nat
    var mcuVertOffset: nat
    var mcuRowsPerIMcuRow: nat

    ghost predicate Set()
    {
      && ScanOk(f, s) && ImageOk(f, image) && Shows(f, s, image, mcus)
      && |needed| == |f.comps| && |planes| == |f.comps|
      && (forall c, d :: 0 <= c < d < |f.comps| ==> planes[c] != planes[d])
      && (forall i, j :: 0 <= i < j < |s| ==> s[i] != s[j])
      && (forall c :: 0 <= c < |f.comps| ==> if multiscan then Room(f, c, planes[c])
            else planes[c].Length0 == f.comps[c].height && planes[c].Length1 == f.comps[c].width)
    }

    /** The arrays of the components of the scan. */
    ghost function Targets(): set<array2<Block>>
      requires Set()
    {
      set ci | 0 <= ci < |s| :: planes[s[ci]]
    }

    ghost predicate Shown(ci: nat)
      requires Set() && ci < |s|
    {
      multiscan || needed[s[ci]]
    }

    ghost predicate At(r: nat, y: nat, col: nat)
      requires Set()
      reads `taken
    {
      && r <= TotalIMcuRows(f)
      && (if r < TotalIMcuRows(f) then y <= McuRows(f, s, r) && col <= McusPerRow(f, s) else y == col == 0)
      && taken == |SpotsBefore(f, s, r, y, col)|
    }

    ghost predicate Placed(r: nat, y: nat, col: nat)
      requires Set()
      reads planes
    {
      forall ci :: 0 <= ci < |s| && Shown(ci) ==> Landed(f, s, image, ci, planes[s[ci]], r, y, col)
    }

    ghost predicate Valid()
      reads this, planes
    {
      && Set()
      && if inputIMcuRow < TotalIMcuRows(f) then
           && At(inputIMcuRow, mcuVertOffset, mcuCtr) && Placed(inputIMcuRow, mcuVertOffset, mcuCtr)
           && mcuVertOffset < mcuRowsPerIMcuRow == McuRows(f, s, inputIMcuRow)
         else At(inputIMcuRow, 0, 0) && Placed(inputIMcuRow, 0, 0)
    }

    /** start_input_pass. */
    constructor (f: Frame, s: ScanComps, ghost image: seq<Plane>, multiscan: bool, needed: seq<bool>, planes: seq<array2<Block>>,
        mcus: seq<seq<Block>>)
      requires ScanOk(f, s) && ImageOk(f, image) && Shows(f, s, image, mcus)
      requires |needed| == |f.comps| && |planes| == |f.comps|
      requires forall c, d :: 0 <= c < d < |f.comps| ==> planes[c] != planes[d]
      requires forall i, j :: 0 <= i < j < |s| ==> s[i] != s[j]
      requires forall c :: 0 <= c < |f.comps| ==> if multiscan then Room(f, c, planes[c])
            else planes[c].Length0 == f.comps[c].height && planes[c].Length1 == f.comps[c].width
      ensures Valid() && inputIMcuRow == 0 && taken == 0
      ensures this.f == f && this.s == s && this.image == image && this.multiscan == multiscan
      ensures this.needed == needed && this.planes == planes && this.mcus == mcus
    {
      this.f, this.s, this.image, this.multiscan, this.needed, this.planes, this.mcus := f, s, image, multiscan, needed, planes, mcus;
      inputIMcuRow, taken := 0, 0;
      new;
      CompFits(f, s[0]);
      StartIMcuRow();
      forall ci | 0 <= ci < |s|
        ensures Landed(f, s, image, ci, planes[s[ci]], 0, 0, 0)
      {
        NoneEarlier(f, s, image, ci, planes[s[ci]]);
      }
    }

    method StartIMcuRow()
      requires ScanOk(f, s) && inputIMcuRow <= TotalIMcuRows(f)
      modifies `mcuCtr, `mcuVertOffset, `mcuRowsPerIMcuRow
      ensures mcuCtr == 0 && mcuVertOffset == 0
      ensures inputIMcuRow < TotalIMcuRows(f) ==> 0 < mcuRowsPerIMcuRow == McuRows(f, s, inputIMcuRow)
    {
      RestSmall(f.comps[s[0]].height, f.comps[s[0]].v);
      if |s| > 1 {
        mcuRowsPerIMcuRow := 1;
      } else if inputIMcuRow < TotalIMcuRows(f) - 1 {
        mcuRowsPerIMcuRow := f.comps[s[0]].v;
      } else {
        mcuRowsPerIMcuRow := LastRowHeight(f, s, 0);
      }
      mcuCtr := 0;
      mcuVertOffset := 0;
    }

    /** The blocks of an MCU go to their places. */
    method PlaceMcu(mcu: seq<Block>, y: nat, col: nat)
      requires Set() && SpotOk(f, s, Spot(0, inputIMcuRow, y, col)) && ShowsMcu(f, s, image, inputIMcuRow, y, col, mcu)
      requires Placed(inputIMcuRow, y, col)
      modifies Targets()
      ensures Placed(inputIMcuRow, y, col + 1)
    {
      hide Landed, ShowsMcu, McuRows, TotalIMcuRows, McusPerRow, ImageOk, Room, AllSpots;
      var blkn := 0;
      for ci := 0 to |s|
        invariant blkn == BlocksInMcu(f, s, ci)
        invariant forall i :: 0 <= i < ci && Shown(i) ==> Landed(f, s, image, i, planes[s[i]], inputIMcuRow, y, col + 1)
        invariant forall i :: ci <= i < |s| && Shown(i) ==> Landed(f, s, image, i, planes[s[i]], inputIMcuRow, y, col)
      {
        if multiscan {
          StoreComp(f, s, image, Spot(ci, inputIMcuRow, y, col), planes[s[ci]], mcu, blkn);
        } else if needed[s[ci]] {
          OutputComp(f, s, image, Spot(ci, inputIMcuRow, y, col), planes[s[ci]], mcu, blkn);
        }
        blkn := blkn + McuHeight(f, s, ci) * McuWidth(f, s, ci);
      }
    }

    lemma NextMcu(y: nat, col: nat)
      requires Set() && At(inputIMcuRow, y, col) && SpotOk(f, s, Spot(0, inputIMcuRow, y, col))
      ensures taken < |mcus| && ShowsMcu(f, s, image, inputIMcuRow, y, col, mcus[taken])
      ensures |SpotsBefore(f, s, inputIMcuRow, y, col + 1)| == taken + 1
    {
      hide ShowsMcu, McuRows, TotalIMcuRows, McusPerRow, AllSpots;
      SpotsArePrefix(f, s, inputIMcuRow, y, col + 1);
      assert AllSpots(f, s)[taken] == Spot(0, inputIMcuRow, y, col);
    }

    /** The MCUs of a row from column start on, until the entropy decoder suspends: it has at
        most room of them. */
    method McuRow(y: nat, start: nat, room: nat) returns (col: nat)
      requires Set() && At(inputIMcuRow, y, start) && inputIMcuRow < TotalIMcuRows(f) && y < McuRows(f, s, inputIMcuRow)
      requires Placed(inputIMcuRow, y, start)
      modifies `taken, Targets()
      ensures At(inputIMcuRow, y, col) && Placed(inputIMcuRow, y, col) && start <= col <= McusPerRow(f, s)
      ensures taken == old(taken) + col - start
      ensures col - start <= room && (col < McusPerRow(f, s) ==> col - start == room)
    {
      hide Set, Placed, ShowsMcu, McuRows, TotalIMcuRows, McusPerRow, ImageOk, SpotsBefore;
      SetFacts();
      col := start;
      while col < McusPerRow(f, s) && col - start < room
        invariant At(inputIMcuRow, y, col) && start <= col <= McusPerRow(f, s) && col - start <= room
        invariant Placed(inputIMcuRow, y, col) && taken == old(taken) + col - start
      {
        NextMcu(y, col);
        PlaceMcu(mcus[taken], y, col);
        taken := taken + 1;
        col := col + 1;
      }
    }

    lemma SetFacts()
      requires Set()
      ensures ScanOk(f, s) && ImageOk(f, image)
    {
    }

    lemma RowDone(y: nat)
      requires Set() && inputIMcuRow < TotalIMcuRows(f) && y < McuRows(f, s, inputIMcuRow)
      requires At(inputIMcuRow, y, McusPerRow(f, s)) && Placed(inputIMcuRow, y, McusPerRow(f, s))
      ensures At(inputIMcuRow, y + 1, 0) && Placed(inputIMcuRow, y + 1, 0)
    {
      hide Landed, ShowsMcu, McuRows, TotalIMcuRows, McusPerRow, ImageOk, Room, AllSpots;
      forall ci | 0 <= ci < |s| && Shown(ci)
        ensures Landed(f, s, image, ci, planes[s[ci]], inputIMcuRow, y + 1, 0)
      {
        RowLanded(f, s, image, ci, planes[s[ci]], inputIMcuRow, y);
      }
    }

    lemma IMcuRowDone()
      requires Set() && inputIMcuRow < TotalIMcuRows(f)
      requires At(inputIMcuRow, McuRows(f, s, inputIMcuRow), 0) && Placed(inputIMcuRow, McuRows(f, s, inputIMcuRow), 0)
      ensures At(inputIMcuRow + 1, 0, 0) && Placed(inputIMcuRow + 1, 0, 0)
    {
      hide Landed, ShowsMcu, McuRows, TotalIMcuRows, McusPerRow, ImageOk, Room, AllSpots;
      forall ci | 0 <= ci < |s| && Shown(ci)
        ensures Landed(f, s, image, ci, planes[s[ci]], inputIMcuRow + 1, 0, 0)
      {
        IMcuRowLanded(f, s, image, ci, planes[s[ci]], inputIMcuRow);
      }
    }

    lemma ScanDone()
      requires Set() && Placed(TotalIMcuRows(f), 0, 0)
      ensures AllComplete()
    {
      hide Landed, TotalIMcuRows, Complete;
      forall ci | 0 <= ci < |s| && Shown(ci)
        ensures f.comps[s[ci]].height <= planes[s[ci]].Length0 && f.comps[s[ci]].width <= planes[s[ci]].Length1
        ensures Complete(f.comps[s[ci]], image[s[ci]], planes[s[ci]])
      {
        if multiscan { RoomHolds(f, s[ci], planes[s[ci]]); }
        ScanLanded(f, s, image, ci, planes[s[ci]]);
      }
    }

    ghost predicate AllComplete()
      requires Set()
      reads planes
    {
      forall ci :: 0 <= ci < |s| && Shown(ci) ==> Complete(f.comps[s[ci]], image[s[ci]], planes[s[ci]])
    }

    /** consume_data and decompress_onepass: one call, in which the entropy decoder has at most
        room MCUs before it suspends. */
    method ConsumeData(room: nat) returns (answer: Answer)
      requires Valid() && inputIMcuRow < TotalIMcuRows(f)
      modifies this, Targets()
      ensures Valid()
      ensures inputIMcuRow == old(inputIMcuRow) + (if answer == Suspended then 0 else 1)
      ensures old(taken) <= taken <= old(taken) + room && (answer == Suspended ==> taken == old(taken) + room)
      ensures answer == ScanCompleted <==> inputIMcuRow == TotalIMcuRows(f)
      ensures answer == ScanCompleted ==> taken == |mcus| && AllComplete()
    {
      hide At, Placed, SpotsBefore, McuRows, ImageOk, TotalIMcuRows, McusPerRow, Set, AllComplete;
      SetFacts();
      var yoffset, used := mcuVertOffset, 0;
      while yoffset < mcuRowsPerIMcuRow
        invariant Set() && inputIMcuRow == old(inputIMcuRow)
        invariant yoffset <= mcuRowsPerIMcuRow == McuRows(f, s, inputIMcuRow)
        invariant At(inputIMcuRow, yoffset, mcuCtr) && Placed(inputIMcuRow, yoffset, mcuCtr)
        invariant yoffset == mcuRowsPerIMcuRow ==> mcuCtr == 0
        invariant taken == old(taken) + used && 0 <= used <= room
      {
        AtFacts(inputIMcuRow, yoffset, mcuCtr);
        var col := McuRow(yoffset, mcuCtr, room - used);
        used := used + (col - mcuCtr);
        if col < McusPerRow(f, s) {
          mcuVertOffset := yoffset;
          mcuCtr := col;
          return Suspended;
        }
        mcuCtr := 0;
        RowDone(yoffset);
        yoffset := yoffset + 1;
      }
      IMcuRowDone();
      inputIMcuRow := inputIMcuRow + 1;
      AtFacts(inputIMcuRow, 0, 0);
      if inputIMcuRow < TotalIMcuRows(f) {
        StartIMcuRow();
        return RowCompleted;
      }
      ScanDone();
      LastAt();
      return ScanCompleted;
    }

    lemma AtFacts(r: nat, y: nat, col: nat)
      requires Set() && At(r, y, col)
      ensures r <= TotalIMcuRows(f) && (r < TotalIMcuRows(f) ==> col <= McusPerRow(f, s))
    {
    }

    lemma TakenSome()
      requires Valid()
      ensures taken <= |mcus|
    {
      hide TotalIMcuRows, McuRows, McusPerRow, AllSpots, Room, SpotsBefore;
      if inputIMcuRow < TotalIMcuRows(f) {
        SpotsArePrefix(f, s, inputIMcuRow, mcuVertOffset, mcuCtr);
      } else {
        LastAt();
      }
    }

    lemma LastAt()
      requires Set() && At(TotalIMcuRows(f), 0, 0)
      ensures taken == |mcus|
    {
    }
  }

  lemma RoomHolds(f: Frame, c: nat, a: array2<Block>)
    requires FrameOk(f) && c < |f.comps| && Room(f, c, a)
    ensures f.comps[c].height <= a.Length0 && f.comps[c].width <= a.Length1
  {
    var k := f.comps[c];
    CompFits(f, c);
    RestSmall(k.height, k.v);
    RestSmall(k.width, k.h);
    Strip(TotalIMcuRows(f) - 1, TotalIMcuRows(f), k.v);
    Strip(IMcusPerRow(f) - 1, IMcusPerRow(f), k.h);
  }

  // ---- A whole pass ----

  predicate IsMcuOf(f: Frame, s: ScanComps, image: seq<Plane>, t: Spot, mcu: seq<Block>)
    requires ScanOk(f, s) && ImageOk(f, image)
  {
    SpotOk(f, s, t) && t.ci == 0 && mcu == Mcu(f, s, image, t.r, t.y, t.col)
  }

  lemma McusAreSpots(f: Frame, s: ScanComps, image: seq<Plane>)
    requires ScanOk(f, s) && ImageOk(f, image)
    ensures |AllMcus(f, s, image)| == |AllSpots(f, s)|
    ensures forall i :: 0 <= i < |AllSpots(f, s)| ==> IsMcuOf(f, s, image, AllSpots(f, s)[i], AllMcus(f, s, image)[i])
  {
    hide Mcu, TotalIMcuRows, McusBefore, SpotsBefore;
    McuOfSpot(f, s, image, TotalIMcuRows(f), 0, 0);
  }

  lemma McuShows(f: Frame, s: ScanComps, image: seq<Plane>, r: nat, y: nat, col: nat)
    requires SpotOk(f, s, Spot(0, r, y, col)) && ImageOk(f, image)
    ensures ShowsMcu(f, s, image, r, y, col, Mcu(f, s, image, r, y, col))
  {
    hide McuRows, TotalIMcuRows, BlocksInMcu, FrameOk, McuBlocks;
    McuLength(f, s, image, r, y, col, |s|);
    forall ci, yindex, x | 0 <= ci < |s| && 0 <= yindex < McuHeight(f, s, ci) && 0 <= x < McuWidth(f, s, ci)
      ensures Index(f, s, Spot(ci, r, y, col), yindex, x) < |Mcu(f, s, image, r, y, col)|
      ensures RealIs(f, s, image, Spot(ci, r, y, col), yindex, x, Mcu(f, s, image, r, y, col)[Index(f, s, Spot(ci, r, y, col), yindex, x)])
    {
      McuAt(f, s, image, Spot(ci, r, y, col), yindex, x);
      RealBlock(f, s, image, Spot(ci, r, y, col), yindex, x);
    }
  }

  lemma RealBlock(f: Frame, s: ScanComps, image: seq<Plane>, t: Spot, yindex: nat, x: nat)
    requires SpotOk(f, s, t) && ImageOk(f, image)
    ensures RealIs(f, s, image, t, yindex, x, BlockAt(f, s, image, t, yindex, x))
  {
    hide FrameOk, McuRows, TotalIMcuRows;
  }

  /** The MCUs that the encoder assembles show the image. */
  lemma AllShow(f: Frame, s: ScanComps, image: seq<Plane>)
    requires ScanOk(f, s) && ImageOk(f, image)
    ensures Shows(f, s, image, AllMcus(f, s, image))
  {
    hide Mcu, ShowsMcu, AllSpots, AllMcus;
    McusAreSpots(f, s, image);
    forall i | 0 <= i < |AllSpots(f, s)|
      ensures SpotOk(f, s, AllSpots(f, s)[i])
      ensures ShowsMcu(f, s, image, AllSpots(f, s)[i].r, AllSpots(f, s)[i].y, AllSpots(f, s)[i].col, AllMcus(f, s, image)[i])
    {
      assert IsMcuOf(f, s, image, AllSpots(f, s)[i], AllMcus(f, s, image)[i]);
      McuShows(f, s, image, AllSpots(f, s)[i].r, AllSpots(f, s)[i].y, AllSpots(f, s)[i].col);
    }
  }

  /** A pass in which the entropy decoder suspends as often as it likes: when the scan is complete,
      every real block of the components that are wanted is in its place; and it is complete
      after enough calls that make some progress. */
  method RunPass(f: Frame, s: ScanComps, ghost image: seq<Plane>, multiscan: bool, needed: seq<bool>, planes: seq<array2<Block>>,
      mcus: seq<seq<Block>>, rooms: seq<nat>) returns (complete: bool)
    requires ScanOk(f, s) && ImageOk(f, image) && Shows(f, s, image, mcus) && PlanesOk(f, multiscan, needed, planes)
    requires forall i, j :: 0 <= i < j < |s| ==> s[i] != s[j]
    modifies set ci | 0 <= ci < |s| :: planes[s[ci]]
    ensures Enough(f, s, image, rooms) ==> complete
    ensures complete ==> forall ci :: 0 <= ci < |s| && (multiscan || needed[s[ci]]) ==>
      Complete(f.comps[s[ci]], image[s[ci]], planes[s[ci]])
  {
    hide AllMcus, AllSpots, TotalIMcuRows, Complete, ImageOk, Room;
    McusAreSpots(f, s, image);
    var c := new InputController(f, s, image, multiscan, needed, planes, mcus);
    complete := false;
    CompFits(f, s[0]);
    for i := 0 to |rooms|
      invariant c.Valid() && fresh(c) && !complete && c.inputIMcuRow < TotalIMcuRows(f)
      invariant Enough(f, s, image, rooms) ==> i <= c.inputIMcuRow + c.taken
      invariant c.f == f && c.s == s && c.image == image && c.multiscan == multiscan && c.needed == needed && c.planes == planes
    {
      var answer := c.ConsumeData(rooms[i]);
      if answer == ScanCompleted { return true; }
    }
    c.TakenSome();
  }

  /** Where the blocks go: arrays with room for whole MCUs, or an output of the exact size. */
  predicate PlanesOk(f: Frame, multiscan: bool, needed: seq<bool>, planes: seq<array2<Block>>)
    requires FrameOk(f)
  {
    && |needed| == |f.comps| && |planes| == |f.comps|
    && (forall c, d :: 0 <= c < d < |f.comps| ==> planes[c] != planes[d])
    && (forall c :: 0 <= c < |f.comps| ==> if multiscan then Room(f, c, planes[c])
          else planes[c].Length0 == f.comps[c].height && planes[c].Length1 == f.comps[c].width)
  }
}
