/** The three ways in which the encoder assembles MCUs: compress_data (in one pass), and
    compress_first_pass with compress_output (through full-image arrays) of jccoefct.c, and
    compress_output of jctrans.c (when transcoding).  They send the same MCUs. */
module McuEncoder {
  import opened Radix
  import opened Blocks
  import opened McuGeometry

  const C_MAX_BLOCKS_IN_MCU := 10

  // ---- Dummy blocks ----

  /** A dummy block takes its DC value from the block before it in the MCU. */
  lemma DummyInRow(k: Comp, p: Plane, row: nat, col: nat)
    requires PlaneOk(k, p) && 0 < col
    requires (row < k.height && k.width <= col) || (k.height <= row && col / k.h == (col - 1) / k.h)
    ensures Padded(k, p, row, col) == Dummy(Padded(k, p, row, col - 1)[0])
  {
  }

  lemma DummyRowStart(k: Comp, p: Plane, row: nat, m: nat)
    requires PlaneOk(k, p) && k.height <= row && 0 < row && m * k.h < k.width
    ensures Padded(k, p, row, m * k.h) == Dummy(Padded(k, p, row - 1, m * k.h + k.h - 1)[0])
  {
    var c := m * k.h + k.h - 1;
    DivIs(m * k.h, k.h, m, 0);
    DivIs(c, k.h, m, k.h - 1);
  }

  lemma DivIs(b: nat, h: nat, q: nat, r: nat)
    requires r < h && b == q * h + r
    ensures b / h == q
  {
    assert b == b / h * h + b % h;
    Squeeze(b, h, q, b / h);
  }

  lemma SameMcu(m: nat, h: nat, x: nat)
    requires 0 < x < h
    ensures (m * h + x) / h == (m * h + x - 1) / h
  {
    DivIs(m * h + x, h, m, x);
    DivIs(m * h + x - 1, h, m, x - 1);
  }

  lemma RowSnoc(k: Comp, p: Plane, row: nat, col: nat, x: nat)
    requires PlaneOk(k, p)
    ensures RowBlocks(k, p, row, col, x + 1) == RowBlocks(k, p, row, col, x) + [Padded(k, p, row, col + x)]
    ensures x > 0 ==> RowBlocks(k, p, row, col, x)[x - 1] == Padded(k, p, row, col + x - 1)
  {
  }

  /** Where a block row of an MCU lies. */
  datatype Spot = Spot(ci: nat, r: nat, y: nat, col: nat)

  predicate SpotOk(f: Frame, s: ScanComps, t: Spot) {
    ScanOk(f, s) && t.ci < |s| && t.r < TotalIMcuRows(f) && t.y < McuRows(f, s, t.r) && t.col < McusPerRow(f, s)
  }

  function BaseRow(f: Frame, s: ScanComps, t: Spot): nat
    requires SpotOk(f, s, t)
  {
    t.r * f.comps[s[t.ci]].v + t.y
  }

  function BaseCol(f: Frame, s: ScanComps, t: Spot): nat
    requires SpotOk(f, s, t)
  {
    t.col * McuWidth(f, s, t.ci)
  }

  /** The blocks of the component in front of block x of row yindex of the MCU. */
  function Part(f: Frame, s: ScanComps, image: seq<Plane>, t: Spot, yindex: nat, x: nat): seq<Block>
    requires SpotOk(f, s, t) && ImageOk(f, image)
  {
    var k, p := f.comps[s[t.ci]], image[s[t.ci]];
    CompBlocks(k, p, BaseRow(f, s, t), BaseCol(f, s, t), McuWidth(f, s, t.ci), yindex)
      + RowBlocks(k, p, BaseRow(f, s, t) + yindex, BaseCol(f, s, t), x)
  }

  /** The next block that has to follow is a dummy: it copies the DC value of the last one. */
  lemma NextDummy(f: Frame, s: ScanComps, image: seq<Plane>, t: Spot, yindex: nat, x: nat)
    requires SpotOk(f, s, t) && ImageOk(f, image) && yindex < McuHeight(f, s, t.ci) && x < McuWidth(f, s, t.ci)
    requires var k := f.comps[s[t.ci]]; k.width <= BaseCol(f, s, t) + x || k.height <= BaseRow(f, s, t) + yindex
    ensures var before := Part(f, s, image, t, yindex, x);
      && before != []
      && Part(f, s, image, t, yindex, x + 1) == before + [Dummy(before[|before| - 1][0])]
  {
    hide Padded, RowBlocks, CompBlocks;
    var k, p := f.comps[s[t.ci]], image[s[t.ci]];
    var row, base, w := BaseRow(f, s, t) + yindex, BaseCol(f, s, t), McuWidth(f, s, t.ci);
    RealBlocks(f, s, t.ci, t.r, t.y, t.col, yindex, x);
    RealBlocks(f, s, t.ci, t.r, t.y, t.col, 0, 0);
    RowSnoc(k, p, row, base, x);
    Concat(CompBlocks(k, p, BaseRow(f, s, t), base, w, yindex), RowBlocks(k, p, row, base, x), [Padded(k, p, row, base + x)]);
    if x > 0 {
      if k.height <= row { SameMcu(t.col, k.h, x); }
      DummyInRow(k, p, row, base + x);
    } else {
      DummyRowStart(k, p, row, t.col);
      LastOfRows(k, p, BaseRow(f, s, t), base, w, yindex);
      NoRow(k, p, row, base);
    }
  }

  lemma NoRow(k: Comp, p: Plane, row: nat, col: nat)
    requires PlaneOk(k, p)
    ensures RowBlocks(k, p, row, col, 0) == []
  {
  }

  lemma LastOfRows(k: Comp, p: Plane, row: nat, col: nat, w: nat, n: nat)
    requires PlaneOk(k, p) && 0 < n && 0 < w
    ensures var b := CompBlocks(k, p, row, col, w, n); b != [] && b[|b| - 1] == Padded(k, p, row + n - 1, col + w - 1)
  {
    hide Padded;
    RowSnoc(k, p, row + n - 1, col, w - 1);
  }

  /** The next block is a real one. */
  lemma NextReal(f: Frame, s: ScanComps, image: seq<Plane>, t: Spot, yindex: nat, x: nat)
    requires SpotOk(f, s, t) && ImageOk(f, image) && yindex < McuHeight(f, s, t.ci) && x < McuWidth(f, s, t.ci)
    requires var k := f.comps[s[t.ci]]; BaseCol(f, s, t) + x < k.width && BaseRow(f, s, t) + yindex < k.height
    ensures Part(f, s, image, t, yindex, x + 1) ==
      Part(f, s, image, t, yindex, x) + [image[s[t.ci]][BaseRow(f, s, t) + yindex][BaseCol(f, s, t) + x]]
  {
    hide RowBlocks, CompBlocks;
    var k, p := f.comps[s[t.ci]], image[s[t.ci]];
    var row, base := BaseRow(f, s, t) + yindex, BaseCol(f, s, t);
    RowSnoc(k, p, row, base, x);
    Concat(CompBlocks(k, p, BaseRow(f, s, t), base, McuWidth(f, s, t.ci), yindex), RowBlocks(k, p, row, base, x), [Padded(k, p, row, base + x)]);
  }

  lemma NextRow(f: Frame, s: ScanComps, image: seq<Plane>, t: Spot, yindex: nat)
    requires SpotOk(f, s, t) && ImageOk(f, image)
    ensures Part(f, s, image, t, yindex, McuWidth(f, s, t.ci)) == Part(f, s, image, t, yindex + 1, 0)
  {
    hide Padded;
  }

  // ---- One component of an MCU, in the three ways ----

  /** compress_data: real blocks come out of the DCT, dummies are filled in behind them. */
  method DctComp(f: Frame, s: ScanComps, image: seq<Plane>, t: Spot, blkp0: seq<Block>) returns (blkp: seq<Block>)
    requires SpotOk(f, s, t) && ImageOk(f, image)
    ensures blkp == blkp0 + Part(f, s, image, t, McuHeight(f, s, t.ci), 0)
  {
    hide Padded, RowBlocks, CompBlocks, Part, McuRows, TotalIMcuRows;
    var k, p := f.comps[s[t.ci]], image[s[t.ci]];
    var lastIMcuRow, lastCol := TotalIMcuRows(f) - 1, McusPerRow(f, s) - 1;
    var blockcnt := if t.col < lastCol then McuWidth(f, s, t.ci) else LastColWidth(f, s, t.ci);
    blkp := blkp0;
    PartZero(f, s, image, t);
    for yindex := 0 to McuHeight(f, s, t.ci)
      invariant blkp == blkp0 + Part(f, s, image, t, yindex, 0)
    {
      var x := 0;
      RealBlocks(f, s, t.ci, t.r, t.y, t.col, yindex, 0);
      if t.r < lastIMcuRow || t.y + yindex < LastRowHeight(f, s, t.ci) {
        while x < blockcnt
          invariant x <= blockcnt <= McuWidth(f, s, t.ci) && blkp == blkp0 + Part(f, s, image, t, yindex, x)
        {
          RealBlocks(f, s, t.ci, t.r, t.y, t.col, yindex, x);
          NextReal(f, s, image, t, yindex, x);
          blkp := blkp + [p[BaseRow(f, s, t) + yindex][BaseCol(f, s, t) + x]];
          x := x + 1;
        }
      }
      while x < McuWidth(f, s, t.ci)
        invariant x <= McuWidth(f, s, t.ci) && blkp == blkp0 + Part(f, s, image, t, yindex, x)
        invariant x >= blockcnt || k.height <= BaseRow(f, s, t) + yindex
      {
        RealBlocks(f, s, t.ci, t.r, t.y, t.col, yindex, x);
        NextDummy(f, s, image, t, yindex, x);
        blkp := blkp + [Dummy(blkp[|blkp| - 1][0])];
        x := x + 1;
      }
      NextRow(f, s, image, t, yindex);
    }
  }

  lemma PartZero(f: Frame, s: ScanComps, image: seq<Plane>, t: Spot)
    requires SpotOk(f, s, t) && ImageOk(f, image)
    ensures Part(f, s, image, t, 0, 0) == []
  {
  }

  lemma PartLength(f: Frame, s: ScanComps, image: seq<Plane>, t: Spot, yindex: nat, x: nat)
    requires SpotOk(f, s, t) && ImageOk(f, image) && yindex < McuHeight(f, s, t.ci) && x < McuWidth(f, s, t.ci)
    ensures |Part(f, s, image, t, yindex, x)| < McuHeight(f, s, t.ci) * McuWidth(f, s, t.ci)
  {
    hide Padded;
    var w, h := McuWidth(f, s, t.ci), McuHeight(f, s, t.ci);
    MulOrder(yindex + 1, h, w);
    assert (yindex + 1) * w == yindex * w + w;
  }

  /** The AC entries of the workspace for dummy blocks stay zero. */
  ghost predicate ZeroAc(dummyBuffer: array<Block>)
    reads dummyBuffer
  {
    dummyBuffer.Length == C_MAX_BLOCKS_IN_MCU &&
    forall i, k :: 0 <= i < C_MAX_BLOCKS_IN_MCU && 1 <= k < 64 ==> dummyBuffer[i][k] == 0
  }

  /** Transcoding: pointers to the real blocks, and to dummies that are made on the fly. */
  method TransComp(f: Frame, s: ScanComps, image: seq<Plane>, t: Spot, dummyBuffer: array<Block>, buffer0: seq<Block>)
      returns (buffer: seq<Block>)
    requires SpotOk(f, s, t) && ImageOk(f, image) && ZeroAc(dummyBuffer)
    requires |buffer0| + McuHeight(f, s, t.ci) * McuWidth(f, s, t.ci) <= C_MAX_BLOCKS_IN_MCU
    modifies dummyBuffer
    ensures buffer == buffer0 + Part(f, s, image, t, McuHeight(f, s, t.ci), 0) && ZeroAc(dummyBuffer)
  {
    hide Padded, RowBlocks, CompBlocks, Part, McuRows, TotalIMcuRows, ZeroAc;
    var lastIMcuRow, lastCol := TotalIMcuRows(f) - 1, McusPerRow(f, s) - 1;
    var blockcnt := if t.col < lastCol then McuWidth(f, s, t.ci) else LastColWidth(f, s, t.ci);
    buffer := buffer0;
    PartZero(f, s, image, t);
    for yindex := 0 to McuHeight(f, s, t.ci)
      invariant buffer == buffer0 + Part(f, s, image, t, yindex, 0) && ZeroAc(dummyBuffer)
    {
      var x := 0;
      RealBlocks(f, s, t.ci, t.r, t.y, t.col, yindex, 0);
      if t.r < lastIMcuRow || t.y + yindex < LastRowHeight(f, s, t.ci) {
        buffer := TransReal(f, s, image, t, yindex, blockcnt, buffer0, buffer);
        x := blockcnt;
      }
      if x < McuWidth(f, s, t.ci) { RealBlocks(f, s, t.ci, t.r, t.y, t.col, yindex, x); }
      buffer := TransDummies(f, s, image, t, yindex, x, dummyBuffer, buffer0, buffer);
      NextRow(f, s, image, t, yindex);
    }
  }

  /** Pointers to the real blocks in a row. */
  method TransReal(f: Frame, s: ScanComps, image: seq<Plane>, t: Spot, yindex: nat, blockcnt: nat,
      ghost buffer0: seq<Block>, buffer1: seq<Block>)
      returns (buffer: seq<Block>)
    requires SpotOk(f, s, t) && ImageOk(f, image) && yindex < McuHeight(f, s, t.ci)
    requires buffer1 == buffer0 + Part(f, s, image, t, yindex, 0)
    requires blockcnt == if t.col < McusPerRow(f, s) - 1 then McuWidth(f, s, t.ci) else LastColWidth(f, s, t.ci)
    requires BaseRow(f, s, t) + yindex < f.comps[s[t.ci]].height
    ensures buffer == buffer0 + Part(f, s, image, t, yindex, blockcnt)
  {
    hide Padded, RowBlocks, CompBlocks, Part, McuRows, TotalIMcuRows;
    var p := image[s[t.ci]];
    buffer := buffer1;
    RealBlocks(f, s, t.ci, t.r, t.y, t.col, yindex, 0);
    for x := 0 to blockcnt
      invariant buffer == buffer0 + Part(f, s, image, t, yindex, x)
    {
      RealBlocks(f, s, t.ci, t.r, t.y, t.col, yindex, x);
      NextReal(f, s, image, t, yindex, x);
      var b := p[BaseRow(f, s, t) + yindex][BaseCol(f, s, t) + x];
      Concat(buffer0, Part(f, s, image, t, yindex, x), [b]);
      buffer := buffer + [b];
    }
  }

  /** Dummy blocks for the rest of a row. */
  method TransDummies(f: Frame, s: ScanComps, image: seq<Plane>, t: Spot, yindex: nat, x0: nat, dummyBuffer: array<Block>,
      ghost buffer0: seq<Block>, buffer1: seq<Block>)
      returns (buffer: seq<Block>)
    requires SpotOk(f, s, t) && ImageOk(f, image) && ZeroAc(dummyBuffer) && yindex < McuHeight(f, s, t.ci)
    requires |buffer0| + McuHeight(f, s, t.ci) * McuWidth(f, s, t.ci) <= C_MAX_BLOCKS_IN_MCU
    requires x0 <= McuWidth(f, s, t.ci) && buffer1 == buffer0 + Part(f, s, image, t, yindex, x0)
    requires BaseCol(f, s, t) + x0 >= f.comps[s[t.ci]].width || f.comps[s[t.ci]].height <= BaseRow(f, s, t) + yindex
      || x0 == McuWidth(f, s, t.ci)
    modifies dummyBuffer
    ensures buffer == buffer0 + Part(f, s, image, t, yindex, McuWidth(f, s, t.ci)) && ZeroAc(dummyBuffer)
  {
    hide Padded, RowBlocks, CompBlocks, Part, McuRows, TotalIMcuRows, ZeroAc;
    var x := x0;
    buffer := buffer1;
    while x < McuWidth(f, s, t.ci)
      invariant x0 <= x <= McuWidth(f, s, t.ci) && buffer == buffer0 + Part(f, s, image, t, yindex, x) && ZeroAc(dummyBuffer)
    {
      NextDummy(f, s, image, t, yindex, x);
      PartLength(f, s, image, t, yindex, x);
      Concat(buffer0, Part(f, s, image, t, yindex, x), [Dummy(buffer[|buffer| - 1][0])]);
      buffer := AddDummy(dummyBuffer, buffer);
      x := x + 1;
    }
  }

  method AddDummy(dummyBuffer: array<Block>, buffer0: seq<Block>) returns (buffer: seq<Block>)
    requires ZeroAc(dummyBuffer) && 0 < |buffer0| < C_MAX_BLOCKS_IN_MCU
    modifies dummyBuffer
    ensures buffer == buffer0 + [Dummy(buffer0[|buffer0| - 1][0])] && ZeroAc(dummyBuffer)
  {
    var blkn, dc := |buffer0|, buffer0[|buffer0| - 1][0];
    dummyBuffer[blkn] := dummyBuffer[blkn][0 := dc];
    assert dummyBuffer[blkn] == Dummy(dc);
    buffer := buffer0 + [dummyBuffer[blkn]];
  }

  // ---- Through full-image arrays ----

  /** The array has room for whole MCUs. */
  predicate Room(f: Frame, c: nat, a: array2<Block>)
    requires FrameOk(f) && c < |f.comps|
  {
    Positive(f.maxH, f.blockSize);
    Positive(f.maxV, f.blockSize);
    a.Length0 == TotalIMcuRows(f) * f.comps[c].v && a.Length1 == IMcusPerRow(f) * f.comps[c].h
  }

  /** Rows lo to hi - 1 of the array hold the blocks, with all dummies. */
  ghost predicate Stored(k: Comp, p: Plane, a: array2<Block>, lo: nat, hi: nat)
    requires PlaneOk(k, p)
    reads a
  {
    forall row, col :: lo <= row < hi && row < a.Length0 && 0 <= col < a.Length1 ==> a[row, col] == Padded(k, p, row, col)
  }

  /** One row of blocks with its dummies at the right edge. */
  method FillRealRow(k: Comp, p: Plane, a: array2<Block>, row: nat, ndummy: nat)
    requires PlaneOk(k, p) && row < k.height && row < a.Length0 && a.Length1 == k.width + ndummy
    modifies a
    ensures Stored(k, p, a, row, row + 1)
    ensures forall y, x :: 0 <= y < a.Length0 && 0 <= x < a.Length1 && y != row ==> a[y, x] == old(a[y, x])
  {
    for x := 0 to k.width
      invariant forall c :: 0 <= c < x ==> a[row, c] == p[row][c]
      invariant forall y, c :: 0 <= y < a.Length0 && 0 <= c < a.Length1 && y != row ==> a[y, c] == old(a[y, c])
    {
      a[row, x] := p[row][x];
    }
    if ndummy > 0 {
      var lastDc := a[row, k.width - 1][0];
      for bi := 0 to ndummy
        invariant forall c :: 0 <= c < k.width + bi ==> a[row, c] == Padded(k, p, row, c)
        invariant forall y, c :: 0 <= y < a.Length0 && 0 <= c < a.Length1 && y != row ==> a[y, c] == old(a[y, c])
      {
        a[row, k.width + bi] := Dummy(lastDc);
      }
    }
  }

  /** A row of dummy blocks: in each MCU they match the last block of the row above. */
  method FillDummyRow(k: Comp, p: Plane, a: array2<Block>, row: nat, mcusAcross: nat)
    requires PlaneOk(k, p) && k.height <= row < a.Length0 && 0 < row && a.Length1 == mcusAcross * k.h
    requires (mcusAcross - 1) * k.h < k.width && Stored(k, p, a, row - 1, row)
    modifies a
    ensures Stored(k, p, a, row, row + 1)
    ensures forall y, x :: 0 <= y < a.Length0 && 0 <= x < a.Length1 && y != row ==> a[y, x] == old(a[y, x])
  {
    var x := 0;
    for m := 0 to mcusAcross
      invariant x == m * k.h <= a.Length1
      invariant forall c :: 0 <= c < x ==> a[row, c] == Padded(k, p, row, c)
      invariant forall y, c :: 0 <= y < a.Length0 && 0 <= c < a.Length1 && y != row ==> a[y, c] == old(a[y, c])
    {
      MulOrder(m + 1, mcusAcross, k.h);
      MulOrder(m, mcusAcross - 1, k.h);
      assert (m + 1) * k.h == x + k.h;
      var lastDc := a[row - 1, x + k.h - 1][0];
      for bi := 0 to k.h
        invariant forall c :: 0 <= c < x + bi ==> a[row, c] == Padded(k, p, row, c)
        invariant forall y, c :: 0 <= y < a.Length0 && 0 <= c < a.Length1 && y != row ==> a[y, c] == old(a[y, c])
      {
        DummyDc(k, p, row, m, bi);
        a[row, x + bi] := Dummy(lastDc);
      }
      x := x + k.h;
    }
  }

  lemma DummyDc(k: Comp, p: Plane, row: nat, m: nat, bi: nat)
    requires PlaneOk(k, p) && k.height <= row && 0 < row && m * k.h < k.width && bi < k.h
    ensures Padded(k, p, row, m * k.h + bi) == Dummy(Padded(k, p, row - 1, m * k.h + k.h - 1)[0])
  {
    DivIs(m * k.h + bi, k.h, m, bi);
    DivIs(m * k.h, k.h, m, 0);
    DummyRowStart(k, p, row, m);
  }

  /** compress_first_pass for one component: an iMCU row of blocks with suitable dummies. */
  method FirstPassComp(f: Frame, c: nat, r: nat, image: seq<Plane>, a: array2<Block>)
    requires FrameOk(f) && ImageOk(f, image) && c < |f.comps| && Room(f, c, a)
    requires (Positive(f.maxV, f.blockSize); r < TotalIMcuRows(f))
    requires Stored(f.comps[c], image[c], a, 0, r * f.comps[c].v)
    modifies a
    ensures Stored(f.comps[c], image[c], a, 0, (r + 1) * f.comps[c].v)
  {
    hide Padded, Stored, CeilDiv;
    var k, p := f.comps[c], image[c];
    StripShape(f, c, r);
    var lastIMcuRow := TotalIMcuRows(f) - 1;
    var blockRows: nat := if r < lastIMcuRow then k.v else Rest(k.height, k.v);
    var ndummy: nat := k.width % k.h;
    if ndummy > 0 { ndummy := k.h - ndummy; }
    FillRealRows(k, p, a, r * k.v, blockRows, ndummy);
    if blockRows < k.v { FillDummyRows(k, p, a, r * k.v, blockRows, (k.width + ndummy) / k.h); }
  }

  /** The shape of a strip: its real rows, and its width in whole MCUs. */
  lemma StripShape(f: Frame, c: nat, r: nat)
    requires FrameOk(f) && c < |f.comps|
    requires (Positive(f.maxV, f.blockSize); r < TotalIMcuRows(f))
    ensures var k, n, t := f.comps[c], IMcusPerRow(f), TotalIMcuRows(f);
      && 1 <= Rest(k.height, k.v) <= k.v && (r + 1) * k.v == r * k.v + k.v <= t * k.v
      && (r < t - 1 ==> r * k.v + k.v <= k.height) && (r == t - 1 ==> r * k.v + Rest(k.height, k.v) == k.height)
      && k.width + (if k.width % k.h > 0 then k.h - k.width % k.h else 0) == n * k.h && (n - 1) * k.h < k.width
      && n * k.h / k.h == n
  {
    hide IMcusPerRow, TotalIMcuRows;
    var k := f.comps[c];
    Positive(f.maxH, f.blockSize);
    CompFits(f, c);
    RestSmall(k.width, k.h);
    RestSmall(k.height, k.v);
    Strip(r, TotalIMcuRows(f), k.v);
    assert (r + 1) * k.v == r * k.v + k.v;
    Across(k.width, k.h, IMcusPerRow(f));
    DivIs(IMcusPerRow(f) * k.h, k.h, IMcusPerRow(f), 0);
  }

  method FillRealRows(k: Comp, p: Plane, a: array2<Block>, base: nat, blockRows: nat, ndummy: nat)
    requires PlaneOk(k, p) && base + blockRows <= k.height && base + blockRows <= a.Length0 && a.Length1 == k.width + ndummy
    requires Stored(k, p, a, 0, base)
    modifies a
    ensures Stored(k, p, a, 0, base + blockRows)
  {
    hide Padded;
    for blockRow := 0 to blockRows
      invariant Stored(k, p, a, 0, base + blockRow)
    {
      FillRealRow(k, p, a, base + blockRow, ndummy);
    }
  }

  method FillDummyRows(k: Comp, p: Plane, a: array2<Block>, base: nat, blockRows: nat, mcusAcross: nat)
    requires PlaneOk(k, p) && 0 < blockRows < k.v && k.height <= base + blockRows && base + k.v <= a.Length0
    requires a.Length1 == mcusAcross * k.h && (mcusAcross - 1) * k.h < k.width
    requires Stored(k, p, a, 0, base + blockRows)
    modifies a
    ensures Stored(k, p, a, 0, base + k.v)
  {
    hide Padded;
    for blockRow := blockRows to k.v
      invariant Stored(k, p, a, 0, base + blockRow)
    {
      FillDummyRow(k, p, a, base + blockRow, mcusAcross);
    }
  }

  lemma Strip(r: nat, t: nat, v: nat)
    requires r < t
    ensures r * v + v <= t * v
    ensures r < t - 1 ==> r * v + v <= (t - 1) * v
    ensures r == t - 1 ==> r * v == (t - 1) * v
  {
    MulOrder(r + 1, t, v);
    assert (r + 1) * v == r * v + v;
    if r < t - 1 { MulOrder(r + 1, t - 1, v); }
  }

  lemma Across(width: nat, h: nat, n: nat)
    requires 0 < h && 0 < n && width == (n - 1) * h + Rest(width, h)
    ensures width + (if width % h > 0 then h - width % h else 0) == n * h
    ensures (n - 1) * h < width
  {
    RestSmall(width, h);
    assert n * h == (n - 1) * h + h;
  }
}
