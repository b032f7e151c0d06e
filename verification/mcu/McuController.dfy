/** The coefficient controllers of the encoder: one iMCU row for each call, with suspension
    (jccoefct.c and jctrans.c). */
module McuController {
  import opened Radix
  import opened Blocks
  import opened McuGeometry
  import opened McuEncoder

  // ---- A whole MCU, in the three ways ----

  /** per_scan_setup: the number of blocks of the first n components in an MCU. */
  function BlocksInMcu(f: Frame, s: ScanComps, n: nat): nat
    requires ScanOk(f, s) && n <= |s|
  {
    if n == 0 then 0 else BlocksInMcu(f, s, n - 1) + McuHeight(f, s, n - 1) * McuWidth(f, s, n - 1)
  }

  /** MCU_membership as per_scan_setup fills it. */
  function Membership(f: Frame, s: ScanComps, n: nat): (m: seq<nat>)
    requires ScanOk(f, s) && n <= |s|
    ensures |m| == BlocksInMcu(f, s, n) && forall b :: 0 <= b < |m| ==> m[b] < n
  {
    if n == 0 then [] else Membership(f, s, n - 1) + seq(McuHeight(f, s, n - 1) * McuWidth(f, s, n - 1), _ => n - 1)
  }

  lemma {:induction false} Member(f: Frame, s: ScanComps, n: nat, c: nat)
    requires ScanOk(f, s) && c < n <= |s|
    ensures c in Membership(f, s, n)
  {
    if c < n - 1 {
      Member(f, s, n - 1, c);
    } else {
      MulOrder(1, McuHeight(f, s, c), McuWidth(f, s, c));
      var own := seq(McuHeight(f, s, c) * McuWidth(f, s, c), _ => c);
      assert own[0] == c;
    }
  }

  lemma {:induction false} BlocksGrow(f: Frame, s: ScanComps, n: nat, m: nat)
    requires ScanOk(f, s) && n <= m <= |s|
    ensures BlocksInMcu(f, s, n) <= BlocksInMcu(f, s, m)
  {
    if n < m { BlocksGrow(f, s, n, m - 1); }
  }

  lemma NextComp(f: Frame, s: ScanComps, image: seq<Plane>, t: Spot)
    requires SpotOk(f, s, t) && ImageOk(f, image)
    ensures McuBlocks(f, s, image, t.r, t.y, t.col, t.ci + 1) ==
      McuBlocks(f, s, image, t.r, t.y, t.col, t.ci) + Part(f, s, image, t, McuHeight(f, s, t.ci), 0)
  {
    hide Padded, CompBlocks;
    var k, p := f.comps[s[t.ci]], image[s[t.ci]];
    var rows := CompBlocks(k, p, BaseRow(f, s, t), BaseCol(f, s, t), McuWidth(f, s, t.ci), McuHeight(f, s, t.ci));
    assert rows + [] == rows;
  }

  lemma {:induction false} McuLength(f: Frame, s: ScanComps, image: seq<Plane>, r: nat, y: nat, col: nat, n: nat)
    requires ScanOk(f, s) && ImageOk(f, image) && n <= |s|
    ensures |McuBlocks(f, s, image, r, y, col, n)| == BlocksInMcu(f, s, n)
  {
    hide Padded, CompBlocks;
    if n > 0 { McuLength(f, s, image, r, y, col, n - 1); }
  }

  /** compress_data: the MCU comes out of the DCT. */
  method DctMcu(f: Frame, s: ScanComps, image: seq<Plane>, r: nat, y: nat, col: nat) returns (mcu: seq<Block>)
    requires SpotOk(f, s, Spot(0, r, y, col)) && ImageOk(f, image)
    ensures mcu == Mcu(f, s, image, r, y, col)
  {
    hide Part, McuRows, TotalIMcuRows, ScanOk;
    mcu := [];
    for ci := 0 to |s|
      invariant mcu == McuBlocks(f, s, image, r, y, col, ci)
    {
      mcu := DctComp(f, s, image, Spot(ci, r, y, col), mcu);
      NextComp(f, s, image, Spot(ci, r, y, col));
    }
  }

  /** compress_output when transcoding. */
  method TransMcu(f: Frame, s: ScanComps, image: seq<Plane>, r: nat, y: nat, col: nat, dummyBuffer: array<Block>)
      returns (mcu: seq<Block>)
    requires SpotOk(f, s, Spot(0, r, y, col)) && ImageOk(f, image) && ZeroAc(dummyBuffer)
    requires BlocksInMcu(f, s, |s|) <= C_MAX_BLOCKS_IN_MCU
    modifies dummyBuffer
    ensures mcu == Mcu(f, s, image, r, y, col) && ZeroAc(dummyBuffer)
  {
    hide Part, McuRows, TotalIMcuRows, ScanOk, ZeroAc;
    mcu := [];
    for ci := 0 to |s|
      invariant mcu == McuBlocks(f, s, image, r, y, col, ci) && ZeroAc(dummyBuffer)
    {
      BlocksGrow(f, s, ci + 1, |s|);
      McuLength(f, s, image, r, y, col, ci);
      mcu := TransComp(f, s, image, Spot(ci, r, y, col), dummyBuffer, mcu);
      NextComp(f, s, image, Spot(ci, r, y, col));
    }
  }

  /** One full-image array for each component, with room for whole MCUs. */
  predicate Arrays(f: Frame, wholeImage: seq<array2<Block>>)
    requires FrameOk(f)
  {
    && |wholeImage| == |f.comps|
    && (forall c :: 0 <= c < |f.comps| ==> Room(f, c, wholeImage[c]))
    && forall c, d :: 0 <= c < d < |f.comps| ==> wholeImage[c] != wholeImage[d]
  }

  lemma InRoom(f: Frame, s: ScanComps, t: Spot, a: array2<Block>, yindex: nat, x: nat)
    requires SpotOk(f, s, t) && Room(f, s[t.ci], a) && yindex < McuHeight(f, s, t.ci) && x < McuWidth(f, s, t.ci)
    ensures BaseRow(f, s, t) + yindex < a.Length0 && BaseCol(f, s, t) + x < a.Length1
    ensures var v := f.comps[s[t.ci]].v; t.r * v <= BaseRow(f, s, t) + yindex < t.r * v + v
  {
    var k := f.comps[s[t.ci]];
    CompFits(f, s[t.ci]);
    RealBlocks(f, s, t.ci, t.r, t.y, t.col, yindex, x);
    RestSmall(k.width, k.h);
    Strip(t.r, TotalIMcuRows(f), k.v);
    assert IMcusPerRow(f) * k.h == (IMcusPerRow(f) - 1) * k.h + k.h;
    if |s| > 1 { Strip(t.col, IMcusPerRow(f), k.h); }
  }

  /** compress_output: the blocks of one component come out of the full-image array. */
  method StoredComp(f: Frame, s: ScanComps, ghost image: seq<Plane>, t: Spot, a: array2<Block>, buffer0: seq<Block>)
      returns (buffer: seq<Block>)
    requires SpotOk(f, s, t) && ImageOk(f, image) && Room(f, s[t.ci], a)
    requires var c := s[t.ci]; var k := f.comps[c]; Stored(k, image[c], a, t.r * k.v, t.r * k.v + k.v)
    ensures buffer == buffer0 + Part(f, s, image, t, McuHeight(f, s, t.ci), 0)
  {
    hide Padded, RowBlocks, CompBlocks, Part, McuRows, TotalIMcuRows, Room;
    buffer := buffer0;
    PartZero(f, s, image, t);
    for yindex := 0 to McuHeight(f, s, t.ci)
      invariant buffer == buffer0 + Part(f, s, image, t, yindex, 0)
    {
      for x := 0 to McuWidth(f, s, t.ci)
        invariant buffer == buffer0 + Part(f, s, image, t, yindex, x)
      {
        InRoom(f, s, t, a, yindex, x);
        var b := a[BaseRow(f, s, t) + yindex, BaseCol(f, s, t) + x];
        NextStored(f, s, image, t, yindex, x);
        Concat(buffer0, Part(f, s, image, t, yindex, x), [b]);
        buffer := buffer + [b];
      }
      NextRow(f, s, image, t, yindex);
    }
  }

  lemma NextStored(f: Frame, s: ScanComps, image: seq<Plane>, t: Spot, yindex: nat, x: nat)
    requires SpotOk(f, s, t) && ImageOk(f, image)
    ensures Part(f, s, image, t, yindex, x + 1) == Part(f, s, image, t, yindex, x)
      + [Padded(f.comps[s[t.ci]], image[s[t.ci]], BaseRow(f, s, t) + yindex, BaseCol(f, s, t) + x)]
  {
    hide Padded, RowBlocks, CompBlocks;
    var k, p := f.comps[s[t.ci]], image[s[t.ci]];
    var row, base := BaseRow(f, s, t) + yindex, BaseCol(f, s, t);
    RowSnoc(k, p, row, base, x);
    Concat(CompBlocks(k, p, BaseRow(f, s, t), base, McuWidth(f, s, t.ci), yindex), RowBlocks(k, p, row, base, x), [Padded(k, p, row, base + x)]);
  }

  /** The first rows iMCU rows of the components are in their arrays. */
  ghost predicate Strips(f: Frame, image: seq<Plane>, wholeImage: seq<array2<Block>>, c: nat, rows: nat)
    requires FrameOk(f) && ImageOk(f, image) && Arrays(f, wholeImage) && c < |f.comps|
    reads wholeImage[c]
  {
    Stored(f.comps[c], image[c], wholeImage[c], 0, rows * f.comps[c].v)
  }

  ghost predicate AllStored(f: Frame, image: seq<Plane>, wholeImage: seq<array2<Block>>, rows: nat)
    requires FrameOk(f) && ImageOk(f, image)
    reads wholeImage
  {
    Arrays(f, wholeImage) && forall c :: 0 <= c < |f.comps| ==> Strips(f, image, wholeImage, c, rows)
  }

  method StoredMcu(f: Frame, s: ScanComps, ghost image: seq<Plane>, r: nat, y: nat, col: nat, wholeImage: seq<array2<Block>>, ghost rows: nat)
      returns (mcu: seq<Block>)
    requires SpotOk(f, s, Spot(0, r, y, col)) && ImageOk(f, image) && AllStored(f, image, wholeImage, rows) && r < rows
    ensures mcu == Mcu(f, s, image, r, y, col)
  {
    hide Part, McuRows, TotalIMcuRows, ScanOk, FrameOk, ImageOk, Room, Stored, Mcu;
    McuStart(f, s, image, r, y, col);
    mcu := [];
    for ci := 0 to |s|
      invariant mcu == McuBlocks(f, s, image, r, y, col, ci)
    {
      CompInFrame(f, s, ci);
      StripIn(f, image, wholeImage, s[ci], r, rows);
      mcu := StoredComp(f, s, image, Spot(ci, r, y, col), wholeImage[s[ci]], mcu);
      NextComp(f, s, image, Spot(ci, r, y, col));
    }
  }

  lemma StripIn(f: Frame, image: seq<Plane>, wholeImage: seq<array2<Block>>, c: nat, r: nat, rows: nat)
    requires FrameOk(f) && ImageOk(f, image) && Arrays(f, wholeImage) && c < |f.comps|
    requires Strips(f, image, wholeImage, c, rows) && r < rows
    ensures Stored(f.comps[c], image[c], wholeImage[c], r * f.comps[c].v, r * f.comps[c].v + f.comps[c].v)
  {
    hide Padded, Room;
    Strip(r, rows, f.comps[c].v);
  }

  lemma McuStart(f: Frame, s: ScanComps, image: seq<Plane>, r: nat, y: nat, col: nat)
    requires ScanOk(f, s) && ImageOk(f, image)
    ensures McuBlocks(f, s, image, r, y, col, 0) == []
    ensures Mcu(f, s, image, r, y, col) == McuBlocks(f, s, image, r, y, col, |s|)
  {
  }

  lemma CompInFrame(f: Frame, s: ScanComps, ci: nat)
    requires ScanOk(f, s) && ci < |s|
    ensures FrameOk(f) && s[ci] < |f.comps|
  {
  }

  // ---- The controllers ----

  /** Straight from the DCT; from the DCT through the arrays; from the arrays; from the
      arrays of another file. */
  datatype Mode = PassThru | SaveAndPass | CrankDest | Transcode

  /** compress_first_pass, in front of compress_output: the strips of an iMCU row. */
  method FillStrips(f: Frame, image: seq<Plane>, wholeImage: seq<array2<Block>>, r: nat)
    requires FrameOk(f) && ImageOk(f, image) && r < TotalIMcuRows(f) && AllStored(f, image, wholeImage, r)
    modifies wholeImage
    ensures AllStored(f, image, wholeImage, r + 1)
  {
    hide Room, Strips, FrameOk, TotalIMcuRows;
    ghost var next := r + 1;
    for c := 0 to |f.comps|
      invariant forall d :: 0 <= d < c ==> Strips(f, image, wholeImage, d, next)
      invariant forall d :: c <= d < |f.comps| ==> Strips(f, image, wholeImage, d, r)
    {
      FillStrip(f, image, wholeImage, c, r);
    }
  }

  method FillStrip(f: Frame, image: seq<Plane>, wholeImage: seq<array2<Block>>, c: nat, r: nat)
    requires FrameOk(f) && ImageOk(f, image) && r < TotalIMcuRows(f) && Arrays(f, wholeImage) && c < |f.comps|
    requires Strips(f, image, wholeImage, c, r)
    modifies wholeImage[c]
    ensures Strips(f, image, wholeImage, c, r + 1)
  {
    hide Room, Stored, FrameOk, TotalIMcuRows;
    FirstPassComp(f, c, r, image, wholeImage[c]);
  }

  class Controller {
    const f: Frame
    const s: ScanComps
    const image: seq<Plane>
    const mode: Mode
    const wholeImage: seq<array2<Block>>
    const dummyBuffer: array<Block>
    var iMcuRowNum: nat
    var mcuCtr: nat
    var mcuVertOffset: nat
    var mcuRowsPerIMcuRow: nat
    /** What the entropy encoder has taken. */
    var sent: seq<seq<Block>>

    /** What the buffers hold when rows iMCU rows are done. */
    ghost predicate Buffered(rows: nat)
      reads wholeImage, dummyBuffer
    {
      && ScanOk(f, s) && ImageOk(f, image) && BlocksInMcu(f, s, |s|) <= C_MAX_BLOCKS_IN_MCU
      && (mode == Transcode ==> ZeroAc(dummyBuffer))
      && (mode == SaveAndPass ==> AllStored(f, image, wholeImage, rows))
      && (mode == CrankDest ==> AllStored(f, image, wholeImage, TotalIMcuRows(f)))
    }

    ghost predicate At(r: nat, y: nat, col: nat)
      reads `sent
    {
      && ScanOk(f, s) && ImageOk(f, image) && r <= TotalIMcuRows(f)
      && (if r < TotalIMcuRows(f) then y <= McuRows(f, s, r) && col <= McusPerRow(f, s) else y == col == 0)
      && sent == McusBefore(f, s, image, r, y, col)
    }

    ghost predicate Valid()
      reads this, wholeImage, dummyBuffer
    {
      && Buffered(iMcuRowNum) && At(iMcuRowNum, mcuVertOffset, mcuCtr)
      && (iMcuRowNum < TotalIMcuRows(f) ==> mcuVertOffset < mcuRowsPerIMcuRow == McuRows(f, s, iMcuRowNum))
    }

    /** start_pass_coef. */
    constructor (f: Frame, s: ScanComps, image: seq<Plane>, mode: Mode, wholeImage: seq<array2<Block>>, dummyBuffer: array<Block>)
      requires ScanOk(f, s) && ImageOk(f, image) && BlocksInMcu(f, s, |s|) <= C_MAX_BLOCKS_IN_MCU
      requires mode == Transcode ==> ZeroAc(dummyBuffer)
      requires mode == SaveAndPass ==> Arrays(f, wholeImage)
      requires mode == CrankDest ==> AllStored(f, image, wholeImage, TotalIMcuRows(f))
      ensures Valid() && iMcuRowNum == 0 && sent == []
      ensures this.f == f && this.s == s && this.image == image && this.mode == mode
      ensures this.wholeImage == wholeImage && this.dummyBuffer == dummyBuffer
    {
      this.f, this.s, this.image, this.mode, this.wholeImage, this.dummyBuffer := f, s, image, mode, wholeImage, dummyBuffer;
      iMcuRowNum := 0;
      sent := [];
      new;
      CompFits(f, s[0]);
      StartIMcuRow();
    }

    method StartIMcuRow()
      requires ScanOk(f, s) && iMcuRowNum <= TotalIMcuRows(f)
      modifies `mcuCtr, `mcuVertOffset, `mcuRowsPerIMcuRow
      ensures mcuCtr == 0 && mcuVertOffset == 0
      ensures iMcuRowNum < TotalIMcuRows(f) ==> 0 < mcuRowsPerIMcuRow == McuRows(f, s, iMcuRowNum)
    {
      RestSmall(f.comps[s[0]].height, f.comps[s[0]].v);
      if |s| > 1 {
        mcuRowsPerIMcuRow := 1;
      } else if iMcuRowNum < TotalIMcuRows(f) - 1 {
        mcuRowsPerIMcuRow := f.comps[s[0]].v;
      } else {
        mcuRowsPerIMcuRow := LastRowHeight(f, s, 0);
      }
      mcuCtr := 0;
      mcuVertOffset := 0;
    }

    method MakeMcu(y: nat, col: nat) returns (mcu: seq<Block>)
      requires SpotOk(f, s, Spot(0, iMcuRowNum, y, col))
      requires Buffered(if mode == SaveAndPass then iMcuRowNum + 1 else iMcuRowNum)
      modifies dummyBuffer
      ensures mcu == Mcu(f, s, image, iMcuRowNum, y, col)
      ensures Buffered(if mode == SaveAndPass then iMcuRowNum + 1 else iMcuRowNum)
    {
      match mode
      case PassThru => mcu := DctMcu(f, s, image, iMcuRowNum, y, col);
      case Transcode => mcu := TransMcu(f, s, image, iMcuRowNum, y, col, dummyBuffer);
      case SaveAndPass => mcu := StoredMcu(f, s, image, iMcuRowNum, y, col, wholeImage, iMcuRowNum + 1);
      case CrankDest => mcu := StoredMcu(f, s, image, iMcuRowNum, y, col, wholeImage, TotalIMcuRows(f));
    }

    /** The MCUs of a row from column start on, until the entropy encoder suspends: it takes at
        most room of them. */
    method McuRow(y: nat, start: nat, room: nat) returns (col: nat)
      requires At(iMcuRowNum, y, start) && iMcuRowNum < TotalIMcuRows(f) && y < McuRows(f, s, iMcuRowNum)
      requires Buffered(if mode == SaveAndPass then iMcuRowNum + 1 else iMcuRowNum)
      modifies `sent, dummyBuffer
      ensures At(iMcuRowNum, y, col) && start <= col <= McusPerRow(f, s)
      ensures Buffered(if mode == SaveAndPass then iMcuRowNum + 1 else iMcuRowNum)
      ensures old(sent) <= sent && |sent| == |old(sent)| + col - start
      ensures col - start <= room && (col < McusPerRow(f, s) ==> col - start == room)
    {
      hide Buffered, McuRows, Mcu, ScanOk, ImageOk, TotalIMcuRows, McusPerRow;
      col := start;
      while col < McusPerRow(f, s) && col - start < room
        invariant At(iMcuRowNum, y, col) && start <= col <= McusPerRow(f, s) && col - start <= room
        invariant Buffered(if mode == SaveAndPass then iMcuRowNum + 1 else iMcuRowNum)
        invariant old(sent) <= sent && |sent| == |old(sent)| + col - start
      {
        var mcu := MakeMcu(y, col);
        sent := sent + [mcu];
        col := col + 1;
      }
    }

    lemma RowDone(y: nat)
      requires ScanOk(f, s) && iMcuRowNum < TotalIMcuRows(f) && y < McuRows(f, s, iMcuRowNum)
      requires At(iMcuRowNum, y, McusPerRow(f, s))
      ensures At(iMcuRowNum, y + 1, 0)
    {
    }

    lemma IMcuRowDone()
      requires ScanOk(f, s) && iMcuRowNum < TotalIMcuRows(f) && At(iMcuRowNum, McuRows(f, s, iMcuRowNum), 0)
      ensures At(iMcuRowNum + 1, 0, 0)
    {
    }

    /** One call, in which the entropy encoder takes at most room MCUs before it suspends. */
    method CompressData(room: nat) returns (done: bool)
      requires Valid() && iMcuRowNum < TotalIMcuRows(f)
      modifies this, wholeImage, dummyBuffer
      ensures Valid()
      ensures iMcuRowNum == old(iMcuRowNum) + (if done then 1 else 0)
      ensures old(sent) <= sent && |sent| - |old(sent)| <= room
      ensures !done ==> |sent| == |old(sent)| + room
    {
      hide Buffered, McusBefore, McuRows, Mcu, FrameOk, ImageOk, TotalIMcuRows, McusPerRow;
      assert ScanOk(f, s) by { BufferedFacts(); }
      Fill();
      var yoffset, taken := mcuVertOffset, 0;
      while yoffset < mcuRowsPerIMcuRow
        invariant iMcuRowNum == old(iMcuRowNum)
        invariant yoffset <= mcuRowsPerIMcuRow == McuRows(f, s, iMcuRowNum)
        invariant At(iMcuRowNum, yoffset, mcuCtr) && (yoffset == mcuRowsPerIMcuRow ==> mcuCtr == 0)
        invariant Buffered(if mode == SaveAndPass then iMcuRowNum + 1 else iMcuRowNum)
        invariant old(sent) <= sent && |sent| == |old(sent)| + taken && taken <= room
      {
        var col := McuRow(yoffset, mcuCtr, room - taken);
        taken := taken + (col - mcuCtr);
        if col < McusPerRow(f, s) {
          BufferedStill();
          mcuVertOffset := yoffset;
          mcuCtr := col;
          return false;
        }
        mcuCtr := 0;
        RowDone(yoffset);
        yoffset := yoffset + 1;
      }
      IMcuRowDone();
      BufferedNext();
      iMcuRowNum := iMcuRowNum + 1;
      StartIMcuRow();
      return true;
    }

    lemma BufferedFacts()
      requires Buffered(iMcuRowNum)
      ensures ScanOk(f, s)
    {
    }

    lemma BufferedNext()
      requires Buffered(if mode == SaveAndPass then iMcuRowNum + 1 else iMcuRowNum)
      ensures Buffered(iMcuRowNum + 1)
    {
    }

    /** The strip of an iMCU row that is not done yet is filled again. */
    lemma BufferedStill()
      requires Buffered(if mode == SaveAndPass then iMcuRowNum + 1 else iMcuRowNum)
      ensures Buffered(iMcuRowNum)
    {
      hide Room, Padded;
      if mode == SaveAndPass {
        forall c | 0 <= c < |f.comps|
          ensures Strips(f, image, wholeImage, c, iMcuRowNum)
        {
          Strip(iMcuRowNum, iMcuRowNum + 1, f.comps[c].v);
          assert Strips(f, image, wholeImage, c, iMcuRowNum + 1);
        }
      }
    }

    method Fill()
      requires Buffered(iMcuRowNum) && iMcuRowNum < TotalIMcuRows(f)
      modifies wholeImage
      ensures Buffered(if mode == SaveAndPass then iMcuRowNum + 1 else iMcuRowNum)
    {
      if mode == SaveAndPass { FillStrips(f, image, wholeImage, iMcuRowNum); }
    }
  }

  // ---- A whole pass ----

  lemma {:induction false} BeforeIsPrefix(f: Frame, s: ScanComps, image: seq<Plane>, r: nat, y: nat, col: nat)
    requires ScanOk(f, s) && ImageOk(f, image) && r <= TotalIMcuRows(f)
    requires if r < TotalIMcuRows(f) then y <= McuRows(f, s, r) && col <= McusPerRow(f, s) else y == col == 0
    requires r < TotalIMcuRows(f) && y == McuRows(f, s, r) ==> col == 0
    ensures McusBefore(f, s, image, r, y, col) <= AllMcus(f, s, image)
    decreases TotalIMcuRows(f) - r, if r < TotalIMcuRows(f) then McuRows(f, s, r) - y else 0, McusPerRow(f, s) - col
  {
    hide Mcu, McuRows, TotalIMcuRows, McusPerRow;
    if r < TotalIMcuRows(f) {
      if y == McuRows(f, s, r) {
        BeforeIsPrefix(f, s, image, r + 1, 0, 0);
      } else if col < McusPerRow(f, s) {
        BeforeIsPrefix(f, s, image, r, y, col + 1);
      } else {
        BeforeIsPrefix(f, s, image, r, y + 1, 0);
      }
    }
  }

  /** Calls that are sure to get the scan through: each can take an MCU, and there is one for each
      MCU and each iMCU row. */
  predicate Enough(f: Frame, s: ScanComps, image: seq<Plane>, rooms: seq<nat>)
    requires ScanOk(f, s) && ImageOk(f, image)
  {
    TotalIMcuRows(f) + |AllMcus(f, s, image)| <= |rooms| && forall i :: 0 <= i < |rooms| ==> 0 < rooms[i]
  }

  /** A pass in which the entropy encoder suspends as often as it likes.  In every mode it gets
      the same MCUs: all of the image, in order, none skipped and none repeated; and the pass
      comes to its end as long as every call makes some progress. */
  method RunPass(f: Frame, s: ScanComps, image: seq<Plane>, mode: Mode, wholeImage: seq<array2<Block>>, dummyBuffer: array<Block>,
      rooms: seq<nat>) returns (sent: seq<seq<Block>>, finished: bool)
    requires ScanOk(f, s) && ImageOk(f, image) && BlocksInMcu(f, s, |s|) <= C_MAX_BLOCKS_IN_MCU
    requires mode == Transcode ==> ZeroAc(dummyBuffer)
    requires mode == SaveAndPass ==> Arrays(f, wholeImage)
    requires mode == CrankDest ==> AllStored(f, image, wholeImage, TotalIMcuRows(f))
    modifies wholeImage, dummyBuffer
    ensures sent <= AllMcus(f, s, image)
    ensures finished ==> sent == AllMcus(f, s, image)
    ensures Enough(f, s, image, rooms) ==> finished
    ensures mode == SaveAndPass && finished ==> AllStored(f, image, wholeImage, TotalIMcuRows(f))
    ensures mode == CrankDest ==> AllStored(f, image, wholeImage, TotalIMcuRows(f))
  {
    hide McusBefore, Mcu, McuRows, TotalIMcuRows, McusPerRow, AllStored, Arrays, Room;
    var c := new Controller(f, s, image, mode, wholeImage, dummyBuffer);
    var i := 0;
    while i < |rooms| && c.iMcuRowNum < TotalIMcuRows(f)
      invariant c.Valid() && fresh(c) && c.f == f && c.s == s && c.image == image && c.mode == mode
      invariant c.wholeImage == wholeImage && c.dummyBuffer == dummyBuffer
      invariant Enough(f, s, image, rooms) ==> i <= c.iMcuRowNum + |c.sent|
    {
      var done := c.CompressData(rooms[i]);
      i := i + 1;
    }
    BeforeIsPrefix(f, s, image, c.iMcuRowNum, c.mcuVertOffset, c.mcuCtr);
    sent, finished := c.sent, c.iMcuRowNum == TotalIMcuRows(f);
  }
}
