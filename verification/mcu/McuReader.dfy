/** How the decoder finds the blocks of an MCU again when a later scan adds to them: consume_data
    hands the entropy decoder the places of the blocks in the full-image arrays. */
module McuReader {
  import opened Blocks
  import opened McuGeometry
  import opened McuEncoder
  import opened McuController
  import opened McuDecoder

  /** The blocks in front of block x of row yindex of component ci have been read. */
  predicate ReadTo(f: Frame, s: ScanComps, image: seq<Plane>, t: Spot, mcu: seq<Block>, yindex: nat, x: nat)
    requires SpotOk(f, s, t) && ImageOk(f, image)
  {
    forall ci, y', x' :: (0 <= ci <= t.ci && 0 <= y' < McuHeight(f, s, ci) && 0 <= x' < McuWidth(f, s, ci)
      && (ci < t.ci || y' < yindex || (y' == yindex && x' < x))) ==> IsRead(f, s, image, Spot(ci, t.r, t.y, t.col), mcu, y', x')
  }

  predicate IsRead(f: Frame, s: ScanComps, image: seq<Plane>, t: Spot, mcu: seq<Block>, yindex: nat, x: nat)
    requires SpotOk(f, s, t) && ImageOk(f, image)
  {
    Index(f, s, t, yindex, x) < |mcu| && RealIs(f, s, image, t, yindex, x, mcu[Index(f, s, t, yindex, x)])
  }

  lemma ReadMore(f: Frame, s: ScanComps, image: seq<Plane>, t: Spot, mcu: seq<Block>, yindex: nat, x: nat, b: Block)
    requires SpotOk(f, s, t) && ImageOk(f, image) && ReadTo(f, s, image, t, mcu, yindex, x)
    requires |mcu| == Index(f, s, t, yindex, x) && RealIs(f, s, image, t, yindex, x, b)
    ensures ReadTo(f, s, image, t, mcu + [b], yindex, x + 1)
  {
    hide RealIs, Index, McuRows, TotalIMcuRows, FrameOk, ImageOk;
    var more := mcu + [b];
    forall ci, y', x' | 0 <= ci <= t.ci && 0 <= y' < McuHeight(f, s, ci) && 0 <= x' < McuWidth(f, s, ci)
      && (ci < t.ci || y' < yindex || (y' == yindex && x' < x + 1))
      ensures IsRead(f, s, image, Spot(ci, t.r, t.y, t.col), more, y', x')
    {
      if ci == t.ci && y' == yindex && x' == x {
        assert Spot(ci, t.r, t.y, t.col) == t;
      } else {
        assert IsRead(f, s, image, Spot(ci, t.r, t.y, t.col), mcu, y', x');
      }
    }
  }

  lemma RowRead(f: Frame, s: ScanComps, image: seq<Plane>, t: Spot, mcu: seq<Block>, yindex: nat)
    requires SpotOk(f, s, t) && ImageOk(f, image) && ReadTo(f, s, image, t, mcu, yindex, McuWidth(f, s, t.ci))
    ensures ReadTo(f, s, image, t, mcu, yindex + 1, 0)
  {
    hide IsRead, McuRows, TotalIMcuRows, FrameOk, ImageOk;
  }

  lemma CompRead(f: Frame, s: ScanComps, image: seq<Plane>, t: Spot, mcu: seq<Block>)
    requires SpotOk(f, s, t) && ImageOk(f, image) && ReadTo(f, s, image, t, mcu, McuHeight(f, s, t.ci), 0)
    ensures t.ci + 1 < |s| ==> ReadTo(f, s, image, t.(ci := t.ci + 1), mcu, 0, 0)
    ensures t.ci + 1 == |s| && |mcu| == BlocksInMcu(f, s, |s|) ==> ShowsMcu(f, s, image, t.r, t.y, t.col, mcu)
  {
    hide RealIs, Index, McuRows, TotalIMcuRows, FrameOk, ImageOk, BlocksInMcu;
    forall ci, y', x' | 0 <= ci <= t.ci && 0 <= y' < McuHeight(f, s, ci) && 0 <= x' < McuWidth(f, s, ci)
      ensures Index(f, s, Spot(ci, t.r, t.y, t.col), y', x') < |mcu|
      ensures RealIs(f, s, image, Spot(ci, t.r, t.y, t.col), y', x', mcu[Index(f, s, Spot(ci, t.r, t.y, t.col), y', x')])
    {
      assert IsRead(f, s, image, Spot(ci, t.r, t.y, t.col), mcu, y', x');
    }
  }

  /** The arrays hold the real blocks of the image. */
  ghost predicate Hold(f: Frame, s: ScanComps, image: seq<Plane>, planes: seq<array2<Block>>)
    requires ScanOk(f, s) && ImageOk(f, image) && |planes| == |f.comps|
    reads planes
  {
    forall ci :: 0 <= ci < |s| ==> Complete(f.comps[s[ci]], image[s[ci]], planes[s[ci]]) && Room(f, s[ci], planes[s[ci]])
  }

  method ReadComp(f: Frame, s: ScanComps, ghost image: seq<Plane>, t: Spot, a: array2<Block>, mcu0: seq<Block>) returns (mcu: seq<Block>)
    requires SpotOk(f, s, t) && ImageOk(f, image) && Room(f, s[t.ci], a)
    requires Complete(f.comps[s[t.ci]], image[s[t.ci]], a)
    requires |mcu0| == BlocksInMcu(f, s, t.ci) && ReadTo(f, s, image, t, mcu0, 0, 0)
    ensures |mcu| == BlocksInMcu(f, s, t.ci + 1) && ReadTo(f, s, image, t, mcu, McuHeight(f, s, t.ci), 0)
  {
    hide McuRows, TotalIMcuRows, Room, ReadTo, FrameOk, ImageOk;
    mcu := mcu0;
    for yindex := 0 to McuHeight(f, s, t.ci)
      invariant |mcu| == Index(f, s, t, yindex, 0) && ReadTo(f, s, image, t, mcu, yindex, 0)
    {
      for x := 0 to McuWidth(f, s, t.ci)
        invariant |mcu| == Index(f, s, t, yindex, x) && ReadTo(f, s, image, t, mcu, yindex, x)
      {
        InRoom(f, s, t, a, yindex, x);
        var b := a[BaseRow(f, s, t) + yindex, BaseCol(f, s, t) + x];
        ReadMore(f, s, image, t, mcu, yindex, x, b);
        mcu := mcu + [b];
      }
      RowRead(f, s, image, t, mcu, yindex);
      assert (yindex + 1) * McuWidth(f, s, t.ci) == yindex * McuWidth(f, s, t.ci) + McuWidth(f, s, t.ci);
    }
  }

  method ReadMcu(f: Frame, s: ScanComps, ghost image: seq<Plane>, r: nat, y: nat, col: nat, planes: seq<array2<Block>>) returns (mcu: seq<Block>)
    requires SpotOk(f, s, Spot(0, r, y, col)) && ImageOk(f, image) && |planes| == |f.comps| && Hold(f, s, image, planes)
    ensures ShowsMcu(f, s, image, r, y, col, mcu)
  {
    hide McuRows, TotalIMcuRows, ShowsMcu, Complete, Room, BlocksInMcu;
    mcu := [];
    NothingRead(f, s, image, Spot(0, r, y, col));
    for ci := 0 to |s|
      invariant |mcu| == BlocksInMcu(f, s, ci)
      invariant ci < |s| ==> ReadTo(f, s, image, Spot(ci, r, y, col), mcu, 0, 0)
      invariant ci == |s| ==> ShowsMcu(f, s, image, r, y, col, mcu)
    {
      mcu := ReadComp(f, s, image, Spot(ci, r, y, col), planes[s[ci]], mcu);
      CompRead(f, s, image, Spot(ci, r, y, col), mcu);
    }
  }

  lemma NothingRead(f: Frame, s: ScanComps, image: seq<Plane>, t: Spot)
    requires SpotOk(f, s, t) && ImageOk(f, image) && t.ci == 0
    ensures ReadTo(f, s, image, t, [], 0, 0) && BlocksInMcu(f, s, 0) == 0
  {
  }

  /** The MCUs up to a place show the image. */
  ghost predicate ShowsTo(f: Frame, s: ScanComps, image: seq<Plane>, r: nat, y: nat, col: nat, mcus: seq<seq<Block>>)
    requires ScanOk(f, s) && ImageOk(f, image) && r <= TotalIMcuRows(f)
    requires if r < TotalIMcuRows(f) then y <= McuRows(f, s, r) && col <= McusPerRow(f, s) else y == col == 0
  {
    var spots := SpotsBefore(f, s, r, y, col);
    |mcus| == |spots| && forall i :: 0 <= i < |mcus| ==> SpotOk(f, s, spots[i]) && ShowsMcu(f, s, image, spots[i].r, spots[i].y, spots[i].col, mcus[i])
  }

  /** All MCUs of a scan, as the arrays hold them. */
  method ReadMcus(f: Frame, s: ScanComps, ghost image: seq<Plane>, planes: seq<array2<Block>>) returns (mcus: seq<seq<Block>>)
    requires ScanOk(f, s) && ImageOk(f, image) && |planes| == |f.comps| && Hold(f, s, image, planes)
    ensures Shows(f, s, image, mcus)
  {
    hide McuRows, TotalIMcuRows, McusPerRow, ShowsMcu, Hold, ImageOk;
    mcus := [];
    CompFits(f, s[0]);
    for r := 0 to TotalIMcuRows(f)
      invariant ShowsTo(f, s, image, r, 0, 0, mcus)
    {
      for y := 0 to McuRows(f, s, r)
        invariant ShowsTo(f, s, image, r, y, 0, mcus)
      {
        for col := 0 to McusPerRow(f, s)
          invariant ShowsTo(f, s, image, r, y, col, mcus)
        {
          var mcu := ReadMcu(f, s, image, r, y, col, planes);
          mcus := mcus + [mcu];
        }
      }
    }
  }
}
