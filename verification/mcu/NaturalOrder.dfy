/** From the zigzag order, in which the coders work, back to the order of the arrays. */
module NaturalOrder {
  import opened Blocks

  /** A block in zigzag order put back in natural order. */
  method InNatural(order: Order, z: seq<int>, ghost want: Block) returns (b: Block)
    requires |z| == 64 && forall k :: 0 <= k < 64 ==> z[k] == want[order[k]]
    ensures b == want
  {
    var a := new int[64](_ => 0);
    for k := 0 to 64
      invariant forall i :: 0 <= i < k ==> a[order[i]] == want[order[i]]
    {
      a[order[k]] := z[k];
    }
    forall p | 0 <= p < 64 ensures a[p] == want[p] { var k := OrderOnto(order, p); }
    assert a[..] == want;
    b := a[..];
  }

  /** The blocks of an MCU came back, in zigzag order. */
  predicate SameMcu(order: Order, got: seq<seq<int>>, mcu: seq<Block>) {
    |got| == |mcu| && forall b :: 0 <= b < |mcu| ==> |got[b]| == 64 && forall k :: 0 <= k < 64 ==> got[b][k] == mcu[b][order[k]]
  }

  method NaturalMcus(order: Order, got: seq<seq<seq<int>>>, ghost mcus: seq<seq<Block>>) returns (back: seq<seq<Block>>)
    requires |got| == |mcus| && forall i :: 0 <= i < |mcus| ==> SameMcu(order, got[i], mcus[i])
    ensures back == mcus
  {
    back := [];
    for i := 0 to |got|
      invariant back == mcus[..i]
    {
      var mcu: seq<Block> := [];
      for b := 0 to |got[i]|
        invariant mcu == mcus[i][..b]
      {
        var block := InNatural(order, got[i][b], mcus[i][b]);
        mcu := mcu + [block];
      }
      assert mcu == mcus[i][..|mcus[i]|] == mcus[i];
      back := back + [mcu];
    }
  }
}
