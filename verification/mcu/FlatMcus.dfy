/** The MCUs of a scan as one sequence of blocks, in the order in which they are coded. */
module FlatMcus {
  import opened Radix

  /** All MCUs have w blocks. */
  predicate Uniform<T>(mcus: seq<seq<T>>, w: nat) { forall i :: 0 <= i < |mcus| ==> |mcus[i]| == w }

  lemma {:induction false} FlatLength<T>(mcus: seq<seq<T>>, w: nat)
    requires Uniform(mcus, w)
    ensures |Flatten(mcus)| == |mcus| * w
  {
    if mcus != [] {
      FlatLength(mcus[1..], w);
      assert |mcus| * w == w + (|mcus| - 1) * w;
    }
  }

  lemma {:induction false} FlatAt<T>(mcus: seq<seq<T>>, w: nat, i: nat, j: nat)
    requires Uniform(mcus, w) && i < |mcus| && j < w
    ensures i * w + j < |Flatten(mcus)| && Flatten(mcus)[i * w + j] == mcus[i][j]
  {
    if i > 0 {
      FlatAt(mcus[1..], w, i - 1, j);
      assert i * w == w + (i - 1) * w;
    }
  }

  /** Where a block of the sequence comes from. */
  lemma {:induction false} Unflat(k: nat, n: nat, w: nat) returns (i: nat, j: nat)
    requires k < n * w
    ensures i < n && j < w && k == i * w + j
  {
    assert n > 0 && n * w == (n - 1) * w + w;
    if k < (n - 1) * w {
      i, j := Unflat(k, n - 1, w);
    } else {
      i, j := n - 1, k - (n - 1) * w;
    }
  }

  /** The blocks of the i'th MCU. */
  function Chunk<T>(blocks: seq<T>, i: nat, n: nat, w: nat): (mcu: seq<T>)
    requires |blocks| == n * w && i < n
    ensures |mcu| == w
  {
    RowWithin(i, n, w);
    blocks[i * w..i * w + w]
  }

  /** The blocks cut into MCUs again. */
  method Regroup<T>(blocks: seq<T>, n: nat, w: nat) returns (mcus: seq<seq<T>>)
    requires |blocks| == n * w
    ensures |mcus| == n && forall i :: 0 <= i < n ==> mcus[i] == Chunk(blocks, i, n, w)
  {
    hide Chunk;
    mcus := [];
    for i := 0 to n
      invariant |mcus| == i && forall k :: 0 <= k < i ==> mcus[k] == Chunk(blocks, k, n, w)
    {
      mcus := mcus + [Chunk(blocks, i, n, w)];
    }
  }

  lemma ChunkAt<T>(blocks: seq<T>, i: nat, j: nat, n: nat, w: nat)
    requires |blocks| == n * w && i < n && j < w
    ensures i * w + j < |blocks| && Chunk(blocks, i, n, w)[j] == blocks[i * w + j]
  {
    RowWithin(i, n, w);
  }

  lemma RowWithin(i: nat, n: nat, w: nat)
    requires i < n
    ensures i * w + w <= n * w
  {
    MulOrder(i + 1, n, w);
    assert (i + 1) * w == i * w + w;
  }
}
