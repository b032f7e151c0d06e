/** How a scan is cut into restart intervals. */
module RestartIntervals {
  import opened Radix

  /** The MCUs of a scan by restart intervals; 0 stands for no restarts. */
  function Intervals<T>(mcus: seq<T>, interval: nat): seq<seq<T>>
    decreases |mcus|
  {
    if interval == 0 || |mcus| <= interval then [mcus]
    else [mcus[..interval]] + Intervals(mcus[interval..], interval)
  }

  lemma {:induction false} JoinedIntervals<T>(mcus: seq<T>, interval: nat)
    ensures Flatten(Intervals(mcus, interval)) == mcus
    ensures forall k, x :: 0 <= k < |Intervals(mcus, interval)| && x in Intervals(mcus, interval)[k] ==> x in mcus
    decreases |mcus|
  {
    if interval == 0 || |mcus| <= interval {
      assert Flatten([mcus]) == mcus + Flatten([]);
    } else {
      var s := Intervals(mcus, interval);
      assert s[0] == mcus[..interval] && s[1..] == Intervals(mcus[interval..], interval);
      JoinedIntervals(mcus[interval..], interval);
      assert mcus[..interval] + mcus[interval..] == mcus;
    }
  }

  /** All intervals but the last have the given number of MCUs, and the last one has what is left. */
  lemma {:induction false} IntervalSizes<T>(mcus: seq<T>, interval: nat)
    ensures interval == 0 ==> Intervals(mcus, interval) == [mcus]
    ensures var s := Intervals(mcus, interval); interval > 0 ==>
      && (forall k :: 0 <= k < |s| - 1 ==> |s[k]| == interval)
      && |s[|s| - 1]| <= interval && (mcus != [] ==> s[|s| - 1] != [])
    decreases |mcus|
  {
    if interval != 0 && |mcus| > interval {
      var s := Intervals(mcus, interval);
      assert s[0] == mcus[..interval] && s[1..] == Intervals(mcus[interval..], interval);
      IntervalSizes(mcus[interval..], interval);
      forall k | 0 < k < |s| ensures s[k] == s[1..][k - 1] {}
    }
  }

  /** A restart is due in front of an MCU when restarts_to_go has come down to 0. */
  method CutIntervals<T>(mcus: seq<T>, restartInterval: nat) returns (segments: seq<seq<T>>)
    ensures segments == Intervals(mcus, restartInterval)
  {
    hide Intervals;
    var restartsToGo := restartInterval;
    var segment: seq<T> := [];
    ghost var all := Intervals(mcus, restartInterval);
    segments := [];
    assert segment + mcus[0..] == mcus && segments + all == all;
    for i := 0 to |mcus|
      invariant restartInterval > 0 ==> |segment| + restartsToGo == restartInterval
      invariant segments + Intervals(segment + mcus[i..], restartInterval) == all
    {
      if restartInterval > 0 {
        if restartsToGo == 0 {
          CutOne(segments, segment, mcus[i..], restartInterval);
          segments := segments + [segment];
          segment := [];
          restartsToGo := restartInterval;
        }
        restartsToGo := restartsToGo - 1;
      }
      TakeOne(segment, mcus, i);
      segment := segment + [mcus[i]];
    }
    LastOne(segment, mcus, restartInterval);
    segments := segments + [segment];
  }

  lemma CutOne<T>(front: seq<seq<T>>, segment: seq<T>, rest: seq<T>, interval: nat)
    requires 0 < interval == |segment| && rest != []
    ensures front + Intervals(segment + rest, interval) == (front + [segment]) + Intervals([] + rest, interval)
  {
    assert (segment + rest)[..interval] == segment && (segment + rest)[interval..] == [] + rest;
  }

  lemma TakeOne<T>(segment: seq<T>, mcus: seq<T>, i: nat)
    requires i < |mcus|
    ensures segment + mcus[i..] == (segment + [mcus[i]]) + mcus[i + 1..]
  {
  }

  lemma LastOne<T>(segment: seq<T>, mcus: seq<T>, interval: nat)
    requires interval == 0 || |segment| <= interval
    ensures Intervals(segment + mcus[|mcus|..], interval) == [segment]
  {
    assert segment + mcus[|mcus|..] == segment;
  }
}
