/**
 Partitioning the topological order into the segments the scheduler drives.
 */
module Segments {
  import opened Model
  import opened Clean

  function Flatten(segments: seq<seq<Step>>): seq<Step> {
    if segments == [] then [] else Flatten(segments[..|segments| - 1]) + segments[|segments| - 1]
  }

  predicate AllDeep(segment: seq<Step>) {
    forall i :: 0 <= i < |segment| ==> Deep(segment[i])
  }

  /** A non-empty run of deep-eligible steps, or a single barrier step. */
  predicate DeepSegment(segment: seq<Step>) {
    segment != [] && (AllDeep(segment) || |segment| == 1)
  }

  /** Two neighbouring segments that could have been one are one. */
  predicate Maximal(segments: seq<seq<Step>>) {
    forall i :: 0 <= i < |segments| - 1 ==> !(AllDeep(segments[i]) && AllDeep(segments[i + 1]))
  }

  predicate IsPartition(segments: seq<seq<Step>>, steps: seq<Step>, deep: bool) {
    && Flatten(segments) == steps
    && (!deep ==> forall i :: 0 <= i < |segments| ==> |segments[i]| == 1)
    && (deep ==> Maximal(segments) && forall i :: 0 <= i < |segments| ==> DeepSegment(segments[i]))
  }

  method Partition(steps: seq<Step>, deep: bool) returns (segments: seq<seq<Step>>)
    ensures IsPartition(segments, steps, deep)
  {
    if deep {
      segments := PartitionDeep(steps);
      return;
    }
    segments := [];
    for i := 0 to |steps|
      invariant Flatten(segments) == steps[..i]
      invariant forall n :: 0 <= n < |segments| ==> |segments[n]| == 1
    {
      FlattenAppend(segments, [steps[i]]);
      segments := segments + [[steps[i]]];
      assert steps[..i + 1] == steps[..i] + [steps[i]];
    }
    assert steps[..|steps|] == steps;
  }

  /** A partition so far: the last segment is not a run that could still grow. */
  predicate Closed(segments: seq<seq<Step>>) {
    && Maximal(segments)
    && (forall n :: 0 <= n < |segments| ==> DeepSegment(segments[n]))
    && (segments != [] ==> !AllDeep(segments[|segments| - 1]))
  }

  method PartitionDeep(steps: seq<Step>) returns (segments: seq<seq<Step>>)
    ensures IsPartition(segments, steps, true)
  {
    hide Closed, AllDeep, Flatten, Maximal, DeepSegment, Deep;
    segments := [];
    var current: seq<Step> := [];
    NothingPartitioned();
    for i := 0 to |steps|
      invariant Flatten(segments) + current == steps[..i]
      invariant AllDeep(current) && Closed(segments)
    {
      assert steps[..i + 1] == steps[..i] + [steps[i]];
      if Deep(steps[i]) {
        GrowRun(current, steps[i]);
        current := current + [steps[i]];
      } else {
        if current != [] {
          FlattenAppend(segments, current);
          AddBarrier(segments, current, steps[i]);
          segments, current := segments + [current], [];
          FlattenAppend(segments, [steps[i]]);
        } else {
          FlattenAppend(segments, [steps[i]]);
          AddBarrierOnly(segments, steps[i]);
        }
        segments := segments + [[steps[i]]];
      }
    }
    assert steps[..|steps|] == steps;
    FinishRun(segments, current);
    if current != [] {
      FlattenAppend(segments, current);
      segments := segments + [current];
    }
  }

  lemma NothingPartitioned()
    ensures Flatten([]) == [] && AllDeep([]) && Closed([])
  {
  }

  lemma GrowRun(current: seq<Step>, step: Step)
    requires AllDeep(current) && Deep(step)
    ensures AllDeep(current + [step])
  {
  }

  lemma AddBarrierOnly(segments: seq<seq<Step>>, step: Step)
    requires Closed(segments) && !Deep(step)
    ensures Closed(segments + [[step]])
  {
    assert !AllDeep([step]) by { assert !Deep([step][0]); }
  }

  lemma AddBarrier(segments: seq<seq<Step>>, current: seq<Step>, step: Step)
    requires Closed(segments) && current != [] && AllDeep(current) && !Deep(step)
    ensures Closed(segments + [current] + [[step]]) && AllDeep([])
  {
    assert !AllDeep([step]) by { assert !Deep([step][0]); }
  }

  lemma FinishRun(segments: seq<seq<Step>>, current: seq<Step>)
    requires Closed(segments) && AllDeep(current)
    ensures var all := if current == [] then segments else segments + [current];
            Maximal(all) && forall i :: 0 <= i < |all| ==> DeepSegment(all[i])
  {
  }

  lemma FlattenAppend(segments: seq<seq<Step>>, segment: seq<Step>)
    ensures Flatten(segments + [segment]) == Flatten(segments) + segment
  {
    assert (segments + [segment])[..|segments|] == segments;
  }

  /** The partition of an order is unique: the conditions above leave no choice. */
  lemma {:induction false} PartitionUnique(a: seq<seq<Step>>, b: seq<seq<Step>>, steps: seq<Step>, deep: bool)
    requires IsPartition(a, steps, deep) && IsPartition(b, steps, deep)
    ensures a == b
  {
    hide AllDeep, Maximal;
    EmptyPartition(a, steps, deep);
    EmptyPartition(b, steps, deep);
    if steps != [] {
      var m, n := |a| - 1, |b| - 1;
      LastLength(a, b, steps, deep);
      LastLength(b, a, steps, deep);
      assert a[m] == steps[|steps| - |a[m]|..] && b[n] == steps[|steps| - |b[n]|..];
      assert Flatten(a[..m]) == steps[..|steps| - |a[m]|] && Flatten(b[..n]) == steps[..|steps| - |b[n]|];
      PrefixPartition(a, steps, deep);
      PrefixPartition(b, steps, deep);
      PartitionUnique(a[..m], b[..n], Flatten(a[..m]), deep);
      assert a == a[..m] + [a[m]] && b == b[..n] + [b[n]];
    }
  }

  lemma EmptyPartition(a: seq<seq<Step>>, steps: seq<Step>, deep: bool)
    requires IsPartition(a, steps, deep)
    ensures a == [] <==> steps == []
  {
    if a != [] {
      assert |steps| == |Flatten(a[..|a| - 1])| + |a[|a| - 1]|;
    }
  }

  lemma PrefixPartition(a: seq<seq<Step>>, steps: seq<Step>, deep: bool)
    requires a != [] && IsPartition(a, steps, deep)
    ensures IsPartition(a[..|a| - 1], Flatten(a[..|a| - 1]), deep)
  {
    var m := |a| - 1;
    if deep {
      forall i | 0 <= i < m - 1 ensures !(AllDeep(a[..m][i]) && AllDeep(a[..m][i + 1])) {
        assert a[..m][i] == a[i] && a[..m][i + 1] == a[i + 1];
      }
    }
  }

  /** Neither last segment can be shorter than the other. */
  lemma LastLength(a: seq<seq<Step>>, b: seq<seq<Step>>, steps: seq<Step>, deep: bool)
    requires a != [] && b != [] && IsPartition(a, steps, deep) && IsPartition(b, steps, deep)
    ensures |a[|a| - 1]| <= |b[|b| - 1]|
  {
    hide AllDeep;
    if |b[|b| - 1]| < |a[|a| - 1]| {
      assert deep && DeepSegment(a[|a| - 1]);
      RunCutShort(a[|a| - 1], b, steps);
      assert false;
    }
  }

  /** If the steps end in a longer run than the last segment, the last two segments are runs. */
  lemma RunCutShort(run: seq<Step>, b: seq<seq<Step>>, steps: seq<Step>)
    requires b != [] && Flatten(b) == steps && forall i :: 0 <= i < |b| ==> DeepSegment(b[i])
    requires |b[|b| - 1]| < |run| <= |steps| && run == steps[|steps| - |run|..] && AllDeep(run)
    ensures |b| >= 2 && AllDeep(b[|b| - 2]) && AllDeep(b[|b| - 2 + 1])
  {
    var n := |b| - 1;
    var y, before := b[n], Flatten(b[..n]);
    assert y == steps[|before|..];
    forall i | 0 <= i < |y| ensures Deep(y[i]) {
      assert y[i] == run[|run| - |y| + i];
    }
    assert n >= 1;
    var z := b[n - 1];
    assert b[..n][n - 1] == z && before == Flatten(b[..n][..n - 1]) + z;
    assert DeepSegment(z);
    assert z[|z| - 1] == before[|before| - 1] == steps[|before| - 1] == run[|run| - |y| - 1];
  }

  /**
   Within a segment of several steps every step has at most one parent, and a parent inside the
   segment comes before it: the segment is a forest.
   */
  lemma DeepSegmentIsForest(segments: seq<seq<Step>>, steps: seq<Step>, n: nat, j: nat)
    requires Ordered(steps) && IsPartition(segments, steps, true) && n < |segments|
    requires |segments[n]| > 1 && j < |segments[n]|
    ensures |segments[n][j].deps| <= 1
    ensures forall i :: 0 <= i < |segments[n]| && segments[n][i].name in segments[n][j].deps ==> i < j
  {
    var segment := segments[n];
    var at := |Flatten(segments[..n])|;
    SegmentAt(segments, n);
    assert DeepSegment(segment) && Deep(segment[j]);
    forall i | 0 <= i < |segment| && segment[i].name in segment[j].deps ensures i < j {
      assert segment[i] == steps[at + i] && segment[j] == steps[at + j];
      var k :| 0 <= k < at + j && steps[k].name == segment[i].name;
      assert k == at + i;
    }
  }

  /** Where a segment sits among the steps. */
  lemma {:induction false} SegmentAt(segments: seq<seq<Step>>, n: nat)
    requires n < |segments|
    ensures var at := |Flatten(segments[..n])|;
            at + |segments[n]| <= |Flatten(segments)|
            && forall i :: 0 <= i < |segments[n]| ==> Flatten(segments)[at + i] == segments[n][i]
  {
    var m := |segments| - 1;
    if n < m {
      SegmentAt(segments[..m], n);
      assert segments[..m][..n] == segments[..n];
    }
  }
}
