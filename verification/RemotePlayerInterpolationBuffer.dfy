// Positions of a remote player between samples (Client/Game/RemotePlayerInterpolationBuffer.cpp),
// over real coordinates and whole clock ticks.

module RemotePlayerInterpolationBuffer {
  import opened WorldCollision
  import opened Wrappers

  const MAX_SNAPSHOT_SAMPLE_COUNT := 32

  datatype SnapshotSample = SnapshotSample(position: Position, time: int)

  ghost predicate IsRising(samples: seq<SnapshotSample>) {
    forall i, j :: 0 <= i < j < |samples| ==> samples[i].time < samples[j].time
  }

  function Pushed(samples: seq<SnapshotSample>, position: Position, time: int): seq<SnapshotSample> {
    var sample := SnapshotSample(position, time);
    if samples != [] && time < samples[|samples| - 1].time then samples
    else if samples != [] && time == samples[|samples| - 1].time then samples[|samples| - 1 := sample]
    else
      var longer := samples + [sample];
      if |longer| > MAX_SNAPSHOT_SAMPLE_COUNT then longer[1..] else longer
  }

  function Pruned(samples: seq<SnapshotSample>, minimumTime: int): seq<SnapshotSample> {
    if |samples| >= 2 && samples[1].time <= minimumTime then Pruned(samples[1..], minimumTime) else samples
  }

  /** The first sample, from index `i` on, that is not before `time`. */
  function LowerBound(samples: seq<SnapshotSample>, time: int, i: nat): (k: nat)
    requires i <= |samples|
    ensures i <= k <= |samples| && (k < |samples| ==> samples[k].time >= time)
    ensures forall j :: i <= j < k ==> samples[j].time < time
    decreases |samples| - i
  {
    if i == |samples| || samples[i].time >= time then i else LowerBound(samples, time, i + 1)
  }

  function Times(a: real, b: real): real {
    a * b
  }

  function Lerp(a: real, b: real, alpha: real): real {
    a + Times(b - a, alpha)
  }

  function Between(previous: SnapshotSample, target: SnapshotSample, time: int): Position {
    var total := (target.time - previous.time) as real;
    if total <= 0.0 then target.position
    else
      var alpha := Clamp((time - previous.time) as real / total, 0.0, 1.0);
      Position(Lerp(previous.position.x, target.position.x, alpha), Lerp(previous.position.y, target.position.y, alpha))
  }

  function Interpolated(samples: seq<SnapshotSample>, time: int): Option<Position> {
    if samples == [] then None
    else if time <= samples[0].time then Some(samples[0].position)
    else if time >= samples[|samples| - 1].time then Some(samples[|samples| - 1].position)
    else
      var k := LowerBound(samples, time, 0);
      Some(Between(samples[k - 1], samples[k], time))
  }

  /** Pushing keeps samples in order and bounded. */
  lemma PushKeepsRising(samples: seq<SnapshotSample>, position: Position, time: int)
    requires IsRising(samples) && |samples| <= MAX_SNAPSHOT_SAMPLE_COUNT
    ensures IsRising(Pushed(samples, position, time)) && |Pushed(samples, position, time)| <= MAX_SNAPSHOT_SAMPLE_COUNT
  {
  }

  lemma LowerBoundIs(samples: seq<SnapshotSample>, time: int, i: nat, k: nat)
    requires IsRising(samples) && i <= k < |samples|
    requires samples[k].time >= time && (k > i ==> samples[k - 1].time < time)
    ensures LowerBound(samples, time, i) == k
  {
  }

  /** At a sample's own time the interpolation passes through the sample. */
  lemma InterpolationHitsSamples(samples: seq<SnapshotSample>, k: nat)
    requires IsRising(samples) && k < |samples|
    ensures Interpolated(samples, samples[k].time) == Some(samples[k].position)
  {
    if 0 < k < |samples| - 1 {
      LowerBoundIs(samples, samples[k].time, 0, k);
      BetweenEnds(samples[k - 1], samples[k]);
    }
  }

  lemma BetweenEnds(previous: SnapshotSample, target: SnapshotSample)
    requires previous.time < target.time
    ensures Between(previous, target, target.time) == target.position
  {
    var total := (target.time - previous.time) as real;
    assert total / total == 1.0;
  }

  /** Between two neighbouring samples the interpolated position lies between theirs, on each axis. */
  lemma InterpolationStaysBetween(samples: seq<SnapshotSample>, k: nat, time: int)
    requires IsRising(samples) && 0 < k < |samples| && samples[k - 1].time < time < samples[k].time
    ensures Interpolated(samples, time).Some?
    ensures var p, a, b := Interpolated(samples, time).value, samples[k - 1].position, samples[k].position;
            IsBetween(p.x, a.x, b.x) && IsBetween(p.y, a.y, b.y)
  {
    LowerBoundIs(samples, time, 0, k);
    assert samples[0].time <= samples[k - 1].time && samples[k].time <= samples[|samples| - 1].time;
    var total := (samples[k].time - samples[k - 1].time) as real;
    var alpha := Clamp((time - samples[k - 1].time) as real / total, 0.0, 1.0);
    LerpIsBetween(samples[k - 1].position.x, samples[k].position.x, alpha);
    LerpIsBetween(samples[k - 1].position.y, samples[k].position.y, alpha);
  }

  /** And it divides the way between them as the time divides the time between them. */
  lemma InterpolationIsLinear(samples: seq<SnapshotSample>, k: nat, time: int)
    requires IsRising(samples) && 0 < k < |samples| && samples[k - 1].time < time < samples[k].time
    ensures Interpolated(samples, time).Some?
    ensures var p, a, b := Interpolated(samples, time).value, samples[k - 1].position, samples[k].position;
            var elapsed, total := (time - samples[k - 1].time) as real, (samples[k].time - samples[k - 1].time) as real;
            (p.x - a.x) * total == (b.x - a.x) * elapsed && (p.y - a.y) * total == (b.y - a.y) * elapsed
  {
    LowerBoundIs(samples, time, 0, k);
    assert samples[0].time <= samples[k - 1].time && samples[k].time <= samples[|samples| - 1].time;
    var elapsed, total := (time - samples[k - 1].time) as real, (samples[k].time - samples[k - 1].time) as real;
    PartIsFraction(elapsed, total);
    PartOfWhole(samples[k].position.x - samples[k - 1].position.x, elapsed, total);
    PartOfWhole(samples[k].position.y - samples[k - 1].position.y, elapsed, total);
    hide Times;
  }

  lemma PartIsFraction(elapsed: real, total: real)
    requires 0.0 < elapsed < total
    ensures Clamp(elapsed / total, 0.0, 1.0) == elapsed / total
  {
  }

  lemma PartOfWhole(whole: real, elapsed: real, total: real)
    requires total > 0.0
    ensures Times(whole, elapsed / total) * total == whole * elapsed
  {
    var alpha := elapsed / total;
    assert alpha * total == elapsed;
    assert (whole * alpha) * total == whole * (alpha * total);
  }

  lemma LerpIsBetween(a: real, b: real, alpha: real)
    requires 0.0 <= alpha <= 1.0
    ensures IsBetween(Lerp(a, b, alpha), a, b)
  {
    hide Times;
    SignedPart(b - a, alpha);
  }

  lemma SignedPart(whole: real, alpha: real)
    requires 0.0 <= alpha <= 1.0
    ensures whole >= 0.0 ==> 0.0 <= Times(whole, alpha) <= whole
    ensures whole <= 0.0 ==> whole <= Times(whole, alpha) <= 0.0
  {
    hide Times;
    if whole >= 0.0 {
      PartOf(whole, alpha);
    } else {
      PartOf(-whole, alpha);
      NegatedProduct(whole, alpha);
    }
  }

  lemma PartOf(whole: real, alpha: real)
    requires whole >= 0.0 && 0.0 <= alpha <= 1.0
    ensures 0.0 <= Times(whole, alpha) <= whole
  {
    hide Times;
    NonNegativeProduct(whole, alpha);
    NonNegativeProduct(whole, 1.0 - alpha);
    ComplementProduct(whole, alpha);
  }

  lemma NonNegativeProduct(a: real, b: real)
    requires a >= 0.0 && b >= 0.0
    ensures Times(a, b) >= 0.0
  {
  }

  lemma NegatedProduct(a: real, b: real)
    ensures Times(-a, b) == -Times(a, b)
  {
  }

  lemma ComplementProduct(a: real, b: real)
    ensures Times(a, 1.0 - b) == a - Times(a, b)
  {
  }

  /** A sample not older than the newest is shown from its time on; an older one is ignored. */
  lemma PushedIsShown(samples: seq<SnapshotSample>, position: Position, time: int, t: int)
    requires IsRising(samples) && |samples| <= MAX_SNAPSHOT_SAMPLE_COUNT
    ensures if samples != [] && time < samples[|samples| - 1].time then Pushed(samples, position, time) == samples
            else t >= time ==> Interpolated(Pushed(samples, position, time), t) == Some(position)
  {
    PushKeepsRising(samples, position, time);
  }

  /** A newer sample changes nothing before the newest one's time, except before the second one's if the oldest had to go. */
  lemma PushingChangesNothingEarlier(samples: seq<SnapshotSample>, position: Position, time: int, t: int)
    requires IsRising(samples) && samples != [] && |samples| <= MAX_SNAPSHOT_SAMPLE_COUNT
    requires samples[|samples| - 1].time < time && t <= samples[|samples| - 1].time
    requires |samples| == MAX_SNAPSHOT_SAMPLE_COUNT ==> samples[1].time <= t
    ensures Interpolated(Pushed(samples, position, time), t) == Interpolated(samples, t)
  {
    var longer := samples + [SnapshotSample(position, time)];
    AppendingChangesNothingEarlier(samples, SnapshotSample(position, time), t);
    if |samples| == MAX_SNAPSHOT_SAMPLE_COUNT {
      DroppingFirstChangesNothingLater(longer, t);
    }
  }

  lemma AppendingChangesNothingEarlier(samples: seq<SnapshotSample>, sample: SnapshotSample, t: int)
    requires IsRising(samples) && samples != [] && samples[|samples| - 1].time < sample.time && t <= samples[|samples| - 1].time
    ensures IsRising(samples + [sample]) && Interpolated(samples + [sample], t) == Interpolated(samples, t)
  {
    var longer, n := samples + [sample], |samples|;
    if samples[0].time < t {
      var k := LowerBound(samples, t, 0);
      assert forall i :: 0 <= i < n ==> longer[i] == samples[i];
      LowerBoundIs(longer, t, 0, k);
      if t == samples[n - 1].time {
        BetweenEnds(samples[n - 2], samples[n - 1]);
      }
    }
  }

  /** Pruning drops samples from the front only, and as many as it can: at most one sample is left at or before `m`. */
  lemma {:induction false} PruningDropsAllItCan(samples: seq<SnapshotSample>, m: int)
    ensures var left := Pruned(samples, m);
            && |left| <= |samples| && left == samples[|samples| - |left|..] && (samples != [] ==> left != [])
            && (|left| >= 2 ==> left[1].time > m)
  {
    if |samples| >= 2 && samples[1].time <= m {
      PruningDropsAllItCan(samples[1..], m);
    }
  }

  /** Dropping the oldest sample changes nothing from the second one's time on. */
  lemma DroppingFirstChangesNothingLater(samples: seq<SnapshotSample>, time: int)
    requires IsRising(samples) && |samples| >= 2 && samples[1].time <= time
    ensures Interpolated(samples[1..], time) == Interpolated(samples, time)
  {
    var rest, n := samples[1..], |samples|;
    if time < samples[n - 1].time {
      var k := LowerBound(samples, time, 0);
      if k == 1 {
        BetweenEnds(samples[0], samples[1]);
      } else {
        assert forall i :: 0 <= i < |rest| ==> rest[i] == samples[i + 1];
        LowerBoundIs(rest, time, 0, k - 1);
      }
    }
  }

  /** Pruning at `m` leaves every position at or after `m` unchanged. */
  lemma {:induction false} PruningChangesNothingLater(samples: seq<SnapshotSample>, m: int, time: int)
    requires IsRising(samples) && m <= time
    ensures IsRising(Pruned(samples, m)) && Interpolated(Pruned(samples, m), time) == Interpolated(samples, time)
  {
    if |samples| >= 2 && samples[1].time <= m {
      DroppingFirstChangesNothingLater(samples, time);
      PruningChangesNothingLater(samples[1..], m, time);
    }
  }

  /** The buffer over its list. */
  class RemotePlayerInterpolationBuffer {
    var snapshotSampleList: seq<SnapshotSample>

    ghost predicate Valid()
      reads this
    {
      IsRising(snapshotSampleList) && |snapshotSampleList| <= MAX_SNAPSHOT_SAMPLE_COUNT
    }

    constructor ()
      ensures Valid() && snapshotSampleList == []
    {
      snapshotSampleList := [];
    }

    method Clear()
      modifies this
      ensures Valid() && snapshotSampleList == []
    {
      snapshotSampleList := [];
    }

    method Reset(position: Position, sampleTime: int)
      modifies this
      ensures Valid() && snapshotSampleList == [SnapshotSample(position, sampleTime)]
    {
      snapshotSampleList := [SnapshotSample(position, sampleTime)];
    }

    method PushSample(position: Position, sampleTime: int)
      requires Valid()
      modifies this
      ensures Valid() && snapshotSampleList == Pushed(old(snapshotSampleList), position, sampleTime)
    {
      PushKeepsRising(snapshotSampleList, position, sampleTime);
      if snapshotSampleList != [] {
        var latestSample := snapshotSampleList[|snapshotSampleList| - 1];
        if sampleTime < latestSample.time {
          return;
        }
        if sampleTime == latestSample.time {
          snapshotSampleList := snapshotSampleList[|snapshotSampleList| - 1 := SnapshotSample(position, sampleTime)];
          return;
        }
      }
      snapshotSampleList := snapshotSampleList + [SnapshotSample(position, sampleTime)];
      if |snapshotSampleList| > MAX_SNAPSHOT_SAMPLE_COUNT {
        snapshotSampleList := snapshotSampleList[1..];
      }
    }

    method PruneBefore(minimumTime: int)
      requires Valid()
      modifies this
      ensures Valid() && snapshotSampleList == Pruned(old(snapshotSampleList), minimumTime)
      ensures forall t :: minimumTime <= t ==> Interpolated(snapshotSampleList, t) == Interpolated(old(snapshotSampleList), t)
    {
      while |snapshotSampleList| >= 2 && snapshotSampleList[1].time <= minimumTime
        invariant Valid() && Pruned(old(snapshotSampleList), minimumTime) == Pruned(snapshotSampleList, minimumTime)
        decreases |snapshotSampleList|
      {
        snapshotSampleList := snapshotSampleList[1..];
      }
      forall t | minimumTime <= t
        ensures Interpolated(snapshotSampleList, t) == Interpolated(old(snapshotSampleList), t)
      {
        PruningChangesNothingLater(old(snapshotSampleList), minimumTime, t);
      }
    }

    method Interpolate(time: int) returns (position: Option<Position>)
      requires Valid()
      ensures position == Interpolated(snapshotSampleList, time)
    {
      if snapshotSampleList == [] {
        return None;
      }
      if time <= snapshotSampleList[0].time {
        return Some(snapshotSampleList[0].position);
      }
      if time >= snapshotSampleList[|snapshotSampleList| - 1].time {
        return Some(snapshotSampleList[|snapshotSampleList| - 1].position);
      }
      var low, high := 0, |snapshotSampleList| - 1;
      while low < high
        invariant 0 <= low <= high < |snapshotSampleList|
        invariant low > 0 ==> snapshotSampleList[low - 1].time < time
        invariant snapshotSampleList[high].time >= time
      {
        var middle := (low + high) / 2;
        if snapshotSampleList[middle].time < time {
          low := middle + 1;
        } else {
          high := middle;
        }
      }
      LowerBoundIs(snapshotSampleList, time, 0, low);
      return Some(Between(snapshotSampleList[low - 1], snapshotSampleList[low], time));
    }

    method GetLatestPosition() returns (position: Option<Position>)
      ensures position == if snapshotSampleList == [] then None else Some(snapshotSampleList[|snapshotSampleList| - 1].position)
    {
      if snapshotSampleList == [] {
        return None;
      }
      return Some(snapshotSampleList[|snapshotSampleList| - 1].position);
    }
  }
}
