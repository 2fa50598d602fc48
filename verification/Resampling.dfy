/** One-second views of a sweep and of its arrivals, from analyze_qwen_bailian_workload.py. */
module Resampling {
  import opened Sequences
  import opened TraceRecords
  import opened Occupancy

  // -------------------------------------------------------------- step maxima

  function Scaled(t: real, start: real, timeScale: real): real {
    (t - start) * timeScale
  }

  /** The start is at zero, and any two times are as far apart as before, scaled. */
  lemma {:induction false} ScalingIsExact(a: real, b: real, start: real, timeScale: real)
    ensures Scaled(start, start, timeScale) == 0.0
    ensures Scaled(a, start, timeScale) - Scaled(b, start, timeScale) == (a - b) * timeScale
  {
  }

  lemma {:induction false} ScalingKeepsOrder(a: real, b: real, start: real, timeScale: real)
    requires timeScale > 0.0
    ensures a <= b ==> Scaled(a, start, timeScale) <= Scaled(b, start, timeScale)
    ensures start <= a ==> 0.0 <= Scaled(a, start, timeScale)
  {
  }

  /** Second b runs from just after b to b + 1; the first second includes its start. */
  predicate InBucket(t: real, b: nat) {
    (b == 0 || b as real < t) && t <= (b + 1) as real
  }

  /** The reading in force when second b begins: that of the last sample so far, or nothing. */
  ghost predicate CarriesIn(times: seq<real>, readings: seq<int>, b: nat, v: int)
    requires |times| == |readings|
  {
    || (v == 0 && (b == 0 || forall i | 0 <= i < |times| :: b as real < times[i]))
    || exists i :: 0 <= i < |times| && b > 0 && times[i] <= b as real && v == readings[i]
         && (i + 1 < |times| ==> b as real < times[i + 1])
  }

  /** The largest reading that falls in second b, or the one carried in when none does. */
  ghost predicate IsBucketValue(times: seq<real>, readings: seq<int>, b: nat, v: int)
    requires |times| == |readings|
  {
    if exists i :: 0 <= i < |times| && InBucket(times[i], b) then
      && (forall i | 0 <= i < |times| && InBucket(times[i], b) :: readings[i] <= v)
      && (exists i :: 0 <= i < |times| && InBucket(times[i], b) && readings[i] == v)
    else CarriesIn(times, readings, b, v)
  }

  ghost predicate IsLargestOf(xs: seq<int>, p: int) {
    (forall i | 0 <= i < |xs| :: xs[i] <= p) && (exists i :: 0 <= i < |xs| && xs[i] == p)
  }

  function Readings(g: Gauge, samples: seq<Sample>): (readings: seq<int>)
    ensures |readings| == |samples|
    ensures forall i | 0 <= i < |samples| :: readings[i] == Reading(g, samples[i].retained, samples[i].hotBlocks)
  {
    seq(|samples|, i requires 0 <= i < |samples| => Reading(g, samples[i].retained, samples[i].hotBlocks))
  }

  function ScaledTimes(samples: seq<Sample>, start: real, timeScale: real): (times: seq<real>)
    ensures |times| == |samples|
    ensures forall i | 0 <= i < |samples| :: times[i] == Scaled(samples[i].timestamp, start, timeScale)
  {
    seq(|samples|, i requires 0 <= i < |samples| => Scaled(samples[i].timestamp, start, timeScale))
  }

  /** Samples in order, within the span, that never count below zero. */
  ghost predicate ProperSamples(samples: seq<Sample>, start: real, end: real) {
    && (forall i, j | 0 <= i < j < |samples| :: samples[i].timestamp <= samples[j].timestamp)
    && forall i | 0 <= i < |samples| ::
         start <= samples[i].timestamp <= end && 0 <= samples[i].retained && 0 <= samples[i].hotBlocks
  }

  ghost predicate Increasing(times: seq<real>) {
    forall i, j | 0 <= i < j < |times| :: times[i] <= times[j]
  }

  /** When the one pass over the samples gets to each of them: never before it is past those in front of it. */
  function Reached(times: seq<real>): (reached: seq<real>)
    ensures |reached| == |times|
  {
    if times == [] then []
    else
      var n := |times| - 1;
      var reached := Reached(times[..n]);
      reached + [if n > 0 && times[n] < reached[n - 1] then reached[n - 1] else times[n]]
  }

  lemma {:induction false} ReachedAt(times: seq<real>, i: nat)
    requires i < |times|
    ensures Reached(times)[i] == if i > 0 && times[i] < Reached(times)[i - 1] then Reached(times)[i - 1] else times[i]
  {
    var n := |times| - 1;
    if i < n {
      ReachedAt(times[..n], i);
    }
  }

  lemma {:induction false} ReachedInOrder(times: seq<real>, i: nat, j: nat)
    requires i <= j < |times|
    ensures Reached(times)[i] <= Reached(times)[j]
    decreases j
  {
    if i < j {
      ReachedAt(times, j);
      ReachedInOrder(times, i, j - 1);
    }
  }

  lemma {:induction false} ReachedIncreases(times: seq<real>)
    ensures Increasing(Reached(times))
  {
    forall i, j | 0 <= i < j < |times| {
      ReachedInOrder(times, i, j);
    }
  }

  lemma {:induction false} OrderedAreReached(times: seq<real>)
    requires Increasing(times)
    ensures Reached(times) == times
  {
    if times != [] {
      OrderedAreReached(times[..|times| - 1]);
    }
  }

  /** No bucket goes below zero, so a negative reading counts as zero. */
  function Clipped(readings: seq<int>): (clipped: seq<int>)
    ensures |clipped| == |readings|
    ensures forall i | 0 <= i < |readings| :: clipped[i] == Max(0, readings[i])
  {
    seq(|readings|, i requires 0 <= i < |readings| => Max(0, readings[i]))
  }

  /** The readings that the buckets of a gauge are made of. */
  function Counts(g: Gauge, samples: seq<Sample>): (counts: seq<int>)
    ensures |counts| == |samples|
  {
    Clipped(Readings(g, samples))
  }

  /** v is the largest of readings first..next, or zero if there are none. */
  ghost predicate IsMaxOf(readings: seq<int>, first: nat, next: nat, v: int)
    requires first <= next <= |readings|
  {
    && (forall i | first <= i < next :: readings[i] <= v)
    && (if first == next then v == 0 else exists i :: first <= i < next && readings[i] == v)
  }

  /** Samples first..next are those of second b. */
  ghost predicate IsSpanOf(times: seq<real>, first: nat, next: nat, b: nat)
    requires first <= next <= |times|
  {
    && (forall i | 0 <= i < first :: b > 0 && times[i] <= b as real)
    && (forall i | first <= i < |times| :: b == 0 || b as real < times[i])
    && (forall i | 0 <= i < next :: times[i] <= (b + 1) as real)
    && (forall i | next <= i < |times| :: (b + 1) as real < times[i])
  }

  lemma {:induction false} BucketValueFound(times: seq<real>, readings: seq<int>, first: nat, next: nat, b: nat, v: int)
    requires |times| == |readings| && first <= next <= |times|
    requires IsSpanOf(times, first, next, b) && IsMaxOf(readings, first, next, v)
    requires forall i | 0 <= i < |readings| :: 0 <= readings[i]
    ensures IsBucketValue(times, readings, b, Max(v, Current(readings, next)))
  {
    forall i | 0 <= i < |times|
      ensures InBucket(times[i], b) <==> first <= i < next
    {
    }
    if first < next {
      var i :| first <= i < next && readings[i] == v;
      assert readings[next - 1] <= v && InBucket(times[i], b);
    } else {
      assert forall i | 0 <= i < |times| :: !InBucket(times[i], b);
      if next > 0 {
        assert times[next - 1] <= b as real && b > 0;
        assert Max(v, Current(readings, next)) == readings[next - 1];
        assert next < |times| ==> b as real < times[next];
        var i := next - 1;
        assert 0 <= i < |times| && times[i] <= b as real && (i + 1 < |times| ==> b as real < times[i + 1]);
      }
      assert CarriesIn(times, readings, b, Max(v, Current(readings, next)));
    }
  }

  /** The running maximum of one second takes in one more sample. */
  lemma {:induction false} MaxTakesIn(readings: seq<int>, first: nat, next: nat, v: int)
    requires first <= next < |readings| && IsMaxOf(readings, first, next, v) && 0 <= readings[next]
    ensures IsMaxOf(readings, first, next + 1, Max(v, readings[next]))
  {
    if readings[next] < v {
      var i :| first <= i < next && readings[i] == v;
      assert first <= i < next + 1 && readings[i] == Max(v, readings[next]);
    } else {
      assert first <= next < next + 1 && readings[next] == Max(v, readings[next]);
    }
  }

  /** The inner loop: the samples of second b, from the first not yet taken. */
  method FillSecond(
      samples: seq<Sample>, times: seq<real>, first: nat, b: nat, retained: array<int>, hotBlocks: array<int>)
    returns (next: nat)
    requires |times| == |samples| && first <= |samples|
    requires forall i | 0 <= i < first :: Reached(times)[i] <= (b + 1) as real
    requires b < retained.Length == hotBlocks.Length && retained != hotBlocks
    requires retained[b] == hotBlocks[b] == 0
    modifies retained, hotBlocks
    ensures first <= next <= |samples|
    ensures forall i | 0 <= i < next :: Reached(times)[i] <= (b + 1) as real
    ensures forall i | next <= i < |samples| :: (b + 1) as real < Reached(times)[i]
    ensures IsMaxOf(Counts(RetainedSessions, samples), first, next, retained[b])
    ensures IsMaxOf(Counts(HotBlocks, samples), first, next, hotBlocks[b])
    ensures forall c | 0 <= c < retained.Length && c != b ::
      retained[c] == old(retained[c]) && hotBlocks[c] == old(hotBlocks[c])
  {
    hide IsMaxOf;
    ghost var rs, hs := Counts(RetainedSessions, samples), Counts(HotBlocks, samples);
    EmptyMax(rs, first);
    EmptyMax(hs, first);
    ghost var reached := Reached(times);
    ReachedIncreases(times);
    hide Reached;
    next := first;
    while next < |samples| && times[next] <= (b + 1) as real
      invariant first <= next <= |samples|
      invariant forall i | 0 <= i < next :: reached[i] <= (b + 1) as real
      invariant IsMaxOf(rs, first, next, retained[b]) && IsMaxOf(hs, first, next, hotBlocks[b])
      invariant forall c | 0 <= c < retained.Length && c != b ::
        retained[c] == old(retained[c]) && hotBlocks[c] == old(hotBlocks[c])
    {
      MaxTakesIn(rs, first, next, retained[b]);
      MaxTakesIn(hs, first, next, hotBlocks[b]);
      NeverNegative(rs, first, next, retained[b]);
      NeverNegative(hs, first, next, hotBlocks[b]);
      retained[b] := Max(retained[b], samples[next].retained);
      hotBlocks[b] := Max(hotBlocks[b], samples[next].hotBlocks);
      ReachedAt(times, next);
      next := next + 1;
    }
    if next < |samples| {
      ReachedAt(times, next);
    }
  }

  lemma {:induction false} NeverNegative(readings: seq<int>, first: nat, next: nat, v: int)
    requires first <= next <= |readings| && IsMaxOf(readings, first, next, v)
    requires forall i | 0 <= i < |readings| :: 0 <= readings[i]
    ensures 0 <= v
  {
    if first < next {
      assert 0 <= readings[first] <= v;
    }
  }

  lemma {:induction false} EmptyMax(readings: seq<int>, first: nat)
    requires first <= |readings|
    ensures IsMaxOf(readings, first, first, 0)
  {
  }

  /** The reading in force after the first n samples. */
  function Current(readings: seq<int>, n: nat): int
    requires n <= |readings|
  {
    if n == 0 then 0 else readings[n - 1]
  }

  /** One bucket for each second of the duration, filled from the samples that the pass gets to in it. */
  ghost predicate Resamples(
      g: Gauge, samples: seq<Sample>, start: real, end: real, timeScale: real, buckets: seq<int>)
  {
    && |buckets| == Max(1, Ceil(Scaled(end, start, timeScale)))
    && forall b | 0 <= b < |buckets| ::
         IsBucketValue(Reached(ScaledTimes(samples, start, timeScale)), Counts(g, samples), b, buckets[b])
  }

  method ResampleStepMaxima(samples: seq<Sample>, start: real, end: real, timeScale: real)
    returns (retained: seq<int>, hotBlocks: seq<int>)
    ensures Scaled(end, start, timeScale) <= 0.0 || samples == [] ==> retained == [] && hotBlocks == []
    ensures Scaled(end, start, timeScale) > 0.0 && samples != [] ==>
      && Resamples(RetainedSessions, samples, start, end, timeScale, retained)
      && Resamples(HotBlocks, samples, start, end, timeScale, hotBlocks)
  {
    hide IsBucketValue, IsMaxOf, Scaled, Reached;
    var duration := Scaled(end, start, timeScale);
    if duration <= 0.0 || samples == [] {
      return [], [];
    }
    var times := ScaledTimes(samples, start, timeScale);
    ghost var reached, rs, hs := Reached(times), Counts(RetainedSessions, samples), Counts(HotBlocks, samples);
    var bucketCount := Max(1, Ceil(duration));
    var retainedBuckets := new int[bucketCount](_ => 0);
    var blockBuckets := new int[bucketCount](_ => 0);
    var sampleIndex := 0;
    for b := 0 to bucketCount
      invariant 0 <= sampleIndex <= |samples|
      invariant forall i | 0 <= i < sampleIndex :: b > 0 && reached[i] <= b as real
      invariant forall i | sampleIndex <= i < |samples| :: b == 0 || b as real < reached[i]
      invariant forall c | b <= c < bucketCount :: retainedBuckets[c] == 0 && blockBuckets[c] == 0
      invariant forall c | 0 <= c < b :: IsBucketValue(reached, rs, c, retainedBuckets[c])
      invariant forall c | 0 <= c < b :: IsBucketValue(reached, hs, c, blockBuckets[c])
    {
      var first := sampleIndex;
      sampleIndex := FillSecond(samples, times, first, b, retainedBuckets, blockBuckets);
      var currentRetained, currentBlocks := 0, 0;
      if sampleIndex > 0 {
        currentRetained, currentBlocks := samples[sampleIndex - 1].retained, samples[sampleIndex - 1].hotBlocks;
      }
      NeverNegative(rs, first, sampleIndex, retainedBuckets[b]);
      NeverNegative(hs, first, sampleIndex, blockBuckets[b]);
      BucketValueFound(reached, rs, first, sampleIndex, b, retainedBuckets[b]);
      BucketValueFound(reached, hs, first, sampleIndex, b, blockBuckets[b]);
      retainedBuckets[b] := Max(retainedBuckets[b], currentRetained);
      blockBuckets[b] := Max(blockBuckets[b], currentBlocks);
    }
    retained, hotBlocks := retainedBuckets[..], blockBuckets[..];
  }

  /** Of samples in order, within the span and never negative, nothing is moved, dropped or clipped. */
  lemma {:induction false} ProperSamplesAsTheyAre(
      samples: seq<Sample>, start: real, end: real, timeScale: real, g: Gauge)
    requires ProperSamples(samples, start, end) && timeScale > 0.0
    ensures var times := ScaledTimes(samples, start, timeScale);
      && Reached(times) == times && Counts(g, samples) == Readings(g, samples)
      && forall i | 0 <= i < |samples| :: 0.0 <= times[i] <= Scaled(end, start, timeScale)
  {
    hide Scaled, Reached, Clipped;
    var times := ScaledTimes(samples, start, timeScale);
    assert Increasing(times) by {
      forall i, j | 0 <= i < j < |samples|
        ensures times[i] <= times[j]
      {
        ScalingKeepsOrder(samples[i].timestamp, samples[j].timestamp, start, timeScale);
      }
    }
    forall i | 0 <= i < |samples|
      ensures 0.0 <= times[i] <= Scaled(end, start, timeScale)
    {
      ScalingKeepsOrder(samples[i].timestamp, end, start, timeScale);
    }
    OrderedAreReached(times);
  }

  // ------------------------------------------------------------ what survives

  function BucketOf(t: real): int {
    if t <= 1.0 then 0 else Ceil(t) - 1
  }

  /** The largest reading is the largest bucket: resampling keeps the peak, at every positive time scale. */
  lemma {:induction false} ResamplingKeepsPeak(
      times: seq<real>, readings: seq<int>, duration: real, buckets: seq<int>, p: int)
    requires |times| == |readings| && |buckets| == Max(1, Ceil(duration))
    requires forall i | 0 <= i < |times| :: 0.0 <= times[i] <= duration && 0 <= readings[i]
    requires forall b | 0 <= b < |buckets| :: IsBucketValue(times, readings, b, buckets[b])
    requires IsLargestOf(readings, p)
    ensures IsLargestOf(buckets, p)
  {
    forall b | 0 <= b < |buckets|
      ensures buckets[b] <= p
    {
      BucketBounded(times, readings, b, buckets[b], p);
    }
    var i :| 0 <= i < |readings| && readings[i] == p;
    var b := BucketOf(times[i]);
    assert InBucket(times[i], b);
    assert IsBucketValue(times, readings, b, buckets[b]);
    assert buckets[b] == p;
  }

  lemma {:induction false} BucketBounded(times: seq<real>, readings: seq<int>, b: nat, v: int, p: int)
    requires |times| == |readings| && IsBucketValue(times, readings, b, v)
    requires 0 <= p && forall i | 0 <= i < |readings| :: readings[i] <= p
    ensures v <= p
  {
  }

  lemma {:induction false} SampleTimesWithin(sessions: seq<Session>, samples: seq<Sample>, start: real, end: real)
    requires AllChronological(sessions) && IsSampling(samples, AllEvents(sessions))
    requires forall s, r | s in sessions && r in s :: start <= r.timestamp <= end
    ensures ProperSamples(samples, start, end)
  {
    SamplesArePointwise(sessions, samples);
    forall i | 0 <= i < |samples|
      ensures start <= samples[i].timestamp <= end
    {
      assert HasEvent(AllEvents(sessions), samples[i].timestamp);
      var e :| e in AllEvents(sessions) && e.time == samples[i].timestamp;
      EventsWithin(sessions, start, end, e);
    }
  }

  lemma {:induction false} EventsWithin(sessions: seq<Session>, start: real, end: real, e: Event)
    requires forall s, r | s in sessions && r in s :: start <= r.timestamp <= end
    requires e in AllEvents(sessions)
    ensures start <= e.time <= end
  {
    var rest, s := sessions[..|sessions| - 1], sessions[|sessions| - 1];
    if e in AllEvents(rest) {
      EventsWithin(rest, start, end, e);
    } else {
      assert s in sessions;
      TurnEventsWithin(s, |s| - 1, start, end, e);
    }
  }

  lemma {:induction false} TurnEventsWithin(s: Session, n: nat, start: real, end: real, e: Event)
    requires n < |s| && e in SessionEvents(s, n)
    requires forall r | r in s :: start <= r.timestamp <= end
    ensures start <= e.time <= end
  {
    if e in SessionEvents(s, n - 1) {
      TurnEventsWithin(s, n - 1, start, end, e);
    } else {
      assert e in TurnEvents(s, n - 1) && s[n - 1] in s && s[n] in s;
    }
  }

  /** The largest sample of a sweep is the peak it reports. */
  lemma {:induction false} SweepPeakIsLargestSample(g: Gauge, sessions: seq<Session>, samples: seq<Sample>)
    requires AllChronological(sessions) && IsSampling(samples, AllEvents(sessions)) && samples != []
    ensures IsLargestOf(Readings(g, samples), Peak(g, sessions))
  {
    var events, readings := AllEvents(sessions), Readings(g, samples);
    SamplesArePointwise(sessions, samples);
    PeakIsPeak(g, sessions);
    assert BoundsLevels(g, events, Peak(g, sessions));
    forall i | 0 <= i < |readings|
      ensures 0 <= readings[i] <= Peak(g, sessions)
    {
      assert SampleAgrees(samples[i], events);
      assert readings[i] == TotalDemand(g, sessions, samples[i].timestamp);
    }
    if Peak(g, sessions) == 0 {
      assert readings[0] == 0;
    } else {
      var e :| e in events && Level(g, events, e.time) == Peak(g, sessions);
      assert HasSample(samples, e.time);
      var j :| 0 <= j < |samples| && samples[j].timestamp == e.time;
      assert SampleAgrees(samples[j], events);
      assert readings[j] == Peak(g, sessions);
    }
  }

  /** Sweep and resampling together: at every positive scale and span the largest bucket is the sweep's peak. */
  lemma {:induction false} ResampledPeakIsSweepPeak(
      g: Gauge, sessions: seq<Session>, samples: seq<Sample>, start: real, end: real, timeScale: real,
      buckets: seq<int>)
    requires AllChronological(sessions) && IsSampling(samples, AllEvents(sessions)) && samples != []
    requires forall s, r | s in sessions && r in s :: start <= r.timestamp <= end
    requires timeScale > 0.0 && Resamples(g, samples, start, end, timeScale, buckets)
    ensures IsLargestOf(buckets, Peak(g, sessions))
  {
    hide IsBucketValue, IsLargestOf, Reached, Scaled, IsSampling;
    var times := ScaledTimes(samples, start, timeScale);
    SampleTimesWithin(sessions, samples, start, end);
    ProperSamplesAsTheyAre(samples, start, end, timeScale, g);
    SweepPeakIsLargestSample(g, sessions, samples);
    ResamplingKeepsPeak(times, Readings(g, samples), Scaled(end, start, timeScale), buckets, Peak(g, sessions));
  }

  /** The resampled part of arrival_and_retention, at one time scale. */
  method ResampledOccupancy(sessions: seq<Session>, start: real, end: real, timeScale: real)
    returns (sweep: Sweep, retained: seq<int>, hotBlocks: seq<int>)
    requires AllChronological(sessions)
    requires forall s, r | s in sessions && r in s :: start <= r.timestamp <= end
    ensures sweep.peakRetained == Peak(RetainedSessions, sessions) && sweep.peakHotBlocks == Peak(HotBlocks, sessions)
    ensures timeScale > 0.0 && start < end && sweep.samples != [] ==>
      IsLargestOf(retained, sweep.peakRetained) && IsLargestOf(hotBlocks, sweep.peakHotBlocks)
    ensures sweep.samples == [] ==>
      retained == [] && hotBlocks == [] && sweep.peakRetained == sweep.peakHotBlocks == 0
  {
    hide Resamples, IsSampling, IsLargestOf, Peak;
    sweep := SweepRetainedOccupancy(sessions);
    retained, hotBlocks := ResampleStepMaxima(sweep.samples, start, end, timeScale);
    if sweep.samples == [] {
      NoSamplesNoPeak(RetainedSessions, sessions, sweep.samples);
      NoSamplesNoPeak(HotBlocks, sessions, sweep.samples);
    } else if timeScale > 0.0 && start < end {
      PositiveSpan(start, end, timeScale);
      ResampledPeakIsSweepPeak(
        RetainedSessions, sessions, sweep.samples, start, end, timeScale, retained);
      ResampledPeakIsSweepPeak(HotBlocks, sessions, sweep.samples, start, end, timeScale, hotBlocks);
    }
  }

  lemma {:induction false} PositiveSpan(start: real, end: real, timeScale: real)
    requires start < end && timeScale > 0.0
    ensures Scaled(end, start, timeScale) > 0.0
  {
  }

  lemma {:induction false} NoSamplesNoPeak(g: Gauge, sessions: seq<Session>, samples: seq<Sample>)
    requires IsSampling(samples, AllEvents(sessions)) && samples == []
    ensures Peak(g, sessions) == 0
  {
    var events := AllEvents(sessions);
    assert events != [] ==> HasSample(samples, events[0].time);
  }

  // ------------------------------------------------------------------ arrivals

  function FallsIn(start: real, timeScale: real, b: int): Record -> int {
    (r: Record) => if Scaled(r.timestamp, start, timeScale).Floor == b then 1 else 0
  }

  function SumTo(xs: seq<int>): int {
    if xs == [] then 0 else SumTo(xs[..|xs| - 1]) + xs[|xs| - 1]
  }

  lemma {:induction false} OneMoreIn(xs: seq<int>, ys: seq<int>, b: nat)
    requires b < |xs| == |ys| && ys == xs[b := xs[b] + 1]
    ensures SumTo(ys) == SumTo(xs) + 1
  {
    var last := |xs| - 1;
    if b < last {
      OneMoreIn(xs[..last], ys[..last], b);
    } else {
      assert ys[..last] == xs[..last];
    }
  }

  lemma {:induction false} ZerosSum(xs: seq<int>)
    requires forall i | 0 <= i < |xs| :: xs[i] == 0
    ensures SumTo(xs) == 0
  {
    if xs != [] {
      ZerosSum(xs[..|xs| - 1]);
    }
  }

  /** The span of a nonempty list of records. */
  ghost predicate IsSpan(records: seq<Record>, start: real, end: real) {
    && (forall r | r in records :: start <= r.timestamp <= end)
    && (exists r :: r in records && r.timestamp == start)
    && (exists r :: r in records && r.timestamp == end)
  }

  lemma {:induction false} InSpan(records: seq<Record>, start: real, end: real)
    requires IsSpan(records, start, end)
    ensures start <= end && forall r | r in records :: start <= r.timestamp <= end
  {
  }

  method SpanOf(records: seq<Record>) returns (start: real, end: real)
    requires records != []
    ensures IsSpan(records, start, end)
  {
    start, end := records[0].timestamp, records[0].timestamp;
    ghost var s, e := 0, 0;
    for i := 1 to |records|
      invariant 0 <= s < i && records[s].timestamp == start
      invariant 0 <= e < i && records[e].timestamp == end
      invariant forall j | 0 <= j < i :: start <= records[j].timestamp <= end
    {
      if records[i].timestamp < start {
        start, s := records[i].timestamp, i;
      }
      if end < records[i].timestamp {
        end, e := records[i].timestamp, i;
      }
    }
    assert records[s] in records && records[e] in records;
  }

  /** One bucket for each second of the span, holding the number of records that arrive in it. */
  ghost predicate CountsArrivals(
      buckets: seq<int>, records: seq<Record>, start: real, end: real, timeScale: real)
  {
    && |buckets| == Max(Scaled(end, start, timeScale).Floor + 1, Ceil(Scaled(end, start, timeScale)))
    && forall b | 0 <= b < |buckets| :: buckets[b] == Sum(FallsIn(start, timeScale, b), records)
  }

  /** Every request falls in the second of its scaled arrival; the cap on the index never moves one. */
  method OneSecondBucketArrivals(records: seq<Record>, timeScale: real) returns (r: Result<seq<int>, string>)
    ensures r.Err? <==> timeScale <= 0.0
    ensures r.Ok? ==> SumTo(r.value) == |records|
    ensures r.Ok? && records == [] ==> r.value == []
    ensures r.Ok? && records != [] ==>
      exists start, end :: IsSpan(records, start, end) && CountsArrivals(r.value, records, start, end, timeScale)
  {
    hide IsSpan, SumTo;
    if timeScale <= 0.0 {
      return Err("time_scale must be positive");
    }
    if records == [] {
      ZerosSum([]);
      return Ok([]);
    }
    var start, end := SpanOf(records);
    InSpan(records, start, end);
    ScalingKeepsOrder(start, end, start, timeScale);
    ScalingKeepsOrder(end, end, start, timeScale);
    var duration := Scaled(end, start, timeScale);
    var bucketCount := Max(Max(1, duration.Floor + 1), if duration > 0.0 then Ceil(duration) else 1);
    var buckets := new int[bucketCount](_ => 0);
    ZerosSum(buckets[..]);
    for k := 0 to |records|
      invariant SumTo(buckets[..]) == k
      invariant forall b | 0 <= b < bucketCount :: buckets[b] == Sum(FallsIn(start, timeScale, b), records[..k])
    {
      assert records[k] in records;
      ScalingKeepsOrder(records[k].timestamp, end, start, timeScale);
      var scaled := Scaled(records[k].timestamp, start, timeScale);
      var index := Min(scaled.Floor, bucketCount - 1);
      if index < 0 {
        index := 0;
      }
      ghost var before := buckets[..];
      forall b | 0 <= b < bucketCount {
        SumSnoc(FallsIn(start, timeScale, b), records, k);
      }
      buckets[index] := buckets[index] + 1;
      OneMoreIn(before, buckets[..], index);
    }
    assert records[..|records|] == records;
    r := Ok(buckets[..]);
  }
}
