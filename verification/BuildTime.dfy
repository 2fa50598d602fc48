/**
  The weighted build time of report_build_time_ninja.py. The reference is the integral that the
  weighted duration stands for: a task's share of every stretch of time in which it runs is that
  stretch divided by the number of tasks then running.
 */
module BuildTime {
  import opened Sequences

  datatype Span = Span(start: real, end: real)

  /** The start or the stop of the task with the given index. */
  datatype Event = Event(time: real, stop: bool, task: nat)

  datatype Summary = Summary(length: real, weightedTotal: real)

  /** The program's IndexError and KeyError. */
  datatype SummaryError = NoEntries | StopWithoutStart

  predicate Runs(s: Span, t: real) {
    s.start <= t < s.end
  }

  predicate WellFormed(tasks: seq<Span>) {
    forall s | s in tasks :: s.start <= s.end
  }

  /** How many of the first n tasks run at time t. */
  function RunningAmong(tasks: seq<Span>, n: nat, t: real): nat
    requires n <= |tasks|
  {
    if n == 0 then 0 else RunningAmong(tasks, n - 1, t) + if Runs(tasks[n - 1], t) then 1 else 0
  }

  function Running(tasks: seq<Span>, t: real): nat {
    RunningAmong(tasks, |tasks|, t)
  }

  // ------------------------------------------------- integrals over a partition

  /** The points are in order and no task starts or ends strictly between two of them. */
  ghost predicate IsPartition(tasks: seq<Span>, points: seq<real>) {
    && (forall i, j | 0 <= i < j < |points| :: points[i] <= points[j])
    && (forall s | s in tasks :: s.start in points && s.end in points)
  }

  /** On each stretch of a partition the same tasks run throughout. */
  lemma {:induction false} StretchIsConstant(tasks: seq<Span>, points: seq<real>, k: nat, s: Span, t: real)
    requires IsPartition(tasks, points) && 0 < k < |points| && s in tasks
    requires points[k - 1] <= t < points[k]
    ensures Runs(s, t) <==> Runs(s, points[k - 1])
  {
    var i :| 0 <= i < |points| && points[i] == s.start;
    var j :| 0 <= j < |points| && points[j] == s.end;
    assert i < k ==> points[i] <= points[k - 1] || i == k - 1;
    assert j < k ==> points[j] <= points[k - 1] || j == k - 1;
  }

  function Gap(points: seq<real>, k: nat): real
    requires 0 < k < |points|
  {
    points[k] - points[k - 1]
  }

  /** What task i gets of the stretch that ends at point k. */
  function Share(tasks: seq<Span>, points: seq<real>, k: nat, i: nat): real
    requires 0 < k < |points| && i < |tasks|
  {
    if Runs(tasks[i], points[k - 1]) then
      RunningCounts(tasks, |tasks|, i, points[k - 1]);
      Gap(points, k) / Running(tasks, points[k - 1]) as real
    else 0.0
  }

  lemma {:induction false} RunningCounts(tasks: seq<Span>, n: nat, i: nat, t: real)
    requires i < n <= |tasks| && Runs(tasks[i], t)
    ensures RunningAmong(tasks, n, t) > 0
  {
    if i < n - 1 {
      RunningCounts(tasks, n - 1, i, t);
    }
  }

  lemma {:induction false} NoneRun(tasks: seq<Span>, n: nat, t: real)
    requires n <= |tasks| && RunningAmong(tasks, n, t) == 0
    ensures forall i | 0 <= i < n :: !Runs(tasks[i], t)
  {
    if n > 0 {
      NoneRun(tasks, n - 1, t);
    }
  }

  /** The weighted duration of task i over the first k points. */
  function Weighted(tasks: seq<Span>, points: seq<real>, k: nat, i: nat): real
    requires k <= |points| && i < |tasks|
  {
    if k <= 1 then 0.0 else Weighted(tasks, points, k - 1, i) + Share(tasks, points, k - 1, i)
  }

  /** The time over the first k points in which at least one task runs. */
  function Busy(tasks: seq<Span>, points: seq<real>, k: nat): real
    requires k <= |points|
  {
    if k <= 1 then 0.0
    else Busy(tasks, points, k - 1) + if Running(tasks, points[k - 2]) > 0 then Gap(points, k - 1) else 0.0
  }

  /** The time over the first k points in which task i runs. */
  function OwnTime(tasks: seq<Span>, points: seq<real>, k: nat, i: nat): real
    requires k <= |points| && i < |tasks|
  {
    if k <= 1 then 0.0
    else OwnTime(tasks, points, k - 1, i) + if Runs(tasks[i], points[k - 2]) then Gap(points, k - 1) else 0.0
  }

  function WeightedSum(tasks: seq<Span>, points: seq<real>, k: nat, n: nat): real
    requires k <= |points| && n <= |tasks|
  {
    if n == 0 then 0.0 else WeightedSum(tasks, points, k, n - 1) + Weighted(tasks, points, k, n - 1)
  }

  lemma {:induction false} NextMultiple(n: nat, x: real)
    ensures (n + 1) as real * x == n as real * x + x
  {
  }

  lemma {:induction false} ShareSum(tasks: seq<Span>, points: seq<real>, k: nat, n: nat, share: real)
    requires 0 < k < |points| && n <= |tasks|
    requires forall i | 0 <= i < |tasks| && Runs(tasks[i], points[k - 1]) :: Share(tasks, points, k, i) == share
    ensures WeightedSum(tasks, points, k + 1, n)
         == WeightedSum(tasks, points, k, n) + RunningAmong(tasks, n, points[k - 1]) as real * share
  {
    if n > 0 {
      ShareSum(tasks, points, k, n - 1, share);
      NextMultiple(RunningAmong(tasks, n - 1, points[k - 1]), share);
    }
  }

  lemma {:induction false} DivideBack(x: real, n: nat)
    requires n > 0
    ensures n as real * (x / n as real) == x
  {
  }

  lemma {:induction false} NothingToSum(tasks: seq<Span>, points: seq<real>, k: nat, n: nat)
    requires k <= 1 && k <= |points| && n <= |tasks|
    ensures WeightedSum(tasks, points, k, n) == 0.0
  {
    if n > 0 {
      NothingToSum(tasks, points, k, n - 1);
    }
  }

  /** Conservation: the weighted durations share out exactly the time in which something runs. */
  lemma {:induction false} WeightedTimeIsBusyTime(tasks: seq<Span>, points: seq<real>, k: nat)
    requires k <= |points|
    ensures WeightedSum(tasks, points, k, |tasks|) == Busy(tasks, points, k)
  {
    if k <= 1 {
      NothingToSum(tasks, points, k, |tasks|);
    } else {
      WeightedTimeIsBusyTime(tasks, points, k - 1);
      var running := Running(tasks, points[k - 2]);
      if running > 0 {
        var share := Gap(points, k - 1) / running as real;
        ShareSum(tasks, points, k - 1, |tasks|, share);
        DivideBack(Gap(points, k - 1), running);
      } else {
        NoneRun(tasks, |tasks|, points[k - 2]);
        ShareSum(tasks, points, k - 1, |tasks|, 0.0);
      }
    }
  }

  lemma {:induction false} BusyWithin(tasks: seq<Span>, points: seq<real>, k: nat)
    requires IsPartition(tasks, points) && 0 < k <= |points|
    ensures 0.0 <= Busy(tasks, points, k) <= points[k - 1] - points[0]
  {
    if k > 1 {
      BusyWithin(tasks, points, k - 1);
    }
  }

  function Clamp(s: Span, t: real): real {
    if t < s.start then s.start else if s.end < t then s.end else t
  }

  lemma {:induction false} OwnTimeIsClamped(tasks: seq<Span>, points: seq<real>, k: nat, i: nat)
    requires IsPartition(tasks, points) && WellFormed(tasks) && 0 < k <= |points| && i < |tasks|
    ensures OwnTime(tasks, points, k, i) == Clamp(tasks[i], points[k - 1]) - Clamp(tasks[i], points[0])
  {
    if k > 1 {
      OwnTimeIsClamped(tasks, points, k - 1, i);
      var s := tasks[i];
      assert s in tasks;
      var a :| 0 <= a < |points| && points[a] == s.start;
      var b :| 0 <= b < |points| && points[b] == s.end;
      assert a <= k - 2 ==> points[a] <= points[k - 2] || a == k - 2;
      assert a >= k - 1 ==> points[k - 1] <= points[a] || a == k - 1;
      assert b <= k - 2 ==> points[b] <= points[k - 2] || b == k - 2;
      assert b >= k - 1 ==> points[k - 1] <= points[b] || b == k - 1;
    }
  }

  /** Over a whole partition a task runs for its duration. */
  lemma {:induction false} OwnTimeIsDuration(tasks: seq<Span>, points: seq<real>, i: nat)
    requires IsPartition(tasks, points) && WellFormed(tasks) && i < |tasks|
    ensures OwnTime(tasks, points, |points|, i) == tasks[i].end - tasks[i].start
  {
    var s := tasks[i];
    assert s in tasks;
    OwnTimeIsClamped(tasks, points, |points|, i);
    assert points[0] <= s.start by {
      var a :| 0 <= a < |points| && points[a] == s.start;
    }
    assert s.end <= points[|points| - 1] by {
      var b :| 0 <= b < |points| && points[b] == s.end;
    }
  }

  lemma {:induction false} DivideDown(x: real, n: nat)
    requires 0.0 <= x && n > 0
    ensures 0.0 <= x / n as real <= x
  {
  }

  lemma {:induction false} WeightedWithinOwnTime(tasks: seq<Span>, points: seq<real>, k: nat, i: nat)
    requires IsPartition(tasks, points) && k <= |points| && i < |tasks|
    ensures 0.0 <= Weighted(tasks, points, k, i) <= OwnTime(tasks, points, k, i)
  {
    if k > 1 {
      WeightedWithinOwnTime(tasks, points, k - 1, i);
      if Runs(tasks[i], points[k - 2]) {
        RunningCounts(tasks, |tasks|, i, points[k - 2]);
        DivideDown(Gap(points, k - 1), Running(tasks, points[k - 2]));
      }
    }
  }

  // ------------------------------------------ the integral, whatever the partition

  function Area(height: real, from: real, to: real): real {
    height * (to - from)
  }

  lemma {:induction false} Split(height: real, a: real, b: real, c: real)
    ensures Area(height, a, b) + Area(height, b, c) == Area(height, a, c)
    ensures Area(height, a, a) == 0.0
  {
  }

  /** The integral of a function that is constant on the stretches between the first k points. */
  function Integral(f: real -> real, points: seq<real>, k: nat): real
    requires k <= |points|
  {
    if k <= 1 then 0.0 else Integral(f, points, k - 1) + Area(f(points[k - 2]), points[k - 2], points[k - 1])
  }

  /** The points are in order and the function does not change between two of them. */
  ghost predicate IsStep(f: real -> real, points: seq<real>) {
    && (forall i, j | 0 <= i < j < |points| :: points[i] <= points[j])
    && (forall k, t | 0 < k < |points| && points[k - 1] <= t < points[k] :: f(t) == f(points[k - 1]))
  }

  /** The function is zero outside the points. */
  ghost predicate VanishesOutside(f: real -> real, points: seq<real>)
    requires points != []
  {
    forall t | t < points[0] || points[|points| - 1] <= t :: f(t) == 0.0
  }

  /** There is nothing to integrate up to a time before which the function is zero. */
  lemma {:induction false} NothingBefore(f: real -> real, points: seq<real>, k: nat, x: real)
    requires IsStep(f, points) && 0 < k <= |points| && points[k - 1] <= x && forall t | t < x :: f(t) == 0.0
    ensures Integral(f, points, k) == 0.0 && Area(f(points[k - 1]), points[k - 1], x) == 0.0
  {
    if points[k - 1] == x {
      Split(f(x), x, x, x);
    }
    if k > 1 {
      assert points[k - 2] <= points[k - 1];
      NothingBefore(f, points, k - 1, x);
      if points[k - 2] == points[k - 1] {
        Split(f(points[k - 2]), points[k - 2], points[k - 2], points[k - 2]);
      }
    }
  }

  /** Up to point x of the second partition, which is in the last stretch of the first, both give the same. */
  lemma {:induction false} IntegralsAgreeUpTo(f: real -> real, ps: seq<real>, m: nat, qs: seq<real>, n: nat)
    requires IsStep(f, ps) && IsStep(f, qs)
    requires ps != [] && qs != [] && VanishesOutside(f, ps) && VanishesOutside(f, qs)
    requires 2 <= m <= |ps| && 1 <= n <= |qs|
    requires ps[m - 2] <= qs[n - 1] <= ps[m - 1]
    ensures Integral(f, ps, m - 1) + Area(f(ps[m - 2]), ps[m - 2], qs[n - 1]) == Integral(f, qs, n)
    decreases m + n
  {
    hide Area;
    var p, x := ps[m - 2], qs[n - 1];
    if n == 1 {
      NothingBefore(f, ps, m - 1, x);
    } else {
      var q := qs[n - 2];
      assert q <= x;
      if p <= q {
        IntegralsAgreeUpTo(f, ps, m, qs, n - 1);
        SameHeight(f, ps, m - 1, q, x);
        Split(f(p), p, q, x);
      } else {
        IntegralsAgreeUpTo(f, qs, n, ps, m - 1);
        SameHeight(f, qs, n - 1, p, x);
        Split(f(q), q, p, x);
      }
    }
  }

  /** Within one stretch every part has the height of the whole. */
  lemma {:induction false} SameHeight(f: real -> real, points: seq<real>, k: nat, a: real, b: real)
    requires IsStep(f, points) && 0 < k < |points| && points[k - 1] <= a <= b <= points[k]
    ensures Area(f(a), a, b) == Area(f(points[k - 1]), a, b)
  {
    if a < b {
      assert f(a) == f(points[k - 1]);
    }
  }

  /** A point after the last one changes nothing. */
  lemma {:induction false} OnePointMore(f: real -> real, points: seq<real>, x: real)
    requires IsStep(f, points) && points != [] && VanishesOutside(f, points) && points[|points| - 1] <= x
    ensures IsStep(f, points + [x]) && VanishesOutside(f, points + [x])
    ensures Integral(f, points + [x], |points| + 1) == Integral(f, points, |points|)
  {
    var more, n := points + [x], |points|;
    assert forall i | 0 <= i < n :: points[i] <= points[n - 1] || i == n - 1;
    IntegralOfPrefix(f, points, x, n);
    NoArea(points[n - 1], x);
  }

  lemma {:induction false} NoArea(from: real, to: real)
    ensures Area(0.0, from, to) == 0.0
  {
  }

  lemma {:induction false} IntegralOfPrefix(f: real -> real, points: seq<real>, x: real, k: nat)
    requires k <= |points|
    ensures Integral(f, points + [x], k) == Integral(f, points, k)
  {
    if k > 1 {
      IntegralOfPrefix(f, points, x, k - 1);
    }
  }

  /** Any two partitions give the same integral of a function that is zero outside both. */
  lemma {:induction false} IntegralsAgree(f: real -> real, ps: seq<real>, qs: seq<real>)
    requires IsStep(f, ps) && IsStep(f, qs) && ps != [] && qs != []
    requires VanishesOutside(f, ps) && VanishesOutside(f, qs)
    ensures Integral(f, ps, |ps|) == Integral(f, qs, |qs|)
  {
    hide Area, IsStep, VanishesOutside;
    var p, q := ps[|ps| - 1], qs[|qs| - 1];
    var x := if p < q then q else p;
    OnePointMore(f, ps, x);
    OnePointMore(f, qs, x);
    IntegralsAgreeUpTo(f, ps + [x], |ps| + 1, qs + [x], |qs| + 1);
    assert Integral(f, ps + [x], |ps| + 1) == Integral(f, ps + [x], |ps|) + Area(f(p), p, x);
  }

  /** What task i gets of an instant: its part of it while it runs, shared with the others that run. */
  function Rate(tasks: seq<Span>, i: nat): real -> real
    requires i < |tasks|
  {
    (t: real) => if Runs(tasks[i], t) && Running(tasks, t) > 0 then 1.0 / Running(tasks, t) as real else 0.0
  }

  /** One while something runs. */
  function Activity(tasks: seq<Span>): real -> real {
    (t: real) => if Running(tasks, t) > 0 then 1.0 else 0.0
  }

  lemma {:induction false} RunningIsConstant(tasks: seq<Span>, points: seq<real>, k: nat, t: real, n: nat)
    requires IsPartition(tasks, points) && 0 < k < |points| && n <= |tasks| && points[k - 1] <= t < points[k]
    ensures RunningAmong(tasks, n, t) == RunningAmong(tasks, n, points[k - 1])
  {
    if n > 0 {
      RunningIsConstant(tasks, points, k, t, n - 1);
      StretchIsConstant(tasks, points, k, tasks[n - 1], t);
    }
  }

  /** Nothing runs before the first point of a partition or from the last one on. */
  lemma {:induction false} NoneRunOutside(tasks: seq<Span>, points: seq<real>, t: real, n: nat)
    requires IsPartition(tasks, points) && points != [] && n <= |tasks|
    requires t < points[0] || points[|points| - 1] <= t
    ensures RunningAmong(tasks, n, t) == 0
  {
    if n > 0 {
      NoneRunOutside(tasks, points, t, n - 1);
      var s := tasks[n - 1];
      assert s in tasks;
      var i :| 0 <= i < |points| && points[i] == s.start;
      var j :| 0 <= j < |points| && points[j] == s.end;
      assert points[0] <= points[i] || i == 0;
      assert points[j] <= points[|points| - 1] || j == |points| - 1;
    }
  }

  lemma {:induction false} RatesVanishOutside(tasks: seq<Span>, points: seq<real>)
    requires IsPartition(tasks, points) && points != []
    ensures VanishesOutside(Activity(tasks), points)
    ensures forall i | 0 <= i < |tasks| :: VanishesOutside(Rate(tasks, i), points)
  {
    forall t | t < points[0] || points[|points| - 1] <= t
      ensures Running(tasks, t) == 0
    {
      NoneRunOutside(tasks, points, t, |tasks|);
    }
  }

  lemma {:induction false} RateIsStep(tasks: seq<Span>, points: seq<real>, i: nat)
    requires IsPartition(tasks, points) && i < |tasks|
    ensures IsStep(Rate(tasks, i), points)
  {
    var f := Rate(tasks, i);
    forall k, t | 0 < k < |points| && points[k - 1] <= t < points[k]
      ensures f(t) == f(points[k - 1])
    {
      RunningIsConstant(tasks, points, k, t, |tasks|);
      StretchIsConstant(tasks, points, k, tasks[i], t);
    }
  }

  lemma {:induction false} ActivityIsStep(tasks: seq<Span>, points: seq<real>)
    requires IsPartition(tasks, points)
    ensures IsStep(Activity(tasks), points)
  {
    var f := Activity(tasks);
    forall k, t | 0 < k < |points| && points[k - 1] <= t < points[k]
      ensures f(t) == f(points[k - 1])
    {
      RunningIsConstant(tasks, points, k, t, |tasks|);
    }
  }

  lemma {:induction false} Reciprocal(from: real, to: real, n: nat)
    requires n > 0
    ensures (to - from) / n as real == Area(1.0 / n as real, from, to)
  {
  }

  lemma {:induction false} WeightedIsIntegral(tasks: seq<Span>, points: seq<real>, k: nat, i: nat)
    requires k <= |points| && i < |tasks|
    ensures Weighted(tasks, points, k, i) == Integral(Rate(tasks, i), points, k)
  {
    if k > 1 {
      WeightedIsIntegral(tasks, points, k - 1, i);
      if Runs(tasks[i], points[k - 2]) {
        RunningCounts(tasks, |tasks|, i, points[k - 2]);
        Reciprocal(points[k - 2], points[k - 1], Running(tasks, points[k - 2]));
      }
    }
  }

  lemma {:induction false} BusyIsIntegral(tasks: seq<Span>, points: seq<real>, k: nat)
    requires k <= |points|
    ensures Busy(tasks, points, k) == Integral(Activity(tasks), points, k)
  {
    if k > 1 {
      BusyIsIntegral(tasks, points, k - 1);
    }
  }

  /** Weighted durations and busy time are the same over any two partitions: they belong to the tasks alone. */
  lemma {:induction false} PartitionDoesNotMatter(tasks: seq<Span>, ps: seq<real>, qs: seq<real>)
    requires IsPartition(tasks, ps) && IsPartition(tasks, qs) && ps != [] && qs != []
    ensures Busy(tasks, ps, |ps|) == Busy(tasks, qs, |qs|)
    ensures forall i | 0 <= i < |tasks| :: Weighted(tasks, ps, |ps|, i) == Weighted(tasks, qs, |qs|, i)
  {
    hide IsStep, IsPartition, Busy, Weighted, Integral, VanishesOutside;
    RatesVanishOutside(tasks, ps);
    RatesVanishOutside(tasks, qs);
    ActivityIsStep(tasks, ps);
    ActivityIsStep(tasks, qs);
    BusyIsIntegral(tasks, ps, |ps|);
    BusyIsIntegral(tasks, qs, |qs|);
    IntegralsAgree(Activity(tasks), ps, qs);
    forall i | 0 <= i < |tasks|
      ensures Weighted(tasks, ps, |ps|, i) == Weighted(tasks, qs, |qs|, i)
    {
      RateIsStep(tasks, ps, i);
      RateIsStep(tasks, qs, i);
      WeightedIsIntegral(tasks, ps, |ps|, i);
      WeightedIsIntegral(tasks, qs, |qs|, i);
      IntegralsAgree(Rate(tasks, i), ps, qs);
    }
  }

  // -------------------------------------------------------------- events

  /** By time, and a start before a stop at the same time; which task it is does not matter. */
  predicate EventLe(a: Event, b: Event) {
    a.time < b.time || (a.time == b.time && (a.stop ==> b.stop))
  }

  function StartOf(tasks: seq<Span>, i: nat): Event
    requires i < |tasks|
  {
    Event(tasks[i].start, false, i)
  }

  function StopOf(tasks: seq<Span>, i: nat): Event
    requires i < |tasks|
  {
    Event(tasks[i].end, true, i)
  }

  function EventsOf(tasks: seq<Span>, n: nat): seq<Event>
    requires n <= |tasks|
  {
    if n == 0 then [] else EventsOf(tasks, n - 1) + [StartOf(tasks, n - 1), StopOf(tasks, n - 1)]
  }

  function SortedEvents(tasks: seq<Span>): seq<Event> {
    Sort(EventLe, EventsOf(tasks, |tasks|))
  }

  function Times(events: seq<Event>): seq<real> {
    seq(|events|, i requires 0 <= i < |events| => events[i].time)
  }

  /** The times at which something starts or stops, in order. */
  function EventTimes(tasks: seq<Span>): seq<real> {
    Times(SortedEvents(tasks))
  }

  predicate IsEventOf(tasks: seq<Span>, n: nat, e: Event)
    requires n <= |tasks|
  {
    e.task < n && e == if e.stop then StopOf(tasks, e.task) else StartOf(tasks, e.task)
  }

  /** Every start and every stop once, in order. */
  ghost predicate IsSchedule(tasks: seq<Span>, events: seq<Event>) {
    && Sorted(EventLe, events)
    && (forall i, j | 0 <= i < j < |events| :: events[i] != events[j])
    && (forall e :: e in events <==> IsEventOf(tasks, |tasks|, e))
  }

  lemma {:induction false} NoEventsYet(tasks: seq<Span>, e: Event)
    ensures !IsEventOf(tasks, 0, e) && multiset(EventsOf(tasks, 0))[e] == 0
  {
  }

  lemma {:induction false} NextEvents(tasks: seq<Span>, n: nat, e: Event)
    requires 0 < n <= |tasks|
    ensures IsEventOf(tasks, n, e)
       <==> IsEventOf(tasks, n - 1, e) || e == StartOf(tasks, n - 1) || e == StopOf(tasks, n - 1)
    ensures e == StartOf(tasks, n - 1) || e == StopOf(tasks, n - 1) ==> !IsEventOf(tasks, n - 1, e)
    ensures StartOf(tasks, n - 1) != StopOf(tasks, n - 1)
    ensures EventsOf(tasks, n) == EventsOf(tasks, n - 1) + [StartOf(tasks, n - 1), StopOf(tasks, n - 1)]
  {
  }

  lemma {:induction false} EventsOnce(tasks: seq<Span>, n: nat, e: Event)
    requires n <= |tasks|
    ensures multiset(EventsOf(tasks, n))[e] == if IsEventOf(tasks, n, e) then 1 else 0
  {
    hide IsEventOf, StartOf, StopOf, EventsOf;
    if n == 0 {
      NoEventsYet(tasks, e);
    } else {
      EventsOnce(tasks, n - 1, e);
      NextEvents(tasks, n, e);
      CountTwo(EventsOf(tasks, n - 1), StartOf(tasks, n - 1), StopOf(tasks, n - 1), e, EventsOf(tasks, n));
    }
  }

  lemma {:induction false} CountTwo<T>(xs: seq<T>, x: T, y: T, e: T, zs: seq<T>)
    requires zs == xs + [x, y]
    ensures multiset(zs)[e] == multiset(xs)[e] + (if e == x then 1 else 0) + (if e == y then 1 else 0)
  {
    assert zs == xs + [x] + [y];
  }

  lemma {:induction false} OnceMeansDistinct<T>(xs: seq<T>, i: nat, j: nat)
    requires i < j < |xs| && multiset(xs)[xs[i]] <= 1
    ensures xs[i] != xs[j]
  {
    assert xs == xs[..j] + [xs[j]] + xs[j + 1..];
    assert multiset(xs) == multiset(xs[..j]) + multiset{xs[j]} + multiset(xs[j + 1..]);
    assert xs[..j][i] == xs[i];
    assert xs[i] in multiset(xs[..j]);
  }

  lemma {:induction false} SortedEventsAreSchedule(tasks: seq<Span>)
    ensures IsSchedule(tasks, SortedEvents(tasks))
  {
    hide IsEventOf, EventsOf;
    var unsorted, events := EventsOf(tasks, |tasks|), SortedEvents(tasks);
    assert TotalPreorder(EventLe);
    SortSorted(EventLe, unsorted);
    SortPermutes(EventLe, unsorted);
    forall e: Event
      ensures e in events <==> IsEventOf(tasks, |tasks|, e)
    {
      EventsOnce(tasks, |tasks|, e);
      assert e in events <==> e in multiset(unsorted);
    }
    forall i, j | 0 <= i < j < |events|
      ensures events[i] != events[j]
    {
      EventsOnce(tasks, |tasks|, events[i]);
      OnceMeansDistinct(events, i, j);
    }
  }

  lemma {:induction false} ScheduleIsPartition(tasks: seq<Span>, events: seq<Event>)
    requires IsSchedule(tasks, events)
    ensures IsPartition(tasks, Times(events))
  {
    forall i, j | 0 <= i < j < |events|
      ensures events[i].time <= events[j].time
    {
      assert EventLe(events[i], events[j]);
    }
    forall s | s in tasks
      ensures s.start in Times(events) && s.end in Times(events)
    {
      var i :| 0 <= i < |tasks| && tasks[i] == s;
      assert IsEventOf(tasks, |tasks|, StartOf(tasks, i)) && IsEventOf(tasks, |tasks|, StopOf(tasks, i));
      var a :| 0 <= a < |events| && events[a] == StartOf(tasks, i);
      var b :| 0 <= b < |events| && events[b] == StopOf(tasks, i);
      assert Times(events)[a] == s.start && Times(events)[b] == s.end;
    }
  }

  // --------------------------------------------------------------- sweep

  predicate Started(tasks: seq<Span>, seen: seq<Event>, i: nat)
    requires i < |tasks|
  {
    StartOf(tasks, i) in seen
  }

  predicate Stopped(tasks: seq<Span>, seen: seq<Event>, i: nat)
    requires i < |tasks|
  {
    StopOf(tasks, i) in seen
  }

  /** Once time moves on, what the sweep has started and not stopped is what runs. */
  lemma {:induction false} StatusIsRuns(tasks: seq<Span>, events: seq<Event>, k: nat, i: nat)
    requires IsSchedule(tasks, events) && 0 < k < |events| && i < |tasks|
    requires events[k - 1].time < events[k].time
    ensures Started(tasks, events[..k], i) <==> tasks[i].start <= events[k - 1].time
    ensures Stopped(tasks, events[..k], i) <==> tasks[i].end <= events[k - 1].time
  {
    assert IsEventOf(tasks, |tasks|, StartOf(tasks, i)) && IsEventOf(tasks, |tasks|, StopOf(tasks, i));
    SeenIsUpToNow(events, k, StartOf(tasks, i));
    SeenIsUpToNow(events, k, StopOf(tasks, i));
  }

  lemma {:induction false} SeenIsUpToNow(events: seq<Event>, k: nat, e: Event)
    requires Sorted(EventLe, events) && 0 < k < |events| && e in events
    requires events[k - 1].time < events[k].time
    ensures e in events[..k] <==> e.time <= events[k - 1].time
  {
    var a :| 0 <= a < |events| && events[a] == e;
    if a < k {
      assert events[..k][a] == e;
      assert a == k - 1 || EventLe(events[a], events[k - 1]);
    } else {
      assert a == k || EventLe(events[k], events[a]);
      assert forall b | 0 <= b < k :: b == k - 1 || EventLe(events[b], events[k - 1]);
    }
  }

  /** The tasks of a map from 0..n are counted by index. */
  lemma {:induction false} KeysCounted(tasks: seq<Span>, n: nat, keys: set<nat>, t: real)
    requires n <= |tasks|
    requires forall i :: i in keys <==> 0 <= i < n && Runs(tasks[i], t)
    ensures |keys| == RunningAmong(tasks, n, t)
  {
    if n == 0 {
      assert keys == {};
    } else {
      KeysCounted(tasks, n - 1, keys - {n - 1}, t);
      assert n - 1 in keys ==> keys == keys - {n - 1} + {n - 1};
    }
  }

  lemma {:induction false} WeightedSettled(tasks: seq<Span>, points: seq<real>, k: nat, m: nat, i: nat)
    requires IsPartition(tasks, points) && 0 < k <= m <= |points| && i < |tasks|
    requires tasks[i].end <= points[k - 1]
    ensures Weighted(tasks, points, m, i) == Weighted(tasks, points, k, i)
    decreases m
  {
    if k < m {
      WeightedSettled(tasks, points, k, m - 1, i);
      assert points[k - 1] <= points[m - 2] || k - 1 == m - 2;
    }
  }

  /**
    After the first `seen` events, and counting time up to point `upTo`: the running tasks are those
    started and not stopped, and each task has been given its weighted duration so far.
   */
  ghost predicate Balanced(
      tasks: seq<Span>, events: seq<Event>, seen: nat, upTo: nat,
      running: map<nat, real>, acc: real, weights: seq<real>)
    requires seen <= |events| && upTo <= |events| && |weights| == |tasks|
  {
    && (forall i: nat :: i in running <==>
          i < |tasks| && Started(tasks, events[..seen], i) && !Stopped(tasks, events[..seen], i))
    && (forall i | 0 <= i < |tasks| ::
          Weighted(tasks, Times(events), upTo, i)
            == if Stopped(tasks, events[..seen], i) then weights[i]
               else if i in running then acc - running[i] else 0.0)
  }

  /** What the sweep adds to its running total when time moves to event k. */
  function Increment(events: seq<Event>, k: nat, running: map<nat, real>, lastTime: real): real
    requires k < |events|
  {
    if |running| > 0 then (events[k].time - lastTime) / |running| as real else 0.0
  }

  lemma {:induction false} NoTimeNoShare(n: nat)
    requires n > 0
    ensures 0.0 / n as real == 0.0
  {
  }

  /** No share is given while no time passes. */
  lemma {:induction false} NoTimePasses(tasks: seq<Span>, points: seq<real>, k: nat, i: nat)
    requires 0 < k < |points| && i < |tasks| && points[k - 1] == points[k]
    ensures Share(tasks, points, k, i) == 0.0
  {
    if Runs(tasks[i], points[k - 1]) {
      RunningCounts(tasks, |tasks|, i, points[k - 1]);
      NoTimeNoShare(Running(tasks, points[k - 1]));
    }
  }

  /** While time passes, exactly the tasks in the map run. */
  lemma {:induction false} MapIsRunning(
      tasks: seq<Span>, events: seq<Event>, k: nat,
      running: map<nat, real>, acc: real, weights: seq<real>)
    requires IsSchedule(tasks, events) && 0 < k < |events| && |weights| == |tasks|
    requires Balanced(tasks, events, k, k, running, acc, weights)
    requires events[k - 1].time < events[k].time
    ensures forall i: nat :: i in running <==> i < |tasks| && Runs(tasks[i], events[k - 1].time)
    ensures |running| == Running(tasks, events[k - 1].time)
  {
    forall i: nat
      ensures i in running <==> i < |tasks| && Runs(tasks[i], events[k - 1].time)
    {
      if i < |tasks| {
        StatusIsRuns(tasks, events, k, i);
      }
    }
    KeysCounted(tasks, |tasks|, running.Keys, events[k - 1].time);
    assert |running| == |running.Keys|;
  }

  lemma {:induction false} TimeMoves(
      tasks: seq<Span>, events: seq<Event>, k: nat,
      running: map<nat, real>, acc: real, weights: seq<real>)
    requires IsSchedule(tasks, events) && 0 < k < |events| && |weights| == |tasks|
    requires Balanced(tasks, events, k, k, running, acc, weights)
    ensures Balanced(tasks, events, k, k + 1, running,
                     acc + Increment(events, k, running, events[k - 1].time), weights)
  {
    hide IsSchedule, Started, Stopped, Running;
    var points, more := Times(events), Increment(events, k, running, events[k - 1].time);
    if points[k - 1] == points[k] {
      if |running| > 0 {
        NoTimeNoShare(|running|);
      }
    } else {
      OrderedTimes(tasks, events, k);
      MapIsRunning(tasks, events, k, running, acc, weights);
    }
    forall i | 0 <= i < |tasks|
      ensures Share(tasks, points, k, i) == if i in running then more else 0.0
    {
      if points[k - 1] == points[k] {
        NoTimePasses(tasks, points, k, i);
      } else if i in running {
        assert |running.Keys| == |running|;
        RunningCounts(tasks, |tasks|, i, points[k - 1]);
      }
    }
  }

  lemma {:induction false} OrderedTimes(tasks: seq<Span>, events: seq<Event>, k: nat)
    requires IsSchedule(tasks, events) && 0 < k < |events|
    ensures events[k - 1].time <= events[k].time
  {
    assert EventLe(events[k - 1], events[k]);
  }

  /** A start comes before the stop of its task, and each of them comes once. */
  lemma {:induction false} StatusAtEvent(tasks: seq<Span>, events: seq<Event>, k: nat)
    requires IsSchedule(tasks, events) && WellFormed(tasks) && k < |events|
    ensures events[k].task < |tasks|
    ensures events[k] == if events[k].stop then StopOf(tasks, events[k].task) else StartOf(tasks, events[k].task)
    ensures !Stopped(tasks, events[..k], events[k].task)
    ensures Started(tasks, events[..k], events[k].task) <==> events[k].stop
  {
    assert events[k] in events;
    var j := events[k].task;
    assert tasks[j] in tasks && IsEventOf(tasks, |tasks|, StartOf(tasks, j));
    var a :| 0 <= a < |events| && events[a] == StartOf(tasks, j);
    assert a <= k;
    assert a < k ==> events[..k][a] == events[a];
    forall b | 0 <= b < k
      ensures events[b] != StopOf(tasks, j)
    {
      assert EventLe(events[b], events[k]);
    }
  }

  lemma {:induction false} StatusAfterEvent(tasks: seq<Span>, events: seq<Event>, k: nat, i: nat)
    requires k < |events| && i < |tasks|
    ensures Started(tasks, events[..k + 1], i) <==> Started(tasks, events[..k], i) || events[k] == StartOf(tasks, i)
    ensures Stopped(tasks, events[..k + 1], i) <==> Stopped(tasks, events[..k], i) || events[k] == StopOf(tasks, i)
  {
    assert events[..k + 1] == events[..k] + [events[k]];
  }

  lemma {:induction false} TaskStarts(
      tasks: seq<Span>, events: seq<Event>, k: nat,
      running: map<nat, real>, acc: real, weights: seq<real>)
    requires IsSchedule(tasks, events) && k < |events| && |weights| == |tasks|
    requires WellFormed(tasks)
    requires Balanced(tasks, events, k, k + 1, running, acc, weights) && !events[k].stop
    ensures Balanced(tasks, events, k + 1, k + 1, running[events[k].task := acc], acc, weights)
  {
    hide IsSchedule, Started, Stopped, Weighted;
    StatusAtEvent(tasks, events, k);
    forall i: nat | i < |tasks| {
      StatusAfterEvent(tasks, events, k, i);
    }
  }

  lemma {:induction false} TaskStops(
      tasks: seq<Span>, events: seq<Event>, k: nat,
      running: map<nat, real>, acc: real, weights: seq<real>)
    requires IsSchedule(tasks, events) && k < |events| && |weights| == |tasks| && WellFormed(tasks)
    requires Balanced(tasks, events, k, k + 1, running, acc, weights) && events[k].stop
    ensures events[k].task < |tasks| && events[k].task in running
    ensures Balanced(tasks, events, k + 1, k + 1, running - {events[k].task}, acc,
                     weights[events[k].task := acc - running[events[k].task]])
  {
    hide IsSchedule, Started, Stopped, Weighted;
    StatusAtEvent(tasks, events, k);
    forall i: nat | i < |tasks| {
      StatusAfterEvent(tasks, events, k, i);
    }
  }

  /** The weighted durations handed out so far. */
  function HandedOut(tasks: seq<Span>, seen: seq<Event>, weights: seq<real>, n: nat): real
    requires n <= |tasks| == |weights|
  {
    if n == 0 then 0.0
    else HandedOut(tasks, seen, weights, n - 1) + if Stopped(tasks, seen, n - 1) then weights[n - 1] else 0.0
  }

  lemma {:induction false} HandOut(tasks: seq<Span>, events: seq<Event>, k: nat, weights: seq<real>, w: real, n: nat)
    requires IsSchedule(tasks, events) && WellFormed(tasks) && k < |events| && n <= |tasks| == |weights|
    requires events[k].task < |tasks|
    ensures HandedOut(tasks, events[..k + 1], if events[k].stop then weights[events[k].task := w] else weights, n)
         == HandedOut(tasks, events[..k], weights, n) + if events[k].stop && events[k].task < n then w else 0.0
  {
    hide IsSchedule, Started, Stopped;
    if n > 0 {
      HandOut(tasks, events, k, weights, w, n - 1);
      StatusAtEvent(tasks, events, k);
      StatusAfterEvent(tasks, events, k, n - 1);
    }
  }

  lemma {:induction false} AllHandedOut(tasks: seq<Span>, events: seq<Event>, weights: seq<real>, n: nat)
    requires IsSchedule(tasks, events) && n <= |tasks| == |weights|
    requires forall i | 0 <= i < |tasks| :: weights[i] == Weighted(tasks, Times(events), |events|, i)
    ensures HandedOut(tasks, events, weights, n) == WeightedSum(tasks, Times(events), |events|, n)
  {
    if n > 0 {
      AllHandedOut(tasks, events, weights, n - 1);
      assert IsEventOf(tasks, |tasks|, StopOf(tasks, n - 1));
    }
  }

  /** When every event has been seen nothing runs, and every weight is final. */
  lemma {:induction false} AllStopped(
      tasks: seq<Span>, events: seq<Event>, running: map<nat, real>, acc: real, weights: seq<real>)
    requires IsSchedule(tasks, events) && |weights| == |tasks|
    requires Balanced(tasks, events, |events|, |events|, running, acc, weights)
    ensures running == map[]
    ensures forall i | 0 <= i < |tasks| :: weights[i] == Weighted(tasks, Times(events), |events|, i)
  {
    assert events[..|events|] == events;
    forall i | 0 <= i < |tasks|
      ensures Stopped(tasks, events, i)
    {
      assert IsEventOf(tasks, |tasks|, StopOf(tasks, i));
    }
  }

  class Target {
    const start: real
    const end: real
    var weightedDuration: real

    constructor (start: real, end: real)
      ensures this.start == start && this.end == end && weightedDuration == 0.0
    {
      this.start, this.end := start, end;
      weightedDuration := 0.0;
    }
  }

  function Spans(entries: seq<Target>): (tasks: seq<Span>)
    ensures |tasks| == |entries|
    ensures forall i | 0 <= i < |entries| :: tasks[i] == Span(entries[i].start, entries[i].end)
  {
    seq(|entries|, i requires 0 <= i < |entries| => Span(entries[i].start, entries[i].end))
  }

  /** The time in which at least one task runs. */
  function BusyTime(tasks: seq<Span>): real {
    Busy(tasks, EventTimes(tasks), |EventTimes(tasks)|)
  }

  /** The weighted duration of a task: its share of the time in which it runs. */
  function WeightedDuration(tasks: seq<Span>, i: nat): real
    requires i < |tasks|
  {
    Weighted(tasks, EventTimes(tasks), |EventTimes(tasks)|, i)
  }

  lemma {:induction false} NothingSeen(tasks: seq<Span>, events: seq<Event>, upTo: nat, acc: real, weights: seq<real>)
    requires |weights| == |tasks| && upTo <= 1 && upTo <= |events|
    ensures Balanced(tasks, events, 0, upTo, map[], acc, weights)
    ensures HandedOut(tasks, events[..0], weights, |tasks|) == 0.0
  {
    NothingHandedOut(tasks, weights, |tasks|);
    assert events[..0] == [];
  }

  lemma {:induction false} NothingHandedOut(tasks: seq<Span>, weights: seq<real>, n: nat)
    requires n <= |tasks| == |weights|
    ensures HandedOut(tasks, [], weights, n) == 0.0
  {
    if n > 0 {
      NothingHandedOut(tasks, weights, n - 1);
    }
  }

  /** Only tasks that have started run, and only those that end no earlier than they start have stopped. */
  ghost predicate StopsAfterStarts(tasks: seq<Span>, seen: seq<Event>, running: map<nat, real>) {
    && (forall i: nat | i in running :: i < |tasks| && Started(tasks, seen, i))
    && (forall i | 0 <= i < |tasks| && Stopped(tasks, seen, i) :: tasks[i].start <= tasks[i].end)
  }

  lemma {:induction false} NothingStopsFirst(tasks: seq<Span>, events: seq<Event>)
    ensures StopsAfterStarts(tasks, events[..0], map[])
  {
  }

  lemma {:induction false} StopsAfterStartsMore(
      tasks: seq<Span>, events: seq<Event>, k: nat, running: map<nat, real>, acc: real)
    requires IsSchedule(tasks, events) && k < |events| && StopsAfterStarts(tasks, events[..k], running)
    ensures events[k].task < |tasks|
    ensures !events[k].stop ==> StopsAfterStarts(tasks, events[..k + 1], running[events[k].task := acc])
    ensures events[k].stop && events[k].task in running ==>
      StopsAfterStarts(tasks, events[..k + 1], running - {events[k].task})
  {
    assert events[k] in events;
    var j := events[k].task;
    assert events[..k + 1] == events[..k] + [events[k]];
    if events[k].stop && j in running {
      var a :| 0 <= a < k && events[a] == StartOf(tasks, j);
      assert EventLe(events[a], events[k]);
    }
  }

  /** Once every stop is seen, every task ends no earlier than it starts. */
  lemma {:induction false} AllStopsSeen(tasks: seq<Span>, events: seq<Event>, running: map<nat, real>)
    requires IsSchedule(tasks, events) && StopsAfterStarts(tasks, events, running)
    ensures WellFormed(tasks)
  {
    forall i | 0 <= i < |tasks|
      ensures tasks[i].start <= tasks[i].end
    {
      assert IsEventOf(tasks, |tasks|, StopOf(tasks, i));
    }
  }

  /**
    One pass over the sorted starts and stops gives every target its weighted duration, unless one of them
    stops before it starts.
   */
  method WeighTargets(entries: seq<Target>, events: seq<Event>) returns (r: Result<real, SummaryError>)
    requires events != [] && IsSchedule(Spans(entries), events)
    requires forall i, j | 0 <= i < j < |entries| :: entries[i] != entries[j]
    modifies entries
    ensures r == Err(StopWithoutStart) <==> !WellFormed(Spans(entries))
    ensures r.Err? ==> r.error.StopWithoutStart?
    ensures r.Ok? ==> forall i | 0 <= i < |entries| ::
      entries[i].weightedDuration == Weighted(Spans(entries), Times(events), |events|, i)
    ensures r.Ok? ==> r.value == Busy(Spans(entries), Times(events), |events|)
  {
    hide Balanced, IsSchedule, HandedOut, Weighted, Sorted, WellFormed, StopsAfterStarts, Busy, Spans;
    ghost var tasks := Spans(entries);
    ghost var proper := WellFormed(tasks);
    var running: map<nat, real> := map[];
    var acc := 0.0;
    var weightedTotal := 0.0;
    var lastTime := events[0].time;
    ghost var weights := seq(|entries|, i requires 0 <= i < |entries| reads entries => entries[i].weightedDuration);
    NothingSeen(tasks, events, 0, 0.0, weights);
    NothingStopsFirst(tasks, events);
    for k := 0 to |events|
      invariant |weights| == |entries|
      invariant k > 0 ==> lastTime == events[k - 1].time
      invariant k == 0 ==> running == map[]
      invariant StopsAfterStarts(tasks, events[..k], running)
      invariant proper ==> Balanced(tasks, events, k, k, running, acc, weights)
      invariant proper ==> weightedTotal == HandedOut(tasks, events[..k], weights, |tasks|)
      invariant forall i | 0 <= i < |entries| :: entries[i].weightedDuration == weights[i]
    {
      if k == 0 {
        NothingSeen(tasks, events, 1, acc, weights);
      } else if proper {
        TimeMoves(tasks, events, k, running, acc, weights);
      }
      if |running| > 0 {
        acc := acc + (events[k].time - lastTime) / |running| as real;
      }
      var i := events[k].task;
      StopsAfterStartsMore(tasks, events, k, running, acc);
      if !events[k].stop {
        if proper {
          TaskStarts(tasks, events, k, running, acc, weights);
          HandOut(tasks, events, k, weights, 0.0, |tasks|);
        }
        running := running[i := acc];
      } else {
        if proper {
          TaskStops(tasks, events, k, running, acc, weights);
        }
        if i !in running {
          return Err(StopWithoutStart);
        }
        var weighted := acc - running[i];
        if proper {
          HandOut(tasks, events, k, weights, weighted, |tasks|);
        }
        entries[i].weightedDuration := weighted;
        weightedTotal := weightedTotal + weighted;
        running := running - {i};
        weights := weights[i := weighted];
      }
      lastTime := events[k].time;
    }
    assert events[..|events|] == events;
    AllStopsSeen(tasks, events, running);
    AllStopped(tasks, events, running, acc, weights);
    assert running == map[];
    AllHandedOut(tasks, events, weights, |tasks|);
    WeightedTimeIsBusyTime(tasks, Times(events), |events|);
    r := Ok(weightedTotal);
  }

  /** The earliest start and the latest end of the first n tasks. */
  ghost predicate SpansTo(tasks: seq<Span>, n: nat, earliest: real, latest: real)
    requires n <= |tasks|
  {
    && 0.0 <= earliest
    && (forall i | 0 <= i < n :: earliest <= tasks[i].start && tasks[i].end <= latest)
    && (exists i :: 0 <= i < n && tasks[i].start == earliest)
    && (latest == 0.0 || exists i :: 0 <= i < n && tasks[i].end == latest)
  }

  lemma {:induction false} SpansToNext(tasks: seq<Span>, n: nat, earliest: real, latest: real)
    requires n < |tasks| && 0.0 <= tasks[n].start
    requires if n == 0 then earliest == -1.0 && latest == 0.0 else SpansTo(tasks, n, earliest, latest)
    ensures SpansTo(tasks, n + 1,
                    if earliest < 0.0 || tasks[n].start < earliest then tasks[n].start else earliest,
                    if tasks[n].end > latest then tasks[n].end else latest)
  {
  }

  /** The first loop: the events in the order of the entries, and the extent of the build. */
  method CollectEvents(entries: seq<Target>) returns (unsorted: seq<Event>, earliest: real, latest: real)
    requires entries != []
    ensures unsorted == EventsOf(Spans(entries), |entries|)
    ensures (forall e | e in entries :: 0.0 <= e.start) ==> SpansTo(Spans(entries), |entries|, earliest, latest)
  {
    hide SpansTo;
    ghost var tasks := Spans(entries);
    ghost var forward := forall e | e in entries :: 0.0 <= e.start;
    earliest, latest, unsorted := -1.0, 0.0, [];
    for i := 0 to |entries|
      invariant unsorted == EventsOf(tasks, i)
      invariant forward && i > 0 ==> SpansTo(tasks, i, earliest, latest)
      invariant forward && i == 0 ==> earliest == -1.0 && latest == 0.0
    {
      var target := entries[i];
      assert target in entries && tasks[i] in tasks;
      if forward {
        SpansToNext(tasks, i, earliest, latest);
      }
      if earliest < 0.0 || target.start < earliest {
        earliest := target.start;
      }
      if target.end > latest {
        latest := target.end;
      }
      unsorted := unsorted + [Event(target.start, false, i), Event(target.end, true, i)];
    }
  }

  ghost predicate IsExtent(tasks: seq<Span>, length: real) {
    exists earliest, latest :: SpansTo(tasks, |tasks|, earliest, latest) && length == latest - earliest
  }

  method SummarizeEntries(entries: seq<Target>) returns (r: Result<Summary, SummaryError>)
    requires forall i, j | 0 <= i < j < |entries| :: entries[i] != entries[j]
    modifies entries
    ensures r == Err(NoEntries) <==> entries == []
    ensures r == Err(StopWithoutStart) <==> !WellFormed(Spans(entries))
    ensures r.Ok? ==>
      forall i | 0 <= i < |entries| :: entries[i].weightedDuration == WeightedDuration(Spans(entries), i)
    ensures r.Ok? ==> r.value.weightedTotal == BusyTime(Spans(entries))
    ensures r.Ok? && (forall e | e in entries :: 0.0 <= e.start) ==> IsExtent(Spans(entries), r.value.length)
  {
    if entries == [] {
      return Err(NoEntries);
    }
    hide IsSchedule, Sorted, Sort, Spans, WellFormed, SpansTo;
    ghost var tasks := Spans(entries);
    var unsorted, earliest, latest := CollectEvents(entries);
    var events := Sort(EventLe, unsorted);
    EventsRemain(unsorted);
    SortedEventsAreSchedule(tasks);
    var weightedTotal := WeighTargets(entries, events);
    if weightedTotal.Err? {
      return Err(weightedTotal.error);
    }
    r := Ok(Summary(latest - earliest, weightedTotal.value));
  }

  lemma {:induction false} EventsRemain(unsorted: seq<Event>)
    ensures |Sort(EventLe, unsorted)| == |unsorted|
  {
    SortPermutes(EventLe, unsorted);
  }

  /**
    What the program's warning and its assertion rely on: the weighted durations share out the busy
    time exactly, that time is within the extent of the build, and no task gets more than its duration.
   */
  lemma {:induction false} WeightedDurationsAreFair(tasks: seq<Span>, length: real, i: nat)
    requires tasks != [] && WellFormed(tasks) && IsExtent(tasks, length) && i < |tasks|
    ensures WeightedSum(tasks, EventTimes(tasks), |EventTimes(tasks)|, |tasks|) == BusyTime(tasks)
    ensures 0.0 <= BusyTime(tasks) <= length
    ensures 0.0 <= WeightedDuration(tasks, i) <= tasks[i].end - tasks[i].start
  {
    var events := SortedEvents(tasks);
    var points := Times(events);
    SortedEventsAreSchedule(tasks);
    ScheduleIsPartition(tasks, events);
    WeightedTimeIsBusyTime(tasks, points, |points|);
    WeightedWithinOwnTime(tasks, points, |points|, i);
    OwnTimeIsDuration(tasks, points, i);
    assert IsEventOf(tasks, |tasks|, StartOf(tasks, i));
    BusyWithin(tasks, points, |points|);
    assert events[0] in events && events[|events| - 1] in events;
    assert tasks[events[0].task] in tasks && tasks[events[|events| - 1].task] in tasks;
  }

  /** Over any partition of the tasks the durations and the busy time are those that the program computes. */
  lemma {:induction false} DurationsBelongToTheTasks(tasks: seq<Span>, points: seq<real>)
    requires tasks != [] && IsPartition(tasks, points)
    ensures BusyTime(tasks) == Busy(tasks, points, |points|)
    ensures forall i | 0 <= i < |tasks| :: WeightedDuration(tasks, i) == Weighted(tasks, points, |points|, i)
  {
    SortedEventsAreSchedule(tasks);
    ScheduleIsPartition(tasks, SortedEvents(tasks));
    assert tasks[0] in tasks;
    PartitionDoesNotMatter(tasks, EventTimes(tasks), points);
  }
}
