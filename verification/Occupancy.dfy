/**
  The retained-occupancy sweep of analyze_qwen_bailian_workload.py: every turn interval of
  every session becomes a pair of +/- events, and one pass over the sorted events finds the
  peaks. The reference the sweep is proved against is pointwise: what each session holds at
  one instant.
 */
module Occupancy {
  import opened Sequences
  import opened TraceRecords

  datatype Event = Event(time: real, open: int, blocks: int)

  /** The two quantities the sweep counts. */
  datatype Gauge = RetainedSessions | HotBlocks

  datatype Sample = Sample(timestamp: real, retained: int, hotBlocks: int)

  datatype Sweep = Sweep(samples: seq<Sample>, peakRetained: int, peakHotBlocks: int)

  function Reading(g: Gauge, retained: int, hotBlocks: int): int {
    if g.RetainedSessions? then retained else hotBlocks
  }

  predicate EventLe(a: Event, b: Event) {
    a.time < b.time || (a.time == b.time
      && (a.open < b.open || (a.open == b.open && a.blocks <= b.blocks)))
  }

  // ------------------------------------------------- pointwise reference

  /** Turn i is the last one that has arrived at time t, and another is still to come. */
  predicate Holds(s: Session, i: int, t: real) {
    0 <= i < |s| - 1 && s[i].timestamp <= t < s[i + 1].timestamp
  }

  /** What one session holds at time t. */
  ghost function Demand(g: Gauge, s: Session, t: real): nat {
    match g
    case RetainedSessions =>
      if |s| > 0 && s[0].timestamp <= t < s[|s| - 1].timestamp then 1 else 0
    case HotBlocks =>
      if exists i :: Holds(s, i, t) then
        var i :| Holds(s, i, t);
        BlocksFor(s[i].inputLength)
      else 0
  }

  ghost function TotalDemand(g: Gauge, sessions: seq<Session>, t: real): nat {
    if sessions == [] then 0
    else TotalDemand(g, sessions[..|sessions| - 1], t) + Demand(g, sessions[|sessions| - 1], t)
  }

  /** p is the largest demand over all times, not only over the times of arrivals. */
  ghost predicate IsPeak(g: Gauge, sessions: seq<Session>, p: int) {
    && (forall t :: TotalDemand(g, sessions, t) <= p)
    && (exists t :: TotalDemand(g, sessions, t) == p)
  }

  ghost predicate AllChronological(sessions: seq<Session>) {
    forall s | s in sessions :: Chronological(s)
  }

  // -------------------------------------------------------------- events

  /** The pair of events of the interval from turn i to turn i + 1. */
  function TurnEvents(s: Session, i: nat): seq<Event>
    requires i < |s| - 1
  {
    var blocks: int := BlocksFor(s[i].inputLength);
    var opens := if i == 0 then 1 else 0;
    var closes := if i == |s| - 2 then 1 else 0;
    [Event(s[i].timestamp, opens, blocks), Event(s[i + 1].timestamp, -closes, -blocks)]
  }

  function SessionEvents(s: Session, n: nat): seq<Event>
    requires n == 0 || n < |s|
  {
    if n == 0 then [] else SessionEvents(s, n - 1) + TurnEvents(s, n - 1)
  }

  /** A session of one turn holds nothing while it waits, so it has no events. */
  function OwnEvents(s: Session): seq<Event> {
    if |s| < 2 then [] else SessionEvents(s, |s| - 1)
  }

  function AllEvents(sessions: seq<Session>): seq<Event> {
    if sessions == [] then []
    else AllEvents(sessions[..|sessions| - 1]) + OwnEvents(sessions[|sessions| - 1])
  }

  function Weight(g: Gauge): Event -> int {
    (e: Event) => Reading(g, e.open, e.blocks)
  }

  /** What an event adds to the count at time t. */
  function Contribution(g: Gauge, t: real): Event -> int {
    (e: Event) => if e.time <= t then Reading(g, e.open, e.blocks) else 0
  }

  /** The running count after every event up to time t. */
  function Level(g: Gauge, events: seq<Event>, t: real): int {
    Sum(Contribution(g, t), events)
  }

  lemma {:induction false} LevelOfTurn(g: Gauge, s: Session, i: nat, t: real)
    requires i < |s| - 1
    requires s[i].timestamp <= s[i + 1].timestamp
    ensures Level(HotBlocks, TurnEvents(s, i), t) == if Holds(s, i, t) then BlocksFor(s[i].inputLength) else 0
    ensures Level(RetainedSessions, TurnEvents(s, i), t)
         == (if i == 0 && s[0].timestamp <= t then 1 else 0)
          - (if i == |s| - 2 && s[|s| - 1].timestamp <= t then 1 else 0)
  {
    forall h: Gauge
      ensures Level(h, TurnEvents(s, i), t)
           == Contribution(h, t)(TurnEvents(s, i)[0]) + Contribution(h, t)(TurnEvents(s, i)[1])
    {
      var pair := TurnEvents(s, i);
      assert pair[1..] == [pair[1]];
      assert Sum(Contribution(h, t), pair[1..]) == Contribution(h, t)(pair[1]);
    }
  }

  lemma {:induction false} LevelOfNextTurn(g: Gauge, s: Session, n: nat, t: real)
    requires 0 < n < |s|
    ensures Level(g, SessionEvents(s, n), t)
         == Level(g, SessionEvents(s, n - 1), t) + Level(g, TurnEvents(s, n - 1), t)
  {
    SumConcat(Contribution(g, t), SessionEvents(s, n - 1), TurnEvents(s, n - 1));
  }

  /** Of the first n intervals of a chronological session, at most one is open at time t. */
  lemma {:induction false} BlocksOfSession(s: Session, n: nat, t: real)
    requires Chronological(s) && (n == 0 || n < |s|)
    ensures (forall i | i < n :: !Holds(s, i, t)) ==> Level(HotBlocks, SessionEvents(s, n), t) == 0
    ensures forall i | i < n && Holds(s, i, t) ::
              Level(HotBlocks, SessionEvents(s, n), t) == BlocksFor(s[i].inputLength)
  {
    if n > 0 {
      BlocksOfSession(s, n - 1, t);
      LevelOfTurn(HotBlocks, s, n - 1, t);
      LevelOfNextTurn(HotBlocks, s, n, t);
      forall i | i < n - 1 && Holds(s, i, t)
        ensures !Holds(s, n - 1, t)
      {
        ChronologicalOrders(s, i + 1, n - 1);
      }
    }
  }

  /** A session is open from its first turn, and closed by its last interval. */
  lemma {:induction false} OpeningsOfSession(s: Session, n: nat, t: real)
    requires Chronological(s) && (n == 0 || n < |s|)
    ensures Level(RetainedSessions, SessionEvents(s, n), t)
         == (if n > 0 && s[0].timestamp <= t then 1 else 0)
          - (if n > 0 && n == |s| - 1 && s[|s| - 1].timestamp <= t then 1 else 0)
  {
    if n > 0 {
      OpeningsOfSession(s, n - 1, t);
      LevelOfTurn(RetainedSessions, s, n - 1, t);
      LevelOfNextTurn(RetainedSessions, s, n, t);
    }
  }

  lemma {:induction false} LevelIsDemand(g: Gauge, s: Session, t: real)
    requires Chronological(s) && |s| >= 2
    ensures Level(g, SessionEvents(s, |s| - 1), t) == Demand(g, s, t)
  {
    BlocksOfSession(s, |s| - 1, t);
    OpeningsOfSession(s, |s| - 1, t);
    ChronologicalOrders(s, 0, |s| - 1);
    if exists i :: Holds(s, i, t) {
      var i :| Holds(s, i, t);
    }
  }

  /** The sweep's count at any time is the sum of what the sessions hold at that time. */
  lemma {:induction false} LevelIsTotalDemand(g: Gauge, sessions: seq<Session>, t: real)
    requires AllChronological(sessions)
    ensures Level(g, AllEvents(sessions), t) == TotalDemand(g, sessions, t)
  {
    if sessions != [] {
      var rest, s := sessions[..|sessions| - 1], sessions[|sessions| - 1];
      LevelIsTotalDemand(g, rest, t);
      if |s| >= 2 {
        assert s in sessions;
        LevelIsDemand(g, s, t);
      } else {
        assert forall i :: !Holds(s, i, t);
      }
      SumConcat(Contribution(g, t), AllEvents(rest), OwnEvents(s));
    }
  }

  // --------------------------------------------------------------- peaks

  /** p is the largest running count after an event, and at least zero. */
  ghost predicate BoundsLevels(g: Gauge, events: seq<Event>, p: int) {
    && 0 <= p
    && (forall e | e in events :: Level(g, events, e.time) <= p)
    && (p == 0 || exists e :: e in events && Level(g, events, e.time) == p)
  }

  function MaxLevel(g: Gauge, events: seq<Event>, among: seq<Event>): (p: int)
    ensures 0 <= p
    ensures forall e | e in among :: Level(g, events, e.time) <= p
    ensures p == 0 || exists e :: e in among && Level(g, events, e.time) == p
  {
    if among == [] then 0
    else
      assert among == [among[0]] + among[1..];
      Max(Level(g, events, among[0].time), MaxLevel(g, events, among[1..]))
  }

  /** The peak that the sweep over these sessions finds. */
  function Peak(g: Gauge, sessions: seq<Session>): nat {
    MaxLevel(g, AllEvents(sessions), AllEvents(sessions))
  }

  lemma {:induction false} LevelsBoundedOnce(g: Gauge, events: seq<Event>, p: int, q: int)
    requires BoundsLevels(g, events, p) && BoundsLevels(g, events, q)
    ensures p == q
  {
  }

  ghost predicate LatestUpTo(events: seq<Event>, e: Event, t: real) {
    e in events && e.time <= t && forall f | f in events && f.time <= t :: f.time <= e.time
  }

  /** Between events the count does not change. */
  lemma {:induction false} LastEventBefore(events: seq<Event>, t: real)
    ensures (forall e | e in events :: t < e.time) || exists e :: LatestUpTo(events, e, t)
  {
    if events != [] {
      var rest := events[1..];
      LastEventBefore(rest, t);
      assert events == [events[0]] + rest;
      if events[0].time <= t {
        if exists e :: LatestUpTo(rest, e, t) {
          var e :| LatestUpTo(rest, e, t);
          assert LatestUpTo(events, if e.time < events[0].time then events[0] else e, t);
        } else {
          assert LatestUpTo(events, events[0], t);
        }
      } else if exists e :: LatestUpTo(rest, e, t) {
        var e :| LatestUpTo(rest, e, t);
        assert LatestUpTo(events, e, t);
      }
    }
  }

  lemma {:induction false} LevelBelowPeak(g: Gauge, events: seq<Event>, p: int, t: real)
    requires BoundsLevels(g, events, p)
    ensures Level(g, events, t) <= p
  {
    LastEventBefore(events, t);
    if forall e | e in events :: t < e.time {
      SumVanishes(Contribution(g, t), events);
    } else {
      var e :| LatestUpTo(events, e, t);
      SumAgrees(Contribution(g, t), Contribution(g, e.time), events);
    }
  }

  lemma {:induction false} TimeBeforeAll(events: seq<Event>) returns (t: real)
    ensures forall e | e in events :: t < e.time
  {
    if events == [] {
      t := 0.0;
    } else {
      t := TimeBeforeAll(events[1..]);
      if events[0].time <= t {
        t := events[0].time - 1.0;
      }
      assert events == [events[0]] + events[1..];
    }
  }

  /** The sweep's peak is the largest demand over all times. */
  lemma {:induction false} PeakIsPeak(g: Gauge, sessions: seq<Session>)
    requires AllChronological(sessions)
    ensures IsPeak(g, sessions, Peak(g, sessions))
  {
    var events, p := AllEvents(sessions), Peak(g, sessions);
    assert BoundsLevels(g, events, p);
    forall t
      ensures TotalDemand(g, sessions, t) <= p
    {
      LevelIsTotalDemand(g, sessions, t);
      LevelBelowPeak(g, events, p, t);
    }
    var t := TimeBeforeAll(events);
    if p == 0 {
      LevelIsTotalDemand(g, sessions, t);
    } else {
      var e :| e in events && Level(g, events, e.time) == p;
      t := e.time;
      LevelIsTotalDemand(g, sessions, t);
    }
    assert TotalDemand(g, sessions, t) == p;
  }

  lemma {:induction false} PeakGrows(g: Gauge, sessions: seq<Session>, s: Session, p: int, q: int)
    requires IsPeak(g, sessions, p) && IsPeak(g, sessions + [s], q)
    ensures p <= q
  {
    var t :| TotalDemand(g, sessions, t) == p;
    assert (sessions + [s])[..|sessions|] == sessions;
    assert TotalDemand(g, sessions + [s], t) == p + Demand(g, s, t);
  }

  /** Adding sessions to a prefix never lowers its peak. */
  lemma {:induction false} PeakMonotone(g: Gauge, sessions: seq<Session>, m: nat, n: nat)
    requires AllChronological(sessions) && m <= n <= |sessions|
    ensures Peak(g, sessions[..m]) <= Peak(g, sessions[..n])
    decreases n
  {
    hide Peak, IsPeak;
    if m < n {
      PeakMonotone(g, sessions, m, n - 1);
      PeakIsPeak(g, sessions[..n - 1]);
      PeakIsPeak(g, sessions[..n]);
      assert sessions[..n] == sessions[..n - 1] + [sessions[n - 1]];
      PeakGrows(g, sessions[..n - 1], sessions[n - 1], Peak(g, sessions[..n - 1]), Peak(g, sessions[..n]));
    }
  }

  // --------------------------------------------------------------- sweep

  lemma {:induction false} PrefixIsLevel(g: Gauge, events: seq<Event>, k: nat, t: real)
    requires k <= |events|
    requires forall i | 0 <= i < k :: events[i].time <= t
    requires forall i | k <= i < |events| :: t < events[i].time
    ensures Sum(Weight(g), events[..k]) == Level(g, events, t)
  {
    assert events == events[..k] + events[k..];
    SumConcat(Contribution(g, t), events[..k], events[k..]);
    SumAgrees(Contribution(g, t), Weight(g), events[..k]);
    SumVanishes(Contribution(g, t), events[k..]);
  }

  lemma {:induction false} EventOrderIsTotal()
    ensures TotalPreorder(EventLe)
  {
  }

  ghost predicate SampleAgrees(s: Sample, events: seq<Event>) {
    && s.retained == Level(RetainedSessions, events, s.timestamp)
    && s.hotBlocks == Level(HotBlocks, events, s.timestamp)
  }

  ghost predicate HasSample(samples: seq<Sample>, t: real) {
    exists j :: 0 <= j < |samples| && samples[j].timestamp == t
  }

  ghost predicate HasEvent(events: seq<Event>, t: real) {
    exists e :: e in events && e.time == t
  }

  /** One sample for each distinct time among the first k events, in increasing order. */
  ghost predicate SamplesUpTo(samples: seq<Sample>, events: seq<Event>, k: nat)
    requires k <= |events|
  {
    && (forall i, j | 0 <= i < j < |samples| :: samples[i].timestamp < samples[j].timestamp)
    && (forall i | 0 <= i < |samples| :: SampleAgrees(samples[i], events) && HasEvent(events, samples[i].timestamp))
    && (forall i | 0 <= i < k :: HasSample(samples, events[i].time))
    && (if k == 0 then samples == [] else samples != [] && samples[|samples| - 1].timestamp == events[k - 1].time)
  }

  /** p is the largest running count after one of the first k events, and at least zero. */
  ghost predicate PeakSoFar(g: Gauge, events: seq<Event>, k: nat, p: int)
    requires k <= |events|
  {
    && 0 <= p
    && (forall i | 0 <= i < k :: Level(g, events, events[i].time) <= p)
    && (p == 0 || exists i :: 0 <= i < k && Level(g, events, events[i].time) == p)
  }

  /** Events first..index happen at one time, later than everything before and earlier than the rest. */
  ghost predicate IsBatch(events: seq<Event>, first: nat, index: nat, t: real)
    requires first < index <= |events|
  {
    && (forall i | first <= i < index :: events[i].time == t)
    && (forall i | 0 <= i < first :: events[i].time < t)
    && (forall i | index <= i < |events| :: t < events[i].time)
  }

  lemma {:induction false} PeakExtended(g: Gauge, events: seq<Event>, first: nat, index: nat, t: real, p: int)
    requires first < index <= |events| && IsBatch(events, first, index, t)
    requires PeakSoFar(g, events, first, p)
    ensures PeakSoFar(g, events, index, Max(p, Level(g, events, t)))
  {
    assert events[first].time == t;
  }

  lemma {:induction false} SamplesExtended(
      samples: seq<Sample>, events: seq<Event>, first: nat, index: nat, sample: Sample)
    requires first < index <= |events| && IsBatch(events, first, index, sample.timestamp)
    requires SamplesUpTo(samples, events, first) && SampleAgrees(sample, events)
    ensures SamplesUpTo(samples + [sample], events, index)
  {
    var longer := samples + [sample];
    assert longer[|samples|] == sample;
    assert events[first] in events;
    forall i | 0 <= i < index
      ensures HasSample(longer, events[i].time)
    {
      if i < first {
        assert HasSample(samples, events[i].time);
        var j :| 0 <= j < |samples| && samples[j].timestamp == events[i].time;
        assert longer[j] == samples[j];
      }
    }
    assert first > 0 ==> samples[|samples| - 1].timestamp < sample.timestamp;
  }

  method CollectEvents(sessions: seq<Session>) returns (events: seq<Event>)
    ensures events == AllEvents(sessions)
  {
    events := [];
    for k := 0 to |sessions|
      invariant events == AllEvents(sessions[..k])
    {
      var s := sessions[k];
      assert sessions[..k + 1][..k] == sessions[..k];
      if |s| >= 2 {
        var before := events;
        for i := 0 to |s| - 1
          invariant events == before + SessionEvents(s, i)
        {
          events := events + TurnEvents(s, i);
        }
      }
    }
    assert sessions[..|sessions|] == sessions;
  }

  /** The batch of equal timestamps that starts at the given index: where it ends, and the counts after it. */
  method SweepBatch(events: seq<Event>, first: nat, retained0: int, hotBlocks0: int)
    returns (index: nat, retained: int, hotBlocks: int)
    requires first < |events| && Sorted(EventLe, events)
    requires forall i | 0 <= i < first :: events[i].time < events[first].time
    requires retained0 == Sum(Weight(RetainedSessions), events[..first])
    requires hotBlocks0 == Sum(Weight(HotBlocks), events[..first])
    ensures first < index <= |events| && IsBatch(events, first, index, events[first].time)
    ensures retained == Sum(Weight(RetainedSessions), events[..index])
    ensures hotBlocks == Sum(Weight(HotBlocks), events[..index])
    ensures retained == Level(RetainedSessions, events, events[first].time)
    ensures hotBlocks == Level(HotBlocks, events, events[first].time)
  {
    var timestamp := events[first].time;
    index, retained, hotBlocks := first, retained0, hotBlocks0;
    while index < |events| && events[index].time == timestamp
      invariant first <= index <= |events|
      invariant forall i | first <= i < index :: events[i].time == timestamp
      invariant retained == Sum(Weight(RetainedSessions), events[..index])
      invariant hotBlocks == Sum(Weight(HotBlocks), events[..index])
    {
      SumSnoc(Weight(RetainedSessions), events, index);
      SumSnoc(Weight(HotBlocks), events, index);
      retained := retained + events[index].open;
      hotBlocks := hotBlocks + events[index].blocks;
      index := index + 1;
    }
    forall j | index <= j < |events|
      ensures timestamp < events[j].time
    {
      assert EventLe(events[first], events[index]);
      assert j == index || EventLe(events[index], events[j]);
    }
    PrefixIsLevel(RetainedSessions, events, index, timestamp);
    PrefixIsLevel(HotBlocks, events, index, timestamp);
  }

  method SweepRetainedOccupancy(sessions: seq<Session>) returns (sweep: Sweep)
    ensures sweep.peakRetained == Peak(RetainedSessions, sessions)
    ensures sweep.peakHotBlocks == Peak(HotBlocks, sessions)
    ensures IsSampling(sweep.samples, AllEvents(sessions))
  {
    hide Level, IsSampling, MaxLevel, AllEvents;
    var unsorted := CollectEvents(sessions);
    var events := Sort(EventLe, unsorted);
    EventOrderIsTotal();
    SortSorted(EventLe, unsorted);
    var retained, hotBlocks, peakRetained, peakHotBlocks := 0, 0, 0, 0;
    var samples: seq<Sample> := [];
    var index := 0;
    while index < |events|
      invariant 0 <= index <= |events|
      invariant 0 < index < |events| ==> events[index - 1].time < events[index].time
      invariant retained == Sum(Weight(RetainedSessions), events[..index])
      invariant hotBlocks == Sum(Weight(HotBlocks), events[..index])
      invariant SamplesUpTo(samples, events, index)
      invariant PeakSoFar(RetainedSessions, events, index, peakRetained)
      invariant PeakSoFar(HotBlocks, events, index, peakHotBlocks)
    {
      var timestamp, first := events[index].time, index;
      forall i | 0 <= i < first
        ensures events[i].time < timestamp
      {
        assert i == first - 1 || EventLe(events[i], events[first - 1]);
      }
      index, retained, hotBlocks := SweepBatch(events, first, retained, hotBlocks);
      PeakExtended(RetainedSessions, events, first, index, timestamp, peakRetained);
      PeakExtended(HotBlocks, events, first, index, timestamp, peakHotBlocks);
      peakRetained := Max(peakRetained, retained);
      peakHotBlocks := Max(peakHotBlocks, hotBlocks);
      SamplesExtended(samples, events, first, index, Sample(timestamp, retained, hotBlocks));
      samples := samples + [Sample(timestamp, retained, hotBlocks)];
    }
    sweep := Sweep(samples, peakRetained, peakHotBlocks);
    SortedPeak(RetainedSessions, unsorted, peakRetained);
    SortedPeak(HotBlocks, unsorted, peakHotBlocks);
    SortedSampling(samples, unsorted);
  }

  /** Exactly the distinct event times are sampled, in order, each with the counts at that time. */
  ghost predicate IsSampling(samples: seq<Sample>, events: seq<Event>) {
    && (forall i, j | 0 <= i < j < |samples| :: samples[i].timestamp < samples[j].timestamp)
    && (forall i | 0 <= i < |samples| :: SampleAgrees(samples[i], events) && HasEvent(events, samples[i].timestamp))
    && (forall e | e in events :: HasSample(samples, e.time))
  }

  lemma {:induction false} LevelOfSorted(g: Gauge, events: seq<Event>, t: real)
    ensures Level(g, Sort(EventLe, events), t) == Level(g, events, t)
  {
    SumSort(Contribution(g, t), EventLe, events);
  }

  lemma {:induction false} SortedPeak(g: Gauge, events: seq<Event>, p: int)
    requires PeakSoFar(g, Sort(EventLe, events), |Sort(EventLe, events)|, p)
    ensures p == MaxLevel(g, events, events)
  {
    var sorted := Sort(EventLe, events);
    SortPermutes(EventLe, events);
    forall e | e in events
      ensures Level(g, events, e.time) <= p
    {
      assert e in sorted;
      LevelOfSorted(g, events, e.time);
    }
    if p != 0 {
      var i :| 0 <= i < |sorted| && Level(g, sorted, sorted[i].time) == p;
      assert sorted[i] in sorted;
      LevelOfSorted(g, events, sorted[i].time);
    }
    LevelsBoundedOnce(g, events, p, MaxLevel(g, events, events));
  }

  lemma {:induction false} SortedSampling(samples: seq<Sample>, events: seq<Event>)
    requires SamplesUpTo(samples, Sort(EventLe, events), |Sort(EventLe, events)|)
    ensures IsSampling(samples, events)
  {
    var sorted := Sort(EventLe, events);
    SortPermutes(EventLe, events);
    forall e | e in events
      ensures HasSample(samples, e.time)
    {
      assert e in sorted;
      var i :| 0 <= i < |sorted| && sorted[i] == e;
      assert HasSample(samples, sorted[i].time);
    }
    forall i | 0 <= i < |samples|
      ensures SampleAgrees(samples[i], events) && HasEvent(events, samples[i].timestamp)
    {
      assert HasEvent(sorted, samples[i].timestamp);
      LevelOfSorted(RetainedSessions, events, samples[i].timestamp);
      LevelOfSorted(HotBlocks, events, samples[i].timestamp);
    }
  }

  /** Each sample is what the sessions hold at that time, and the last one is empty. */
  lemma {:induction false} SamplesArePointwise(sessions: seq<Session>, samples: seq<Sample>)
    requires AllChronological(sessions) && IsSampling(samples, AllEvents(sessions))
    ensures forall i | 0 <= i < |samples| ::
              && samples[i].retained == TotalDemand(RetainedSessions, sessions, samples[i].timestamp)
              && samples[i].hotBlocks == TotalDemand(HotBlocks, sessions, samples[i].timestamp)
    ensures samples != [] ==> samples[|samples| - 1].retained == 0 && samples[|samples| - 1].hotBlocks == 0
  {
    var events := AllEvents(sessions);
    forall i | 0 <= i < |samples|
      ensures samples[i].retained == TotalDemand(RetainedSessions, sessions, samples[i].timestamp)
      ensures samples[i].hotBlocks == TotalDemand(HotBlocks, sessions, samples[i].timestamp)
    {
      LevelIsTotalDemand(RetainedSessions, sessions, samples[i].timestamp);
      LevelIsTotalDemand(HotBlocks, sessions, samples[i].timestamp);
    }
    if samples != [] {
      var last := samples[|samples| - 1].timestamp;
      forall e | e in events
        ensures e.time <= last
      {
        assert HasSample(samples, e.time);
        var j :| 0 <= j < |samples| && samples[j].timestamp == e.time;
        assert j == |samples| - 1 || samples[j].timestamp < last;
      }
      EmptyAtTheEnd(RetainedSessions, sessions, last);
      EmptyAtTheEnd(HotBlocks, sessions, last);
    }
  }

  /** Whatever opens also closes: after the last event nothing is held, in any order of timestamps. */
  lemma {:induction false} EmptyAtTheEnd(g: Gauge, sessions: seq<Session>, t: real)
    requires forall e | e in AllEvents(sessions) :: e.time <= t
    ensures Level(g, AllEvents(sessions), t) == 0
  {
    hide OwnEvents;
    if sessions != [] {
      var rest, s := sessions[..|sessions| - 1], sessions[|sessions| - 1];
      assert AllEvents(sessions) == AllEvents(rest) + OwnEvents(s);
      EmptyAtTheEnd(g, rest, t);
      SumConcat(Contribution(g, t), AllEvents(rest), OwnEvents(s));
      ClosedSession(g, s, t);
    }
  }

  lemma {:induction false} ClosedSession(g: Gauge, s: Session, t: real)
    requires forall e | e in OwnEvents(s) :: e.time <= t
    ensures Level(g, OwnEvents(s), t) == 0
  {
    if |s| >= 2 {
      ClosedIntervals(g, s, |s| - 1, t);
    }
  }

  lemma {:induction false} ClosedIntervals(g: Gauge, s: Session, n: nat, t: real)
    requires n < |s| && forall e | e in SessionEvents(s, n) :: e.time <= t
    ensures Level(g, SessionEvents(s, n), t)
         == if g.RetainedSessions? && 0 < n < |s| - 1 then 1 else 0
  {
    if n > 0 {
      var pair := TurnEvents(s, n - 1);
      ClosedIntervals(g, s, n - 1, t);
      SumConcat(Contribution(g, t), SessionEvents(s, n - 1), pair);
      assert pair[0] in SessionEvents(s, n) && pair[1] in SessionEvents(s, n);
      assert pair[1..] == [pair[1]];
      assert Sum(Contribution(g, t), pair[1..]) == Contribution(g, t)(pair[1]);
    }
  }
}
