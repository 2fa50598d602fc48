/**
  PrefixPeakIndex and find_high_load_prefix of analyze_qwen_bailian_workload.py: cached peaks
  of timestamp-ordered prefixes, and binary searches that are right only because adding a
  session never lowers a peak.
 */
module PrefixSearch {
  import opened Sequences
  import opened TraceRecords
  import opened Occupancy

  /** A session dictionary, in insertion order. */
  type SessionItem = (int, Session)

  datatype Entry = Entry(sessionCount: nat, hotBlocks: int, retained: int)

  predicate ItemLe(a: SessionItem, b: SessionItem) {
    if |a.1| == 0 || |b.1| == 0 then |a.1| == 0 && (|b.1| == 0 ==> a.0 <= b.0)
    else a.1[0].timestamp < b.1[0].timestamp || (a.1[0].timestamp == b.1[0].timestamp && a.0 <= b.0)
  }

  /** The index holds the sessions it was given, by first timestamp and then by root. */
  lemma {:induction false} OrderedItems(sessions: seq<SessionItem>)
    requires forall item | item in sessions :: |item.1| > 0
    ensures multiset(Sort(ItemLe, sessions)) == multiset(sessions)
    ensures forall i, j | 0 <= i < j < |sessions| ::
      var a, b := Sort(ItemLe, sessions)[i], Sort(ItemLe, sessions)[j];
      |a.1| > 0 && |b.1| > 0 && a.1[0].timestamp <= b.1[0].timestamp
        && (a.1[0].timestamp == b.1[0].timestamp ==> a.0 <= b.0)
    ensures (forall item | item in sessions :: Chronological(item.1)) ==> ItemsChronological(Sort(ItemLe, sessions))
  {
    SortPermutes(ItemLe, sessions);
    ItemOrder();
    SortSorted(ItemLe, sessions);
    hide Sort, Chronological;
    var sorted := Sort(ItemLe, sessions);
    forall i, j | 0 <= i < j < |sorted|
      ensures ItemLe(sorted[i], sorted[j]) && |sorted[i].1| > 0 && |sorted[j].1| > 0
    {
      assert sorted[i] in sorted && sorted[j] in sorted;
    }
    assert forall item | item in sorted :: item in sessions;
  }

  lemma {:induction false} ItemOrder()
    ensures TotalPreorder(ItemLe)
  {
  }

  function Prefix(items: seq<SessionItem>, n: nat): (sessions: seq<Session>)
    requires n <= |items|
    ensures |sessions| == n && forall i | 0 <= i < n :: sessions[i] == items[i].1
  {
    seq(n, i requires 0 <= i < n => items[i].1)
  }

  /** The fresh answer for a prefix: what the sweep over it finds. */
  function EntryOf(items: seq<SessionItem>, n: nat): Entry
    requires n <= |items|
  {
    Entry(n, Peak(HotBlocks, Prefix(items, n)), Peak(RetainedSessions, Prefix(items, n)))
  }

  ghost predicate ItemsChronological(items: seq<SessionItem>) {
    forall item | item in items :: Chronological(item.1)
  }

  lemma {:induction false} EntryMonotone(items: seq<SessionItem>, m: nat, n: nat)
    requires ItemsChronological(items) && m <= n <= |items|
    ensures EntryOf(items, m).hotBlocks <= EntryOf(items, n).hotBlocks
    ensures EntryOf(items, m).retained <= EntryOf(items, n).retained
  {
    var sessions := Prefix(items, n);
    assert sessions[..m] == Prefix(items, m) && sessions[..n] == sessions;
    assert AllChronological(sessions) by {
      forall s | s in sessions
        ensures Chronological(s)
      {
        var i :| 0 <= i < n && sessions[i] == s;
        assert items[i] in items;
      }
    }
    PeakMonotone(HotBlocks, sessions, m, n);
    PeakMonotone(RetainedSessions, sessions, m, n);
  }

  /** Once true of a peak, true of every larger one. */
  ghost predicate UpwardClosed(p: int -> bool) {
    forall a, b | a <= b && p(a) :: p(b)
  }

  ghost predicate DownwardClosed(p: int -> bool) {
    forall a, b | a <= b && p(b) :: p(a)
  }

  /** n is the least prefix length in 1..|items| whose peak satisfies p, or None if there is none. */
  ghost predicate IsLeast(items: seq<SessionItem>, p: int -> bool, n: Option<nat>) {
    match n
    case Some(k) =>
      && 1 <= k <= |items| && p(EntryOf(items, k).hotBlocks)
      && forall m | 1 <= m < k :: !p(EntryOf(items, m).hotBlocks)
    case None => forall m | 1 <= m <= |items| :: !p(EntryOf(items, m).hotBlocks)
  }

  ghost predicate IsGreatest(items: seq<SessionItem>, p: int -> bool, n: Option<nat>) {
    match n
    case Some(k) =>
      && 1 <= k <= |items| && p(EntryOf(items, k).hotBlocks)
      && forall m | k < m <= |items| :: !p(EntryOf(items, m).hotBlocks)
    case None => forall m | 1 <= m <= |items| :: !p(EntryOf(items, m).hotBlocks)
  }

  /** n is the least prefix length with a peak of at least the target; with None, every peak is below it. */
  ghost predicate FirstToReach(items: seq<SessionItem>, target: int, n: Option<nat>) {
    match n
    case Some(k) =>
      && 1 <= k <= |items| && target <= EntryOf(items, k).hotBlocks
      && forall m | 1 <= m < k :: EntryOf(items, m).hotBlocks < target
    case None => forall m | 1 <= m <= |items| :: EntryOf(items, m).hotBlocks < target
  }

  /** n is the least prefix length with a peak above the bound; with None, no peak is above it. */
  ghost predicate FirstToExceed(items: seq<SessionItem>, bound: int, n: Option<nat>) {
    match n
    case Some(k) =>
      && 1 <= k <= |items| && bound < EntryOf(items, k).hotBlocks
      && forall m | 1 <= m < k :: EntryOf(items, m).hotBlocks <= bound
    case None => forall m | 1 <= m <= |items| :: EntryOf(items, m).hotBlocks <= bound
  }

  /** n is the greatest prefix length with a peak below the bound; with None, every peak reaches it. */
  ghost predicate LastBelow(items: seq<SessionItem>, bound: int, n: Option<nat>) {
    match n
    case Some(k) =>
      && 1 <= k <= |items| && EntryOf(items, k).hotBlocks < bound
      && forall m | k < m <= |items| :: bound <= EntryOf(items, m).hotBlocks
    case None => forall m | 1 <= m <= |items| :: bound <= EntryOf(items, m).hotBlocks
  }

  datatype Reaching = Reaching(
    smallest: Option<nat>, hotBlocks: int, retained: int,
    fullHotBlocks: int, fullRetained: int, searched: nat)

  class PrefixPeakIndex {
    const ordered: seq<SessionItem>
    var cache: map<int, Entry>

    ghost predicate Valid()
      reads this
    {
      forall n | n in cache :: 1 <= n <= |ordered| && cache[n] == EntryOf(ordered, n)
    }

    /** An empty session has no first timestamp to sort by. */
    constructor (sessions: seq<SessionItem>)
      requires forall item | item in sessions :: |item.1| > 0
      ensures Valid() && cache == map[]
      ensures ordered == Sort(ItemLe, sessions)
    {
      ordered := Sort(ItemLe, sessions);
      cache := map[];
    }

    method PeakOf(sessionCount: int) returns (entry: Entry)
      requires Valid()
      modifies this`cache
      ensures Valid()
      ensures entry == EntryOf(ordered, Max(0, Min(sessionCount, |ordered|)))
      ensures forall n | n in old(cache) :: n in cache && cache[n] == old(cache)[n]
      ensures 1 <= sessionCount && ordered != [] ==> Min(sessionCount, |ordered|) in cache
    {
      var count := Max(0, Min(sessionCount, |ordered|));
      if count == 0 {
        EmptyPrefix(ordered);
        return Entry(0, 0, 0);
      }
      if count in cache {
        return cache[count];
      }
      var sweep := SweepRetainedOccupancy(Prefix(ordered, count));
      entry := Entry(count, sweep.peakHotBlocks, sweep.peakRetained);
      cache := cache[count := entry];
    }

    method SmallestN(p: int -> bool) returns (found: Option<nat>)
      requires Valid()
      modifies this`cache
      ensures Valid()
      ensures found.Some? ==> 1 <= found.value <= |ordered|
      ensures found.Some? ==> p(EntryOf(ordered, found.value).hotBlocks)
      ensures ItemsChronological(ordered) && UpwardClosed(p) ==> IsLeast(ordered, p, found)
    {
      hide EntryOf;
      ghost var searchable := ItemsChronological(ordered) && UpwardClosed(p);
      var low, high := 1, |ordered|;
      found := None;
      while low <= high
        invariant 1 <= low <= high + 1 <= |ordered| + 1
        invariant Valid()
        invariant found.Some? ==> found.value == high + 1 <= |ordered| && p(EntryOf(ordered, high + 1).hotBlocks)
        invariant found.None? ==> high == |ordered|
        invariant high < |ordered| ==> found.Some?
        invariant searchable ==> forall m | 1 <= m < low :: !p(EntryOf(ordered, m).hotBlocks)
      {
        var mid := (low + high) / 2;
        var entry := PeakOf(mid);
        if p(entry.hotBlocks) {
          found, high := Some(mid), mid - 1;
        } else {
          if searchable {
            forall m | 1 <= m <= mid
              ensures !p(EntryOf(ordered, m).hotBlocks)
            {
              EntryMonotone(ordered, m, mid);
            }
          }
          low := mid + 1;
        }
      }
    }

    method LargestN(p: int -> bool) returns (found: Option<nat>)
      requires Valid()
      modifies this`cache
      ensures Valid()
      ensures found.Some? ==> 1 <= found.value <= |ordered|
      ensures found.Some? ==> p(EntryOf(ordered, found.value).hotBlocks)
      ensures ItemsChronological(ordered) && DownwardClosed(p) ==> IsGreatest(ordered, p, found)
    {
      hide EntryOf;
      ghost var searchable := ItemsChronological(ordered) && DownwardClosed(p);
      var low, high := 1, |ordered|;
      found := None;
      while low <= high
        invariant 1 <= low <= high + 1 <= |ordered| + 1
        invariant Valid()
        invariant found.Some? ==> 1 <= found.value == low - 1 && p(EntryOf(ordered, low - 1).hotBlocks)
        invariant found.None? ==> low == 1
        invariant searchable ==> forall m | high < m <= |ordered| :: !p(EntryOf(ordered, m).hotBlocks)
      {
        var mid := (low + high) / 2;
        var entry := PeakOf(mid);
        if p(entry.hotBlocks) {
          found, low := Some(mid), mid + 1;
        } else {
          if searchable {
            forall m | mid <= m <= |ordered|
              ensures !p(EntryOf(ordered, m).hotBlocks)
            {
              EntryMonotone(ordered, mid, m);
            }
          }
          high := mid - 1;
        }
      }
    }

    /** The least prefix whose peak reaches the target, or exceeds it for "gt". */
    method SmallestReaching(target: int, comparison: string) returns (r: Result<Reaching, string>)
      requires Valid()
      modifies this`cache
      ensures Valid()
      ensures r.Err? <==> comparison != "gt" && comparison != "ge"
      ensures r.Ok? ==>
        var full := EntryOf(ordered, |ordered|);
        && r.value.searched == |ordered|
        && r.value.fullHotBlocks == full.hotBlocks && r.value.fullRetained == full.retained
        && (r.value.smallest.Some? ==>
          && 1 <= r.value.smallest.value <= |ordered|
          && (if comparison == "gt" then target < r.value.hotBlocks else target <= r.value.hotBlocks)
          && r.value.hotBlocks == EntryOf(ordered, r.value.smallest.value).hotBlocks
          && r.value.retained == EntryOf(ordered, r.value.smallest.value).retained)
        && (r.value.smallest.None? ==> r.value.hotBlocks == full.hotBlocks && r.value.retained == full.retained)
      ensures r.Ok? && ItemsChronological(ordered) && comparison == "ge" ==>
        FirstToReach(ordered, target, r.value.smallest)
      ensures r.Ok? && ItemsChronological(ordered) && comparison == "gt" ==>
        FirstToExceed(ordered, target, r.value.smallest)
    {
      hide EntryOf;
      if comparison != "gt" && comparison != "ge" {
        return Err("unsupported comparison");
      }
      var smallest := SmallestN(Reaches(target, comparison));
      var full := PeakOf(|ordered|);
      var at := full;
      if smallest.Some? {
        at := PeakOf(smallest.value);
      }
      r := Ok(Reaching(smallest, at.hotBlocks, at.retained, full.hotBlocks, full.retained, |ordered|));
    }
  }

  function Reaches(target: int, comparison: string): int -> bool {
    (peak: int) => if comparison == "gt" then peak > target else peak >= target
  }

  lemma {:induction false} EmptyPrefix(items: seq<SessionItem>)
    ensures EntryOf(items, 0) == Entry(0, 0, 0)
  {
    assert Prefix(items, 0) == [];
    assert AllEvents(Prefix(items, 0)) == [];
  }
}
