/** find_high_load_prefix of analyze_qwen_bailian_workload.py: the prefix whose peak suits a band best. */
module HighLoad {
  import opened Sequences
  import opened PrefixSearch

  datatype Selection = Selection(
    rangeSatisfied: bool,
    chosen: Option<Entry>,
    aboveAllHot: bool,
    belowMixedTotal: bool,
    closestBelow: Option<Entry>,
    closestAbove: Option<Entry>)

  function Distance(target: real, peak: int): real {
    if peak as real < target then target - peak as real else peak as real - target
  }

  /** a is no farther from the target than b: it lies between b and the mirror image of b. */
  ghost predicate NoFarther(target: real, a: int, b: int) {
    || b as real <= a as real <= 2.0 * target - b as real
    || 2.0 * target - b as real <= a as real <= b as real
  }

  lemma {:induction false} DistanceCompares(target: real, a: int, b: int)
    ensures Distance(target, a) <= Distance(target, b) <==> NoFarther(target, a, b)
  {
  }

  /** Twice the distance from the middle of the band, in whole blocks. */
  function OffCentre(lo: int, hi: int, peak: int): int {
    if lo + hi < 2 * peak then 2 * peak - lo - hi else lo + hi - 2 * peak
  }

  lemma {:induction false} MidpointIsCentre(lo: int, hi: int, a: int, b: int)
    ensures NoFarther(Midpoint(lo, hi), a, b) <==> OffCentre(lo, hi, a) <= OffCentre(lo, hi, b)
    ensures Midpoint(lo, hi) <= a as real <==> lo + hi <= 2 * a
  {
  }

  function Midpoint(lo: int, hi: int): real {
    (lo + hi) as real / 2.0
  }

  predicate InBand(lo: int, hi: int, peak: int) {
    lo <= peak <= hi
  }

  /** How far a peak is from the band, by the nearer of the bounds it violates. */
  function BandDistance(lo: int, hi: int, peak: int): int {
    if peak < lo && hi < peak then Min(lo - peak, peak - hi)
    else if peak < lo then lo - peak
    else if hi < peak then peak - hi
    else 0
  }

  function AtLeast(bound: int): int -> bool { (peak: int) => peak >= bound }
  function AtMost(bound: int): int -> bool { (peak: int) => peak <= bound }
  function Below(bound: int): int -> bool { (peak: int) => peak < bound }
  function Above(bound: int): int -> bool { (peak: int) => peak > bound }

  ghost predicate IsEntry(items: seq<SessionItem>, e: Entry) {
    1 <= e.sessionCount <= |items| && e == EntryOf(items, e.sessionCount)
  }

  /**
    How the choice of e over prefix m is settled when both are equally near: from the target upwards
    nothing shorter is as near, and below the target e is the longest prefix that stays below it.
   */
  ghost predicate Settles(items: seq<SessionItem>, target: real, e: Entry, m: nat)
    requires m <= |items|
  {
    && (target <= e.hotBlocks as real && m < e.sessionCount ==>
          !NoFarther(target, EntryOf(items, m).hotBlocks, e.hotBlocks))
    && (e.hotBlocks as real < target && e.sessionCount < m ==> target <= EntryOf(items, m).hotBlocks as real)
  }

  /** The prefix in low..high whose peak is nearest to the target. */
  method ClosestPrefixToPeak(index: PrefixPeakIndex, low: nat, high: nat, target: real) returns (best: Entry)
    requires index.Valid() && 1 <= low <= high <= |index.ordered|
    modifies index`cache
    ensures index.Valid()
    ensures IsEntry(index.ordered, best) && low <= best.sessionCount <= high
    ensures ItemsChronological(index.ordered) ==>
      forall m | low <= m <= high ::
        NoFarther(target, best.hotBlocks, EntryOf(index.ordered, m).hotBlocks)
    ensures ItemsChronological(index.ordered) ==>
      forall m | low <= m <= high :: Settles(index.ordered, target, best, m)
  {
    hide EntryOf;
    ghost var items := index.ordered;
    ghost var chronological := ItemsChronological(items);
    var reaching: Option<nat> := None;
    var lo, hi: int := low, high;
    while lo <= hi
      invariant low <= lo <= hi + 1 <= high + 1
      invariant index.Valid()
      invariant reaching.Some? ==>
        reaching.value == hi + 1 <= high && target <= EntryOf(items, hi + 1).hotBlocks as real
      invariant reaching.None? ==> hi == high
      invariant chronological ==> forall m | low <= m < lo :: EntryOf(items, m).hotBlocks as real < target
    {
      var mid := (lo + hi) / 2;
      var entry := index.PeakOf(mid);
      if entry.hotBlocks as real >= target {
        reaching, hi := Some(mid), mid - 1;
      } else {
        if chronological {
          forall m | low <= m <= mid
            ensures EntryOf(items, m).hotBlocks as real < target
          {
            EntryMonotone(items, m, mid);
          }
        }
        lo := mid + 1;
      }
    }
    var first := if reaching.Some? then reaching.value else high;
    best := index.PeakOf(first);
    EntryCounts(items, first);
    if reaching.Some? && reaching.value - 1 >= low {
      var other := index.PeakOf(reaching.value - 1);
      EntryCounts(items, reaching.value - 1);
      if Distance(target, other.hotBlocks) <= Distance(target, best.hotBlocks) {
        best := other;
      }
    }
    if chronological {
      forall m | low <= m <= high
        ensures NoFarther(target, best.hotBlocks, EntryOf(items, m).hotBlocks)
        ensures Settles(items, target, best, m)
      {
        if reaching.Some? && m >= reaching.value {
          EntryMonotone(items, reaching.value, m);
        } else {
          EntryMonotone(items, m, if reaching.Some? then reaching.value - 1 else high);
        }
      }
    }
  }

  lemma {:induction false} EntryCounts(items: seq<SessionItem>, n: nat)
    requires n <= |items|
    ensures EntryOf(items, n).sessionCount == n
  {
  }

  /** The first of two entries whose distances are given: Python's min over (distance, count) pairs. */
  function Nearer(da: int, a: Entry, db: int, b: Entry): Entry {
    if da < db || (da == db && a.sessionCount <= b.sessionCount) then a else b
  }

  /** What the program chooses when no prefix is in the band. */
  function Fallback(lo: int, hi: int, below: Option<Entry>, above: Option<Entry>): Entry
    requires below.Some? || above.Some?
  {
    if above.None? then below.value
    else if below.None? then above.value
    else Nearer(lo - below.value.hotBlocks, below.value, above.value.hotBlocks - hi, above.value)
  }

  function CountOf(e: Option<Entry>): Option<nat> {
    if e.Some? then Some(e.value.sessionCount) else None
  }

  ghost predicate IsOptionalEntry(items: seq<SessionItem>, e: Option<Entry>) {
    e.Some? ==> IsEntry(items, e.value)
  }

  ghost predicate SomePrefixInBand(items: seq<SessionItem>, lo: int, hi: int) {
    exists n :: 1 <= n <= |items| && InBand(lo, hi, EntryOf(items, n).hotBlocks)
  }

  /** No prefix in the band is nearer to its midpoint, and ties are settled. */
  ghost predicate BestInBand(items: seq<SessionItem>, lo: int, hi: int, e: Entry) {
    && InBand(lo, hi, e.hotBlocks)
    && forall n | 1 <= n <= |items| && InBand(lo, hi, EntryOf(items, n).hotBlocks) ::
         && OffCentre(lo, hi, e.hotBlocks) <= OffCentre(lo, hi, EntryOf(items, n).hotBlocks)
         && SettlesInBand(items, lo, hi, e, n)
  }

  /** Settles, for the middle of the band and in whole blocks. */
  ghost predicate SettlesInBand(items: seq<SessionItem>, lo: int, hi: int, e: Entry, n: nat)
    requires n <= |items|
  {
    && (lo + hi <= 2 * e.hotBlocks && n < e.sessionCount ==>
          OffCentre(lo, hi, e.hotBlocks) < OffCentre(lo, hi, EntryOf(items, n).hotBlocks))
    && (2 * e.hotBlocks < lo + hi && e.sessionCount < n ==> lo + hi <= 2 * EntryOf(items, n).hotBlocks)
  }

  /** No prefix at all is nearer to the band. */
  ghost predicate NearestToBand(items: seq<SessionItem>, lo: int, hi: int, e: Entry) {
    forall n | 1 <= n <= |items| ::
      BandDistance(lo, hi, e.hotBlocks) <= BandDistance(lo, hi, EntryOf(items, n).hotBlocks)
  }

  /** A peak is within some distance of a band exactly when it is in the band widened by so much. */
  lemma {:induction false} WithinBandDistance(lo: int, hi: int, peak: int, d: nat)
    requires lo <= hi
    ensures BandDistance(lo, hi, peak) <= d <==> lo - d <= peak <= hi + d
    ensures 0 <= BandDistance(lo, hi, peak) && (BandDistance(lo, hi, peak) == 0 <==> InBand(lo, hi, peak))
  {
  }

  /** What the selection promises of sessions whose timestamps never go back. */
  ghost predicate IsBestSelection(items: seq<SessionItem>, lo: int, hi: int, s: Selection) {
    && (s.rangeSatisfied <==> SomePrefixInBand(items, lo, hi))
    && (s.rangeSatisfied ==> BestInBand(items, lo, hi, s.chosen.GetOr(NO_ENTRY)))
    && (!s.rangeSatisfied && items != [] ==> NearestToBand(items, lo, hi, s.chosen.GetOr(NO_ENTRY)))
    && LastBelow(items, lo, CountOf(s.closestBelow))
    && FirstToExceed(items, hi, CountOf(s.closestAbove))
    && (items != [] && !s.rangeSatisfied ==> s.closestBelow.Some? || s.closestAbove.Some?)
  }

  const NO_ENTRY := Entry(0, 0, 0)

  method FindHighLoadPrefix(index: PrefixPeakIndex, lo: int, hi: int, allHotBlocks: int, mixedTotalBlocks: int)
    returns (s: Selection)
    requires index.Valid()
    modifies index`cache
    ensures index.Valid()
    ensures s.chosen.None? <==> index.ordered == []
    ensures IsOptionalEntry(index.ordered, s.chosen)
    ensures IsOptionalEntry(index.ordered, s.closestBelow) && IsOptionalEntry(index.ordered, s.closestAbove)
    ensures ItemsChronological(index.ordered) ==> IsBestSelection(index.ordered, lo, hi, s)
    ensures !s.rangeSatisfied && (s.closestBelow.Some? || s.closestAbove.Some?) ==>
      s.chosen == Some(Fallback(lo, hi, s.closestBelow, s.closestAbove))
    ensures s.aboveAllHot <==> s.chosen.Some? && s.chosen.value.hotBlocks > allHotBlocks
    ensures s.belowMixedTotal <==> s.chosen.None? || s.chosen.value.hotBlocks < mixedTotalBlocks
  {
    hide EntryOf, IsEntry, ItemsChronological, BestInBand, NearestToBand, SomePrefixInBand;
    hide IsLeast, IsGreatest, FirstToReach, FirstToExceed, LastBelow, Settles;
    if index.ordered == [] {
      EmptySelection(index.ordered, lo, hi);
      return Selection(false, None, false, true, None, None);
    }
    var geMin := index.SmallestN(AtLeast(lo));
    var leMax := index.LargestN(AtMost(hi));
    var nBelow := index.LargestN(Below(lo));
    var nAbove := index.SmallestN(Above(hi));
    var below := OptionalPeak(index, nBelow);
    var above := OptionalPeak(index, nAbove);
    var satisfied := geMin.Some? && leMax.Some? && geMin.value <= leMax.value;
    ghost var chronological := ItemsChronological(index.ordered);
    if chronological {
      SearchesFind(index.ordered, lo, hi, geMin, leMax, nBelow, nAbove);
      BandIsInterval(index.ordered, lo, hi, geMin, leMax);
      if !satisfied {
        FallbackIsNearest(index.ordered, lo, hi, geMin, leMax, below, above);
      }
    }
    var chosen: Entry;
    if satisfied {
      chosen := ClosestPrefixToPeak(index, geMin.value, leMax.value, Midpoint(lo, hi));
      if chronological {
        InBandIsBest(index.ordered, lo, hi, geMin, leMax, chosen);
      }
    } else if below.None? && above.None? {
      // Chronological sessions never come here: FallbackIsNearest.
      var longest := OptionalPeak(index, Some(|index.ordered|));
      chosen := longest.value;
    } else {
      chosen := Fallback(lo, hi, below, above);
    }
    s := Selection(satisfied, Some(chosen), chosen.hotBlocks > allHotBlocks,
                   chosen.hotBlocks < mixedTotalBlocks, below, above);
  }

  /** What the four searches find, in terms of the peaks. */
  lemma {:induction false} SearchesFind(
      items: seq<SessionItem>, lo: int, hi: int,
      geMin: Option<nat>, leMax: Option<nat>, nBelow: Option<nat>, nAbove: Option<nat>)
    requires IsLeast(items, AtLeast(lo), geMin) && IsGreatest(items, AtMost(hi), leMax)
    requires IsGreatest(items, Below(lo), nBelow) && IsLeast(items, Above(hi), nAbove)
    ensures FirstToReach(items, lo, geMin) && LastBelow(items, hi + 1, leMax)
    ensures LastBelow(items, lo, nBelow) && FirstToExceed(items, hi, nAbove)
  {
    hide EntryOf;
  }

  method OptionalPeak(index: PrefixPeakIndex, n: Option<nat>) returns (e: Option<Entry>)
    requires index.Valid() && (n.Some? ==> 1 <= n.value <= |index.ordered|)
    modifies index`cache
    ensures index.Valid()
    ensures IsOptionalEntry(index.ordered, e) && CountOf(e) == n
  {
    hide EntryOf;
    if n.None? {
      return None;
    }
    var entry := index.PeakOf(n.value);
    EntryCounts(index.ordered, n.value);
    e := Some(entry);
  }

  lemma {:induction false} EmptySelection(items: seq<SessionItem>, lo: int, hi: int)
    requires items == []
    ensures !SomePrefixInBand(items, lo, hi)
    ensures LastBelow(items, lo, None) && FirstToExceed(items, hi, None)
  {
  }

  predicate Between(low: Option<nat>, high: Option<nat>, n: nat) {
    low.Some? && high.Some? && low.value <= n <= high.value
  }

  /** The prefixes in the band are exactly those from the least one reaching lo to the greatest one within hi. */
  lemma {:induction false} BandIsInterval(
      items: seq<SessionItem>, lo: int, hi: int, geMin: Option<nat>, leMax: Option<nat>)
    requires ItemsChronological(items)
    requires FirstToReach(items, lo, geMin) && LastBelow(items, hi + 1, leMax)
    ensures forall n | 1 <= n <= |items| :: InBand(lo, hi, EntryOf(items, n).hotBlocks) <==> Between(geMin, leMax, n)
  {
    hide EntryOf;
    forall n | 1 <= n <= |items|
      ensures InBand(lo, hi, EntryOf(items, n).hotBlocks) <==> Between(geMin, leMax, n)
    {
      if geMin.Some? && geMin.value <= n {
        EntryMonotone(items, geMin.value, n);
      }
      if leMax.Some? && n <= leMax.value {
        EntryMonotone(items, n, leMax.value);
      }
    }
  }

  lemma {:induction false} InBandIsBest(
      items: seq<SessionItem>, lo: int, hi: int, geMin: Option<nat>, leMax: Option<nat>, e: Entry)
    requires IsEntry(items, e) && Between(geMin, leMax, e.sessionCount) && 1 <= geMin.value && leMax.value <= |items|
    requires forall n | 1 <= n <= |items| :: InBand(lo, hi, EntryOf(items, n).hotBlocks) <==> Between(geMin, leMax, n)
    requires forall n | geMin.value <= n <= leMax.value ::
      && NoFarther(Midpoint(lo, hi), e.hotBlocks, EntryOf(items, n).hotBlocks)
      && Settles(items, Midpoint(lo, hi), e, n)
    ensures SomePrefixInBand(items, lo, hi) && BestInBand(items, lo, hi, e)
  {
    hide EntryOf, Midpoint, NoFarther, OffCentre;
    assert InBand(lo, hi, EntryOf(items, e.sessionCount).hotBlocks);
    MidpointIsCentre(lo, hi, e.hotBlocks, e.hotBlocks);
    forall n | geMin.value <= n <= leMax.value
      ensures OffCentre(lo, hi, e.hotBlocks) <= OffCentre(lo, hi, EntryOf(items, n).hotBlocks)
      ensures SettlesInBand(items, lo, hi, e, n)
    {
      MidpointIsCentre(lo, hi, e.hotBlocks, EntryOf(items, n).hotBlocks);
      MidpointIsCentre(lo, hi, EntryOf(items, n).hotBlocks, e.hotBlocks);
    }
  }

  /** With prefixes to look at and none in the band, the nearer neighbour of the band is nearest of all. */
  lemma {:induction false} FallbackIsNearest(
      items: seq<SessionItem>, lo: int, hi: int, geMin: Option<nat>, leMax: Option<nat>,
      below: Option<Entry>, above: Option<Entry>)
    requires items != [] && ItemsChronological(items)
    requires !(geMin.Some? && leMax.Some? && geMin.value <= leMax.value)
    requires forall n | 1 <= n <= |items| :: InBand(lo, hi, EntryOf(items, n).hotBlocks) <==> Between(geMin, leMax, n)
    requires IsOptionalEntry(items, below) && LastBelow(items, lo, CountOf(below))
    requires IsOptionalEntry(items, above) && FirstToExceed(items, hi, CountOf(above))
    ensures below.Some? || above.Some?
    ensures IsEntry(items, Fallback(lo, hi, below, above))
    ensures !SomePrefixInBand(items, lo, hi)
    ensures NearestToBand(items, lo, hi, Fallback(lo, hi, below, above))
  {
    hide EntryOf;
    assert !InBand(lo, hi, EntryOf(items, 1).hotBlocks);
    forall n | 1 <= n <= |items|
      ensures BandDistance(lo, hi, Fallback(lo, hi, below, above).hotBlocks)
           <= BandDistance(lo, hi, EntryOf(items, n).hotBlocks)
    {
      assert !InBand(lo, hi, EntryOf(items, n).hotBlocks);
      if EntryOf(items, n).hotBlocks < lo {
        EntryMonotone(items, n, below.value.sessionCount);
      }
      if hi < EntryOf(items, n).hotBlocks {
        EntryMonotone(items, above.value.sessionCount, n);
      }
    }
  }
}
