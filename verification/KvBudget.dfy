/**
  The persistent KV budget of run_qwen_bailian_replay.py, and the demotion thresholds and projected
  pressure that analyze_qwen_bailian_workload.py computes from it.
 */
module KvBudget {
  import opened Sequences
  import opened TraceRecords

  const ATTENTION_LAYERS := 28
  const KV_HEADS := 8
  const HEAD_DIM := 128
  const HOT_DTYPE_BYTES := 2
  const WARM_DTYPE_BYTES := 1
  const WARM_INLINE_SCALE_BYTES := 4
  const INT32_BYTES := 4
  const BLOCK_TABLE_ALIGNMENT_TOKENS := 128

  const HOT_BYTES_PER_BLOCK := ATTENTION_LAYERS * 2 * BLOCK_SIZE * KV_HEADS * HEAD_DIM * HOT_DTYPE_BYTES
  const WARM_BYTES_PER_SLOT :=
    ATTENTION_LAYERS * 2 * BLOCK_SIZE * KV_HEADS * (HEAD_DIM + WARM_INLINE_SCALE_BYTES) * WARM_DTYPE_BYTES

  datatype Arguments = Arguments(
    totalBudget: Option<int>, supportedModel: bool, maxModelLen: int, maxNumSeqs: int,
    mixed: bool, warmPoolBlocks: Option<int>)

  datatype Budget = Budget(
    numBlocks: int, hotBytes: int, warmBytes: int, mapBytes: int, slotTableBytes: int,
    actual: int, slack: int, tolerance: int)

  datatype BudgetError =
    | UnsupportedLayout | BudgetNotPositive | ModelLenNotPositive | SeqsNotPositive
    | WarmPoolNotPositive | FixedExceedsBudget | NoUsableBlocks

  /** Block-table entries per sequence: enough blocks for the longest sequence, in groups of eight. */
  function AlignedTableBlocks(maxModelLen: nat): nat {
    var logical := (maxModelLen + BLOCK_SIZE - 1) / BLOCK_SIZE;
    var group := BLOCK_TABLE_ALIGNMENT_TOKENS / BLOCK_SIZE;
    (logical + group - 1) / group * group
  }

  function SlotTableBytes(maxModelLen: nat, maxNumSeqs: nat): nat {
    assert maxNumSeqs * AlignedTableBlocks(maxModelLen) >= 0;
    maxNumSeqs * AlignedTableBlocks(maxModelLen) * INT32_BYTES
  }

  /** The table holds the longest sequence and wastes less than one alignment group. */
  lemma {:induction false} TableCoversModelLength(maxModelLen: nat)
    ensures maxModelLen <= AlignedTableBlocks(maxModelLen) * BLOCK_SIZE
                        < maxModelLen + BLOCK_TABLE_ALIGNMENT_TOKENS
    ensures AlignedTableBlocks(maxModelLen) * BLOCK_SIZE % BLOCK_TABLE_ALIGNMENT_TOKENS == 0
  {
    var logical := (maxModelLen + 15) / 16;
    assert maxModelLen <= 16 * logical < maxModelLen + 16;
    var groups := (logical + 7) / 8;
    assert logical <= 8 * groups < logical + 8;
    assert AlignedTableBlocks(maxModelLen) * BLOCK_SIZE == 128 * groups;
  }

  function FixedBytes(a: Arguments): int
    requires a.maxModelLen > 0 && a.maxNumSeqs > 0 && (a.mixed ==> a.warmPoolBlocks.Some?)
  {
    if a.mixed then
      a.warmPoolBlocks.value * WARM_BYTES_PER_SLOT + SlotTableBytes(a.maxModelLen, a.maxNumSeqs)
    else 0
  }

  /** What one HOT block costs: itself, and in mixed mode its entry in every layer's map. */
  function BytesPerBlock(mixed: bool): int {
    HOT_BYTES_PER_BLOCK + if mixed then ATTENTION_LAYERS * INT32_BYTES else 0
  }

  function DerivePersistentKvBudget(a: Arguments): Result<Option<Budget>, BudgetError> {
    if a.totalBudget.None? then Ok(None)
    else if !a.supportedModel then Err(UnsupportedLayout)
    else if a.totalBudget.value <= 0 then Err(BudgetNotPositive)
    else if a.maxModelLen <= 0 then Err(ModelLenNotPositive)
    else if a.maxNumSeqs <= 0 then Err(SeqsNotPositive)
    else if a.mixed && (a.warmPoolBlocks.None? || a.warmPoolBlocks.value <= 0) then Err(WarmPoolNotPositive)
    else if a.mixed && FixedBytes(a) >= a.totalBudget.value then Err(FixedExceedsBudget)
    else
      var total, fixed, perBlock := a.totalBudget.value, FixedBytes(a), BytesPerBlock(a.mixed);
      var blocks := (total - fixed) / perBlock;
      if blocks <= 0 then Err(NoUsableBlocks)
      else
        var hot, maps := blocks * HOT_BYTES_PER_BLOCK, blocks * (perBlock - HOT_BYTES_PER_BLOCK);
        var warm := if a.mixed then a.warmPoolBlocks.value * WARM_BYTES_PER_SLOT else 0;
        var actual := hot + maps + fixed;
        Ok(Some(Budget(blocks, hot, warm, maps, fixed - warm, actual, total - actual, perBlock - 1)))
  }

  /** The storages in bytes, from the layout of the supported model. */
  lemma {:induction false} LayoutSizes()
    ensures HOT_BYTES_PER_BLOCK == 28 * 2 * 16 * 8 * 128 * 2 == 1_835_008
    ensures WARM_BYTES_PER_SLOT == 28 * 2 * 16 * 8 * (128 + 4) == 946_176
    ensures BytesPerBlock(true) == HOT_BYTES_PER_BLOCK + 28 * 4 && BytesPerBlock(false) == HOT_BYTES_PER_BLOCK
  {
  }

  /** Each storage of a derived budget, from the arguments. */
  lemma {:induction false} StoragesOfBudget(a: Arguments, b: Budget)
    requires DerivePersistentKvBudget(a) == Ok(Some(b))
    ensures b.hotBytes == b.numBlocks * 1_835_008
    ensures b.mapBytes == if a.mixed then b.numBlocks * 112 else 0
    ensures if a.mixed then a.warmPoolBlocks.Some? && b.warmBytes == a.warmPoolBlocks.value * 946_176
            else b.warmBytes == 0
    ensures a.maxModelLen > 0 && a.maxNumSeqs > 0
    ensures b.slotTableBytes == if a.mixed then a.maxNumSeqs * AlignedTableBlocks(a.maxModelLen) * 4 else 0
    ensures b.tolerance == if a.mixed then 1_835_119 else 1_835_007
  {
  }

  predicate FixedPartIsTooLarge(a: Arguments)
    requires 0 < a.maxModelLen && 0 < a.maxNumSeqs && (a.mixed ==> a.warmPoolBlocks.Some?)
  {
    && a.mixed
    && a.warmPoolBlocks.value * 946_176 + a.maxNumSeqs * AlignedTableBlocks(a.maxModelLen) * 4 >= a.totalBudget.GetOr(0)
  }

  /** Which error a refused request gets: the first of its faults. */
  lemma {:induction false} BudgetErrors(a: Arguments, e: BudgetError)
    requires DerivePersistentKvBudget(a) == Err(e)
    ensures a.totalBudget.Some?
    ensures e == UnsupportedLayout <==> !a.supportedModel
    ensures e == BudgetNotPositive ==> a.totalBudget.value <= 0
    ensures e == ModelLenNotPositive ==> a.maxModelLen <= 0 < a.totalBudget.value
    ensures e == SeqsNotPositive ==> a.maxNumSeqs <= 0 < a.maxModelLen && 0 < a.totalBudget.value
    ensures e == WarmPoolNotPositive ==>
      && a.mixed && (a.warmPoolBlocks.Some? ==> a.warmPoolBlocks.value <= 0)
      && 0 < a.maxNumSeqs && 0 < a.maxModelLen && 0 < a.totalBudget.value
    ensures e in {FixedExceedsBudget, NoUsableBlocks} ==>
      && 0 < a.maxNumSeqs && 0 < a.maxModelLen && 0 < a.totalBudget.value
      && (a.mixed ==> a.warmPoolBlocks.Some? && 0 < a.warmPoolBlocks.value)
      && (e == FixedExceedsBudget <==> FixedPartIsTooLarge(a))
  {
  }

  /** Without a total there is no budget, and nothing is refused. */
  lemma {:induction false} NoTotalNoBudget(a: Arguments)
    ensures DerivePersistentKvBudget(a) == Ok(None) <==> a.totalBudget.None?
  {
  }

  /** The derived blocks fit the budget, leave less than one block unused, and no more would fit. */
  lemma {:induction false} BudgetIsExactAndMaximal(a: Arguments, b: Budget)
    requires DerivePersistentKvBudget(a) == Ok(Some(b))
    ensures b.actual == b.hotBytes + b.mapBytes + b.warmBytes + b.slotTableBytes == a.totalBudget.value - b.slack
    ensures 0 < b.numBlocks && b.hotBytes == b.numBlocks * HOT_BYTES_PER_BLOCK
    ensures 0 <= b.slack <= b.tolerance
    ensures forall more | more > 0 :: b.actual + more * BytesPerBlock(a.mixed) > a.totalBudget.value
    ensures !a.mixed ==> b.warmBytes == b.mapBytes == b.slotTableBytes == 0
  {
  }

  /** The derivation refuses a well-formed request exactly when not even one HOT block fits beside the fixed part. */
  lemma {:induction false} RefusesOnlyWhenNothingFits(a: Arguments)
    requires a.totalBudget.Some? && a.supportedModel && a.totalBudget.value > 0
    requires a.maxModelLen > 0 && a.maxNumSeqs > 0
    requires a.mixed ==> a.warmPoolBlocks.Some? && a.warmPoolBlocks.value > 0
    ensures DerivePersistentKvBudget(a).Ok? <==> FixedBytes(a) + BytesPerBlock(a.mixed) <= a.totalBudget.value
  {
  }

  lemma {:induction false} TradeBlocks(x: int, more: nat)
    ensures (x - more * WARM_BYTES_PER_SLOT) / BytesPerBlock(true) + more >= x / BytesPerBlock(true)
    ensures (x - more * WARM_BYTES_PER_SLOT) / BytesPerBlock(true) <= x / BytesPerBlock(true)
  {
  }

  /** A WARM slot costs less than a HOT block, so a larger WARM pool never lowers the logical capacity. */
  lemma {:induction false} LargerWarmPoolHoldsMore(a: Arguments, warm: int, b: Budget, c: Budget)
    requires a.mixed && a.warmPoolBlocks.Some? && a.warmPoolBlocks.value <= warm
    requires DerivePersistentKvBudget(a) == Ok(Some(b))
    requires DerivePersistentKvBudget(a.(warmPoolBlocks := Some(warm))) == Ok(Some(c))
    ensures b.numBlocks + a.warmPoolBlocks.value <= c.numBlocks + warm
    ensures c.numBlocks <= b.numBlocks
  {
    var more := warm - a.warmPoolBlocks.value;
    var x := a.totalBudget.value - FixedBytes(a);
    TradeBlocks(x, more);
    assert a.totalBudget.value - FixedBytes(a.(warmPoolBlocks := Some(warm))) == x - more * WARM_BYTES_PER_SLOT;
  }

  datatype Runtime = Runtime(
    numBlocks: int, hotBytes: int, warmBytes: int, mapBytes: int, slotTableBytes: int,
    actual: int, configuredTotal: Option<int>, derivedHot: Option<int>, slack: Option<int>)

  /** validate_runtime_memory_accounting reports nothing. */
  predicate RuntimeValidates(total: Option<int>, b: Option<Budget>, r: Runtime) {
    total.None? || (b.Some?
      && r.numBlocks == b.value.numBlocks && r.hotBytes == b.value.hotBytes && r.warmBytes == b.value.warmBytes
      && r.mapBytes == b.value.mapBytes && r.slotTableBytes == b.value.slotTableBytes && r.actual == b.value.actual
      && r.configuredTotal == total && r.derivedHot == Some(b.value.hotBytes) && r.slack == Some(b.value.slack)
      && r.actual <= total.value)
  }

  /** A runtime that validates against a derived budget stays within it, storage by storage. */
  lemma {:induction false} ValidRuntimeWithinBudget(a: Arguments, b: Budget, r: Runtime)
    requires DerivePersistentKvBudget(a) == Ok(Some(b)) && RuntimeValidates(a.totalBudget, Some(b), r)
    ensures r.hotBytes + r.mapBytes + r.warmBytes + r.slotTableBytes == r.actual <= a.totalBudget.value
    ensures r.actual + BytesPerBlock(a.mixed) > a.totalBudget.value
  {
    BudgetIsExactAndMaximal(a, b);
    assert b.actual + 1 * BytesPerBlock(a.mixed) > a.totalBudget.value;
  }

  /** Runtime figures validate exactly when each of them is the derived one. */
  lemma {:induction false} RuntimeValidatesIff(a: Arguments, b: Budget, r: Runtime)
    requires DerivePersistentKvBudget(a) == Ok(Some(b))
    ensures RuntimeValidates(a.totalBudget, Some(b), r) <==>
      r == Runtime(b.numBlocks, b.hotBytes, b.warmBytes, b.mapBytes, b.slotTableBytes, b.actual,
                   a.totalBudget, Some(b.hotBytes), Some(b.slack))
  {
    BudgetIsExactAndMaximal(a, b);
  }

  // -------------------------------------------------------------- thresholds

  const UTILIZATION_EPS := 0.000000000001

  /** The occupancy, as a real number, at which the utilization is exactly the given one. */
  function Share(hotBlocks: int, utilization: real): real {
    hotBlocks as real * utilization
  }

  function StartThreshold(hotBlocks: int, utilization: real): int {
    if hotBlocks <= 0 || utilization <= 0.0 then 0
    else if utilization >= 1.0 then hotBlocks
    else Min(hotBlocks, Ceil(Share(hotBlocks, utilization) - UTILIZATION_EPS))
  }

  function StopTarget(hotBlocks: int, utilization: real): int {
    if hotBlocks <= 0 || utilization <= 0.0 then 0
    else if utilization >= 1.0 then hotBlocks
    else Min(hotBlocks, (Share(hotBlocks, utilization) + UTILIZATION_EPS).Floor)
  }

  /** How far a product is above the integer below it. */
  function Fraction(x: real): real {
    x - x.Floor as real
  }

  /** n is the smallest occupancy whose share of the blocks is at least the utilization. */
  predicate IsLeastAtOrAbove(n: int, hotBlocks: int, utilization: real) {
    n as real >= Share(hotBlocks, utilization) && (n - 1) as real < Share(hotBlocks, utilization)
  }

  predicate IsGreatestAtOrBelow(n: int, hotBlocks: int, utilization: real) {
    n as real <= Share(hotBlocks, utilization) && (n + 1) as real > Share(hotBlocks, utilization)
  }

  lemma {:induction false} ProductBelow(hotBlocks: int, utilization: real)
    requires hotBlocks > 0 && 0.0 < utilization < 1.0
    ensures 0.0 < Share(hotBlocks, utilization) < hotBlocks as real
  {
  }

  lemma {:induction false} FloorUnique(x: real, n: int)
    requires n as real <= x < n as real + 1.0
    ensures x.Floor == n
  {
  }

  lemma {:induction false} CeilUnique(x: real, n: int)
    requires n as real - 1.0 < x <= n as real
    ensures Ceil(x) == n
  {
    FloorUnique(-x, -n);
  }

  lemma {:induction false} StartOf(hotBlocks: int, x: real, k: int, f: real)
    requires 0.0 < x < hotBlocks as real && x == k as real + f && 0.0 <= f < 1.0
    ensures Fraction(x) == f
    ensures var n := Min(hotBlocks, Ceil(x - UTILIZATION_EPS));
      n as real >= x && (n - 1) as real < x <==> f == 0.0 || f > UTILIZATION_EPS
  {
    FloorUnique(x, k);
    var n := if f > UTILIZATION_EPS then k + 1 else k;
    CeilUnique(x - UTILIZATION_EPS, n);
    assert n <= hotBlocks;
  }

  lemma {:induction false} StopOf(hotBlocks: int, x: real, k: int, f: real)
    requires 0.0 < x < hotBlocks as real && x == k as real + f && 0.0 <= f < 1.0
    ensures Fraction(x) == f
    ensures var n := Min(hotBlocks, (x + UTILIZATION_EPS).Floor);
      n as real <= x && (n + 1) as real > x <==> f < 1.0 - UTILIZATION_EPS
  {
    FloorUnique(x, k);
    var n := if f < 1.0 - UTILIZATION_EPS then k else k + 1;
    FloorUnique(x + UTILIZATION_EPS, n);
    assert n <= hotBlocks;
  }

  /** The tolerance is harmless exactly when the product is whole or more than the tolerance above a whole number. */
  lemma {:induction false} StartIsLeastIff(hotBlocks: int, utilization: real)
    requires hotBlocks > 0 && 0.0 < utilization < 1.0
    ensures var f := Fraction(Share(hotBlocks, utilization));
      IsLeastAtOrAbove(StartThreshold(hotBlocks, utilization), hotBlocks, utilization)
      <==> f == 0.0 || f > UTILIZATION_EPS
  {
    hide Share;
    ProductBelow(hotBlocks, utilization);
    var x := Share(hotBlocks, utilization);
    StartOf(hotBlocks, x, x.Floor, Fraction(x));
  }

  lemma {:induction false} StopIsGreatestIff(hotBlocks: int, utilization: real)
    requires hotBlocks > 0 && 0.0 < utilization < 1.0
    ensures var f := Fraction(Share(hotBlocks, utilization));
      IsGreatestAtOrBelow(StopTarget(hotBlocks, utilization), hotBlocks, utilization)
      <==> f < 1.0 - UTILIZATION_EPS
  {
    hide Share;
    ProductBelow(hotBlocks, utilization);
    var x := Share(hotBlocks, utilization);
    StopOf(hotBlocks, x, x.Floor, Fraction(x));
  }

  lemma {:induction false} CeilAround(x: real, n: int)
    ensures Ceil(x) == n <==> n as real >= x && (n - 1) as real < x
  {
    if n as real >= x && (n - 1) as real < x {
      CeilUnique(x, n);
    }
  }

  /** What the thresholds are at all events: exact up to the tolerance, and at the ends of the range none or all. */
  lemma {:induction false} ThresholdsWithinTolerance(hotBlocks: int, utilization: real)
    ensures hotBlocks <= 0 || utilization <= 0.0 ==>
      StartThreshold(hotBlocks, utilization) == StopTarget(hotBlocks, utilization) == 0
    ensures hotBlocks > 0 && utilization >= 1.0 ==>
      StartThreshold(hotBlocks, utilization) == StopTarget(hotBlocks, utilization) == hotBlocks
    ensures hotBlocks > 0 && 0.0 < utilization < 1.0 ==>
      var x, start, stop := hotBlocks as real * utilization, StartThreshold(hotBlocks, utilization),
                            StopTarget(hotBlocks, utilization);
      && 0 <= start <= hotBlocks && 0 <= stop <= hotBlocks
      && start as real >= x - 0.000000000001 > (start - 1) as real
      && stop as real <= x + 0.000000000001 < (stop + 1) as real + 0.000000000001
  {
    if hotBlocks > 0 && 0.0 < utilization < 1.0 {
      ProductBelow(hotBlocks, utilization);
      CeilAround(Share(hotBlocks, utilization) - UTILIZATION_EPS,
                 Ceil(Share(hotBlocks, utilization) - UTILIZATION_EPS));
    }
  }

  /** A utilization too fine for the tolerance: with one block, any small enough share starts at zero blocks. */
  lemma {:induction false} StartCanBeTooLow()
    ensures !IsLeastAtOrAbove(StartThreshold(1, UTILIZATION_EPS / 2.0), 1, UTILIZATION_EPS / 2.0)
    ensures StartThreshold(1, UTILIZATION_EPS / 2.0) == 0
  {
    StartIsLeastIff(1, UTILIZATION_EPS / 2.0);
  }

  /** Just below full utilization of one block the stop target is the whole block, which is above the share. */
  lemma {:induction false} StopCanBeTooHigh()
    ensures !IsGreatestAtOrBelow(StopTarget(1, 1.0 - UTILIZATION_EPS / 2.0), 1, 1.0 - UTILIZATION_EPS / 2.0)
    ensures StopTarget(1, 1.0 - UTILIZATION_EPS / 2.0) == 1
  {
    var u := 1.0 - UTILIZATION_EPS / 2.0;
    FloorUnique(Share(1, u), 0);
    FloorUnique(Share(1, u) + UTILIZATION_EPS, 1);
    StopIsGreatestIff(1, u);
  }

  lemma {:induction false} SharesAdd(p: int, den: int, q: int, r: int)
    requires den > 0 && p == q * den + r
    ensures p as real / den as real == q as real + r as real / den as real
  {
    var d := den as real;
    assert p as real == q as real * d + r as real;
    assert (q as real * d) / d == q as real;
  }

  lemma {:induction false} RegroupProduct(h: real, n: real, d: real)
    requires d > 0.0
    ensures h * (n / d) == (h * n) / d
  {
  }

  lemma {:induction false} UnitAboveTolerance(d: real)
    requires 1.0 <= d < 1_000_000_000_000.0
    ensures 1.0 / d > UTILIZATION_EPS
  {
  }

  lemma {:induction false} PartInRange(r: int, den: int)
    requires 0 <= r < den < 1_000_000_000_000
    ensures var part := r as real / den as real;
      && 0.0 <= part < 1.0 - UTILIZATION_EPS
      && (part == 0.0 || part > UTILIZATION_EPS)
  {
    var d := den as real;
    UnitAboveTolerance(d);
    if r > 0 {
      LargerPart(1.0, r as real, d);
    }
    LargerPart(r as real, d - 1.0, d);
    assert (d - 1.0) / d == 1.0 - 1.0 / d;
  }

  lemma {:induction false} LargerPart(a: real, b: real, d: real)
    requires 0.0 <= a <= b && d > 0.0
    ensures 0.0 <= a / d <= b / d
  {
  }

  lemma {:induction false} RatioShare(hotBlocks: int, num: int, den: int)
    requires hotBlocks > 0 && 0 < num < den
    ensures var p := hotBlocks * num;
      Share(hotBlocks, num as real / den as real) == (p / den) as real + (p % den) as real / den as real
  {
    var p := hotBlocks * num;
    assert p == p / den * den + p % den;
    SharesAdd(p, den, p / den, p % den);
    RegroupProduct(hotBlocks as real, num as real, den as real);
    ProductAsReal(hotBlocks, num);
  }

  lemma {:induction false} RationalFraction(hotBlocks: int, num: int, den: int)
    requires hotBlocks > 0 && 0 < num < den < 1_000_000_000_000
    ensures var f := Fraction(Share(hotBlocks, num as real / den as real));
      (f == 0.0 || f > UTILIZATION_EPS) && f < 1.0 - UTILIZATION_EPS
  {
    hide Share;
    var p := hotBlocks * num;
    var part := (p % den) as real / den as real;
    PartInRange(p % den, den);
    RatioShare(hotBlocks, num, den);
    FloorUnique((p / den) as real + part, p / den);
  }

  lemma {:induction false} ProductAsReal(a: int, b: int)
    ensures (a * b) as real == a as real * b as real
  {
  }

  lemma {:induction false} RatioInside(num: int, den: int)
    requires 0 < num < den
    ensures 0.0 < num as real / den as real < 1.0
  {
  }

  /** For every ratio of integers below a million million both thresholds are exact. */
  lemma {:induction false} ThresholdsExactForRatios(hotBlocks: int, num: int, den: int)
    requires hotBlocks > 0 && 0 < num < den < 1_000_000_000_000
    ensures var u := num as real / den as real;
      && IsLeastAtOrAbove(StartThreshold(hotBlocks, u), hotBlocks, u)
      && IsGreatestAtOrBelow(StopTarget(hotBlocks, u), hotBlocks, u)
  {
    hide IsLeastAtOrAbove, IsGreatestAtOrBelow, StartThreshold, StopTarget, Fraction, Share;
    var u := num as real / den as real;
    RatioInside(num, den);
    RationalFraction(hotBlocks, num, den);
    StartIsLeastIff(hotBlocks, u);
    StopIsGreatestIff(hotBlocks, u);
  }

  // ---------------------------------------------------------------- pressure

  datatype Pressure = Pressure(
    startBlocks: int, stopBlocks: int, toDemote: int, canHold: bool, demotable: int, hotAfter: int,
    wouldStart: bool, allHotExceeded: bool, mixedTotalExceeded: bool)

  function PolicyAwarePressure(
      peak: int, mixedHot: int, warmPool: int, start: real, stop: real, allHot: int): Pressure
  {
    var startBlocks, stopBlocks := StartThreshold(mixedHot, start), StopTarget(mixedHot, stop);
    var toDemote := Max(0, peak - stopBlocks);
    var demotable := Min(toDemote, warmPool);
    Pressure(startBlocks, stopBlocks, toDemote, toDemote <= warmPool, demotable, peak - demotable,
             peak >= startBlocks && startBlocks > 0, peak > allHot, peak > mixedHot + warmPool)
  }

  /** The projected pressure: what has to go, what can, what is left, and which limits the peak is above. */
  lemma {:induction false} PressureOf(peak: int, mixedHot: int, warmPool: nat, start: real, stop: real, allHot: int)
    ensures var p := PolicyAwarePressure(peak, mixedHot, warmPool, start, stop, allHot);
      && p.startBlocks == StartThreshold(mixedHot, start) && p.stopBlocks == StopTarget(mixedHot, stop)
      && (peak <= p.stopBlocks ==> p.toDemote == 0 && p.hotAfter == peak)
      && (peak > p.stopBlocks ==> p.stopBlocks + p.toDemote == peak)
      && (p.canHold ==> p.demotable == p.toDemote) && (!p.canHold ==> p.demotable == warmPool < p.toDemote)
      && (p.wouldStart <==> 0 < p.startBlocks <= peak)
      && (p.allHotExceeded <==> allHot < peak)
      && (p.mixedTotalExceeded <==> mixedHot + warmPool < peak)
  {
  }

  /** Demotion moves blocks and loses none, and reaches the stop target exactly when the WARM pool has room. */
  lemma {:induction false} DemotionBalances(
      peak: int, mixedHot: int, warmPool: nat, start: real, stop: real, allHot: int)
    ensures var p := PolicyAwarePressure(peak, mixedHot, warmPool, start, stop, allHot);
      && p.demotable + p.hotAfter == peak
      && 0 <= p.demotable <= warmPool
      && (p.hotAfter <= p.stopBlocks <==> p.canHold)
      && (p.mixedTotalExceeded ==> p.hotAfter > mixedHot)
  {
  }
}
