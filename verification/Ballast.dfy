/** The ballast planner and the capacity report of hkv_gsm8k.py. */
module Ballast {
  import opened Sequences
  import opened TraceRecords

  datatype PlanError = NegativeMargin | NegativeGeneration | ModelLenNotPositive | NegativeSessions

  datatype Reason =
    | NoBallastSessions | RequestTooLong | NoRoomForBallast
    | PromptTooLong | EmptyPrompt | NoHistoricalBlock | NoBudget
    | Turn1ExceedsHot | HistoryExceedsWarm | SessionExceedsWarm | TooManySequences

  // --------------------------------------------------------------- dividing

  /** divide_blocks_across_sessions: the first sessions take one block more until the remainder is gone. */
  function DivideBlocks(total: nat, sessions: nat): (shares: seq<nat>)
    ensures |shares| == sessions
  {
    if sessions == 0 then []
    else seq(sessions, i requires 0 <= i < sessions => total / sessions + if i < total % sessions then 1 else 0)
  }

  function Total(xs: seq<int>): int {
    if xs == [] then 0 else Total(xs[..|xs| - 1]) + xs[|xs| - 1]
  }

  lemma {:induction false} SharesSum(shares: seq<nat>, n: nat, base: nat, remainder: nat)
    requires n <= |shares| && forall i | 0 <= i < n :: shares[i] == base + if i < remainder then 1 else 0
    ensures Total(shares[..n]) == n * base + if n < remainder then n else remainder
  {
    if n > 0 {
      SharesSum(shares, n - 1, base, remainder);
      assert shares[..n][..n - 1] == shares[..n - 1];
      assert n * base == (n - 1) * base + base;
    }
  }

  /** The shares add up to the blocks, differ by at most one, and never grow. */
  lemma {:induction false} SharesAreEven(total: nat, sessions: nat)
    requires sessions > 0
    ensures Total(DivideBlocks(total, sessions)) == total
    ensures forall i, j | 0 <= i <= j < sessions ::
      0 <= DivideBlocks(total, sessions)[i] - DivideBlocks(total, sessions)[j] <= 1
  {
    var shares := DivideBlocks(total, sessions);
    assert shares[..sessions] == shares;
    SharesSum(shares, sessions, total / sessions, total % sessions);
    assert total == sessions * (total / sessions) + total % sessions;
  }

  // ---------------------------------------------------------------- planning

  datatype Request = Request(blocks: nat, promptTokens: nat, generationTokens: int)

  datatype BallastPlan = BallastPlan(
    pressureTarget: Option<int>, targetHot: Option<int>, required: nat,
    requests: seq<Request>, estimatedPeak: int, maxRequestTokens: int, reasons: seq<Reason>)

  function When(c: bool, r: Reason): seq<Reason> {
    if c then [r] else []
  }

  function RequestFor(blocks: nat, generationTokens: int): Request {
    Request(blocks, blocks * BLOCK_SIZE, if blocks > 0 then generationTokens else 0)
  }

  function Requests(shares: seq<nat>, generationTokens: int): (requests: seq<Request>)
    ensures |requests| == |shares|
    ensures forall i | 0 <= i < |shares| :: requests[i] == RequestFor(shares[i], generationTokens)
  {
    seq(|shares|, i requires 0 <= i < |shares| => RequestFor(shares[i], generationTokens))
  }

  function TotalTokens(r: Request): int {
    r.promptTokens + r.generationTokens
  }

  /** The longest request that is launched; one of no blocks is not. */
  function LongestLaunched(requests: seq<Request>): (tokens: int)
    ensures forall r | r in requests && r.blocks > 0 :: TotalTokens(r) <= tokens
  {
    if requests == [] then 0
    else
      assert requests == [requests[0]] + requests[1..];
      Max(LongestLaunched(requests[1..]), if requests[0].blocks > 0 then TotalTokens(requests[0]) else 0)
  }

  predicate AnyLaunched(requests: seq<Request>) {
    exists r | r in requests :: r.blocks > 0
  }

  /** The occupancy at which demotion starts. */
  function Demand(start: Option<real>, usableHot: Option<int>): (blocks: Option<int>)
    ensures blocks.None? <==> start.None? || usableHot.None?
  {
    if start.None? || usableHot.None? then None else Some(Ceil(start.value * usableHot.value as real))
  }

  function PlanBallastAllocation(
      mixed: bool, usableHot: Option<int>, start: Option<real>, hotTurn1: int, sessions: int,
      maxModelLen: int, margin: int, generationTokens: int): Result<BallastPlan, PlanError>
  {
    if margin < 0 then Err(NegativeMargin)
    else if generationTokens < 0 then Err(NegativeGeneration)
    else if maxModelLen <= 0 then Err(ModelLenNotPositive)
    else if mixed && sessions < 0 then Err(NegativeSessions)
    else
      var pressure := Demand(start, usableHot);
      var target := if pressure.None? then None else Some(pressure.value + margin);
      var required: nat := if mixed && target.Some? && hotTurn1 < target.value then target.value - hotTurn1 else 0;
      var shares := DivideBlocks(required, if mixed then sessions else 0);
      var requests := Requests(shares, generationTokens);
      var longest := LongestLaunched(requests);
      var reasons :=
        When(mixed && sessions <= 0, NoBallastSessions)
        + When(AnyLaunched(requests) && longest > maxModelLen, RequestTooLong)
        + When(mixed && usableHot.Some? && required > Max(usableHot.value - hotTurn1, 0), NoRoomForBallast);
      Ok(BallastPlan(pressure, target, required, requests, hotTurn1 + Total(shares), longest, reasons))
  }

  // ----------------------------------------------------------------- report

  datatype PromptPlan = PromptPlan(turn1Tokens: int, turn2Tokens: int, completeBlocks: int, hotBlocksTurn1: int)

  datatype CapacityReport = CapacityReport(
    totalComplete: int, totalHotTurn1: int, usableHot: Option<int>, plan: BallastPlan, reasons: seq<Reason>)
  {
    predicate Feasible() { reasons == [] }
  }

  function CompleteBlocks(): PromptPlan -> int {
    (p: PromptPlan) => p.completeBlocks
  }

  function HotBlocksTurn1(): PromptPlan -> int {
    (p: PromptPlan) => p.hotBlocksTurn1
  }

  function TotalComplete(plans: seq<PromptPlan>): int {
    if plans == [] then 0 else TotalComplete(plans[1..]) + plans[0].completeBlocks
  }

  function TotalHotTurn1(plans: seq<PromptPlan>): int {
    if plans == [] then 0 else TotalHotTurn1(plans[1..]) + plans[0].hotBlocksTurn1
  }

  /** What is wrong with the prompts themselves. */
  function PromptReasons(plans: seq<PromptPlan>, maxModelLen: int): (reasons: seq<Reason>)
    ensures PromptTooLong in reasons <==> exists p :: p in plans && p.turn1Tokens + p.turn2Tokens > maxModelLen
    ensures EmptyPrompt in reasons <==> exists p :: p in plans && p.turn1Tokens <= 0
    ensures forall r | r in reasons :: r in {PromptTooLong, EmptyPrompt}
  {
    When(exists p | p in plans :: p.turn1Tokens + p.turn2Tokens > maxModelLen, PromptTooLong)
    + When(exists p | p in plans :: p.turn1Tokens <= 0, EmptyPrompt)
  }

  /** What does not fit the pools in mixed mode. */
  function CapacityReasons(plans: seq<PromptPlan>, complete: int, hot: int, usable: Option<int>, warmPool: int)
    : (reasons: seq<Reason>)
    ensures NoBudget in reasons <==> usable.None?
    ensures Turn1ExceedsHot in reasons <==> usable.Some? && hot > usable.value
    ensures HistoryExceedsWarm in reasons <==> usable.Some? && complete > warmPool
    ensures SessionExceedsWarm in reasons <==> usable.Some? && exists p :: p in plans && p.completeBlocks > warmPool
    ensures forall r | r in reasons :: r in {NoBudget, Turn1ExceedsHot, HistoryExceedsWarm, SessionExceedsWarm}
  {
    if usable.None? then [NoBudget]
    else
      When(hot > usable.value, Turn1ExceedsHot)
      + When(complete > warmPool, HistoryExceedsWarm)
      + When(exists p | p in plans :: p.completeBlocks > warmPool, SessionExceedsWarm)
  }

  /** What is wrong in mixed mode besides the ballast. */
  function MixedReasons(
      plans: seq<PromptPlan>, complete: int, hot: int, usable: Option<int>, warmPool: int,
      sessions: int, maxNumSeqs: int): seq<Reason>
  {
    When(exists p | p in plans :: p.completeBlocks <= 0, NoHistoricalBlock)
    + CapacityReasons(plans, complete, hot, usable, warmPool)
    + When(|plans| + Max(sessions, 0) > maxNumSeqs, TooManySequences)
  }

  lemma {:induction false} MixedReasonsOf(
      plans: seq<PromptPlan>, complete: int, hot: int, usable: Option<int>, warmPool: int,
      sessions: int, maxNumSeqs: int)
    ensures var reasons := MixedReasons(plans, complete, hot, usable, warmPool, sessions, maxNumSeqs);
      && (NoHistoricalBlock in reasons <==> exists p :: p in plans && p.completeBlocks <= 0)
      && (TooManySequences in reasons <==> |plans| + Max(sessions, 0) > maxNumSeqs)
      && (forall r | r in {NoBudget, Turn1ExceedsHot, HistoryExceedsWarm, SessionExceedsWarm} ::
            r in reasons <==> r in CapacityReasons(plans, complete, hot, usable, warmPool))
      && forall r | r in reasons ::
           r in {NoHistoricalBlock, TooManySequences, NoBudget, Turn1ExceedsHot, HistoryExceedsWarm, SessionExceedsWarm}
  {
    hide CapacityReasons;
  }

  function BuildCapacityReport(
      plans: seq<PromptPlan>, mixed: bool, derivedHot: Option<int>, warmPool: int, start: Option<real>,
      sessions: int, maxNumSeqs: int, maxModelLen: int, margin: int, generationTokens: int)
    : Result<CapacityReport, PlanError>
  {
    var complete, hot := TotalComplete(plans), TotalHotTurn1(plans);
    var usable := if derivedHot.None? then None else Some(Max(derivedHot.value - 1, 0));
    var ballast := PlanBallastAllocation(mixed, usable, start, hot, sessions, maxModelLen, margin, generationTokens);
    if ballast.Err? then Err(ballast.error)
    else
      var own :=
        if mixed then
          MixedReasons(plans, complete, hot, usable, warmPool, sessions, maxNumSeqs) + ballast.value.reasons
        else if usable.Some? then When(hot > usable.value, Turn1ExceedsHot)
        else [];
      Ok(CapacityReport(complete, hot, usable, ballast.value, PromptReasons(plans, maxModelLen) + own))
  }

  /** What an unopposed mixed plan amounts to. */
  lemma {:induction false} UnopposedPlan(
      usableHot: int, start: real, hotTurn1: int, sessions: int, maxModelLen: int, margin: int,
      generationTokens: int, p: BallastPlan)
    requires PlanBallastAllocation(true, Some(usableHot), Some(start), hotTurn1, sessions, maxModelLen,
                                   margin, generationTokens) == Ok(p)
    requires p.reasons == []
    ensures sessions > 0 && p.requests == Requests(DivideBlocks(p.required, sessions), generationTokens)
    ensures p.estimatedPeak == hotTurn1 + Total(DivideBlocks(p.required, sessions))
    ensures Demand(Some(start), Some(usableHot)).value + margin <= hotTurn1 + p.required
    ensures p.required > 0 ==> hotTurn1 + p.required == Demand(Some(start), Some(usableHot)).value + margin
    ensures p.required <= Max(usableHot - hotTurn1, 0)
    ensures AnyLaunched(p.requests) ==> LongestLaunched(p.requests) <= maxModelLen
  {
    hide LongestLaunched, Total, DivideBlocks, Requests, AnyLaunched, Demand;
  }

  /** Each request holds its share of blocks in tokens, and generates only if it holds any. */
  lemma {:induction false} RequestsHoldShares(shares: seq<nat>, generationTokens: int, i: nat)
    requires i < |shares|
    ensures var q := Requests(shares, generationTokens)[i];
      && q.blocks == shares[i] && q.promptTokens == 16 * q.blocks
      && q.generationTokens == (if q.blocks > 0 then generationTokens else 0)
      && TotalTokens(q) == q.promptTokens + q.generationTokens
  {
  }

  /** The longest launched request is one of them, and none is longer. */
  lemma {:induction false} LongestIsLaunched(requests: seq<Request>)
    requires forall r | r in requests :: TotalTokens(r) >= 0
    ensures AnyLaunched(requests) ==>
      exists r :: r in requests && r.blocks > 0 && TotalTokens(r) == LongestLaunched(requests)
    ensures !AnyLaunched(requests) ==> LongestLaunched(requests) == 0
    ensures LongestLaunched(requests) >= 0
  {
    if requests != [] {
      var rest := requests[1..];
      LongestIsLaunched(rest);
      assert forall r | r in rest :: r in requests;
      assert forall r | r in requests :: r == requests[0] || r in rest;
    }
  }

  /**
    What any plan is: the blocks that are missing to the threshold and its margin, shared out among the
    ballast sessions in mixed mode, and the reasons against it, each exactly when it applies.
   */
  lemma {:induction false} PlanOf(
      mixed: bool, usableHot: Option<int>, start: Option<real>, hotTurn1: int, sessions: int,
      maxModelLen: int, margin: int, generationTokens: int, p: BallastPlan)
    requires PlanBallastAllocation(mixed, usableHot, start, hotTurn1, sessions, maxModelLen,
                                   margin, generationTokens) == Ok(p)
    ensures p.pressureTarget.Some? <==> start.Some? && usableHot.Some?
    ensures p.pressureTarget.Some? ==>
      && p.pressureTarget.value as real >= start.value * usableHot.value as real
      && (p.pressureTarget.value - 1) as real < start.value * usableHot.value as real
      && p.targetHot == Some(p.pressureTarget.value + margin)
    ensures !mixed || p.pressureTarget.None? ==> p.required == 0
    ensures mixed && p.pressureTarget.Some? ==>
      && (hotTurn1 >= p.targetHot.value ==> p.required == 0)
      && (hotTurn1 < p.targetHot.value ==> hotTurn1 + p.required == p.targetHot.value)
    ensures mixed ==> sessions >= 0 && p.requests == Requests(DivideBlocks(p.required, sessions), generationTokens)
    ensures !mixed ==> p.requests == [] && p.reasons == [] && p.estimatedPeak == hotTurn1
    ensures mixed && sessions > 0 ==> p.estimatedPeak == hotTurn1 + p.required
    ensures p.maxRequestTokens == LongestLaunched(p.requests)
    ensures NoBallastSessions in p.reasons <==> mixed && sessions <= 0
    ensures RequestTooLong in p.reasons <==> AnyLaunched(p.requests) && LongestLaunched(p.requests) > maxModelLen
    ensures NoRoomForBallast in p.reasons <==>
      mixed && usableHot.Some? && p.required > 0 && hotTurn1 + p.required > usableHot.value
    ensures forall r | r in p.reasons :: r in {NoBallastSessions, RequestTooLong, NoRoomForBallast}
  {
    hide LongestLaunched, DivideBlocks, Requests, AnyLaunched, Total;
    if mixed && sessions > 0 {
      SharesAreEven(p.required, sessions);
    }
    if !mixed {
      NothingToLaunch(generationTokens);
    }
  }

  lemma {:induction false} NothingToLaunch(generationTokens: int)
    ensures DivideBlocks(0, 0) == [] && Requests([], generationTokens) == [] && Total([]) == 0
    ensures !AnyLaunched([]) && LongestLaunched([]) == 0
  {
  }

  /** Which of the planner's arguments are refused. */
  lemma {:induction false} PlanErrors(
      mixed: bool, usableHot: Option<int>, start: Option<real>, hotTurn1: int, sessions: int,
      maxModelLen: int, margin: int, generationTokens: int)
    ensures var r := PlanBallastAllocation(mixed, usableHot, start, hotTurn1, sessions, maxModelLen,
                                           margin, generationTokens);
      && (r == Err(NegativeMargin) <==> margin < 0)
      && (r == Err(NegativeGeneration) <==> generationTokens < 0 <= margin)
      && (r == Err(ModelLenNotPositive) <==> maxModelLen <= 0 <= generationTokens && 0 <= margin)
      && (r == Err(NegativeSessions) <==>
            mixed && sessions < 0 && 0 < maxModelLen && 0 <= generationTokens && 0 <= margin)
  {
  }

  /** A mixed plan with a start threshold and nothing against it. */
  lemma {:induction false} PlanIsSafe(
      usableHot: int, start: real, hotTurn1: int, sessions: int, maxModelLen: int, margin: int,
      generationTokens: int, p: BallastPlan)
    requires PlanBallastAllocation(true, Some(usableHot), Some(start), hotTurn1, sessions, maxModelLen,
                                   margin, generationTokens) == Ok(p)
    requires p.reasons == []
    ensures sessions > 0 && |p.requests| == sessions
    ensures start * usableHot as real + margin as real <= p.estimatedPeak as real
    ensures hotTurn1 <= usableHot ==> p.estimatedPeak <= usableHot
    ensures p.estimatedPeak == hotTurn1 + p.required && TotalBlocks(p.requests) == p.required
    ensures forall i, j | 0 <= i <= j < sessions :: 0 <= p.requests[i].blocks - p.requests[j].blocks <= 1
    ensures forall q | q in p.requests && q.blocks > 0 :: TotalTokens(q) <= maxModelLen
  {
    hide PlanBallastAllocation, LongestLaunched, Total, DivideBlocks;
    UnopposedPlan(usableHot, start, hotTurn1, sessions, maxModelLen, margin, generationTokens, p);
    SharesAreEven(p.required, sessions);
    BlocksOfRequests(DivideBlocks(p.required, sessions), generationTokens);
    forall q | q in p.requests && q.blocks > 0
      ensures TotalTokens(q) <= maxModelLen
    {
      assert AnyLaunched(p.requests);
    }
  }

  lemma {:induction false} NothingAgainstReport(
      plans: seq<PromptPlan>, derivedHot: Option<int>, warmPool: int, start: real,
      sessions: int, maxNumSeqs: int, maxModelLen: int, margin: int, generationTokens: int, r: CapacityReport)
    requires BuildCapacityReport(plans, true, derivedHot, warmPool, Some(start), sessions, maxNumSeqs,
                                 maxModelLen, margin, generationTokens) == Ok(r)
    requires r.Feasible()
    ensures derivedHot.Some? && r.usableHot == Some(Max(derivedHot.value - 1, 0)) && r.plan.reasons == []
    ensures PlanBallastAllocation(true, r.usableHot, Some(start), r.totalHotTurn1, sessions, maxModelLen,
                                  margin, generationTokens) == Ok(r.plan)
    ensures r.totalHotTurn1 == TotalHotTurn1(plans) <= r.usableHot.value
    ensures r.totalComplete == TotalComplete(plans) <= warmPool
    ensures forall p | p in plans :: 0 < p.turn1Tokens && p.turn1Tokens + p.turn2Tokens <= maxModelLen
    ensures forall p | p in plans :: 0 < p.completeBlocks <= warmPool
    ensures |plans| + Max(sessions, 0) <= maxNumSeqs
  {
    hide PlanBallastAllocation, TotalComplete, TotalHotTurn1, PromptReasons, CapacityReasons, MixedReasons;
    var own := MixedReasons(plans, r.totalComplete, r.totalHotTurn1, r.usableHot, warmPool, sessions, maxNumSeqs);
    MixedReasonsOf(plans, r.totalComplete, r.totalHotTurn1, r.usableHot, warmPool, sessions, maxNumSeqs);
    assert PromptReasons(plans, maxModelLen) == [] && own == [];
    assert NoBudget !in own && HistoryExceedsWarm !in own && Turn1ExceedsHot !in own && SessionExceedsWarm !in own;
  }

  /** A feasible mixed report with a start threshold keeps every promise the experiment relies on. */
  lemma {:induction false} FeasibleReportIsSafe(
      plans: seq<PromptPlan>, derivedHot: Option<int>, warmPool: int, start: real,
      sessions: int, maxNumSeqs: int, maxModelLen: int, margin: int, generationTokens: int, r: CapacityReport)
    requires BuildCapacityReport(plans, true, derivedHot, warmPool, Some(start), sessions, maxNumSeqs,
                                 maxModelLen, margin, generationTokens) == Ok(r)
    requires r.Feasible()
    ensures sessions > 0 && |r.plan.requests| == sessions
    ensures r.usableHot.Some?
    ensures start * r.usableHot.value as real + margin as real <= r.plan.estimatedPeak as real
    ensures r.plan.estimatedPeak <= r.usableHot.value
    ensures r.plan.estimatedPeak == r.totalHotTurn1 + r.plan.required
    ensures TotalBlocks(r.plan.requests) == r.plan.required
    ensures forall i, j | 0 <= i <= j < sessions :: 0 <= r.plan.requests[i].blocks - r.plan.requests[j].blocks <= 1
    ensures forall q | q in r.plan.requests && q.blocks > 0 :: TotalTokens(q) <= maxModelLen
    ensures forall p | p in plans :: 0 < p.turn1Tokens && p.turn1Tokens + p.turn2Tokens <= maxModelLen
    ensures Sum(CompleteBlocks(), plans) <= warmPool
    ensures Sum(HotBlocksTurn1(), plans) == r.totalHotTurn1 <= r.usableHot.value
    ensures derivedHot.Some? && r.usableHot.value == Max(derivedHot.value - 1, 0)
    ensures r.totalComplete <= warmPool && forall p | p in plans :: 0 < p.completeBlocks <= warmPool
    ensures |plans| + sessions <= maxNumSeqs
  {
    hide PlanBallastAllocation, BuildCapacityReport, TotalComplete, TotalHotTurn1, Sum, TotalBlocks;
    TotalsAreSums(plans);
    NothingAgainstReport(plans, derivedHot, warmPool, start, sessions, maxNumSeqs, maxModelLen, margin,
                         generationTokens, r);
    PlanIsSafe(r.usableHot.value, start, r.totalHotTurn1, sessions, maxModelLen, margin, generationTokens, r.plan);
  }

  lemma {:induction false} TotalsAreSums(plans: seq<PromptPlan>)
    ensures TotalComplete(plans) == Sum(CompleteBlocks(), plans)
    ensures TotalHotTurn1(plans) == Sum(HotBlocksTurn1(), plans)
  {
    if plans != [] {
      TotalsAreSums(plans[1..]);
    }
  }

  /** Why a report refuses: each reason exactly when it applies, so a report is feasible when none does. */
  lemma {:induction false} ReportReasons(
      plans: seq<PromptPlan>, mixed: bool, derivedHot: Option<int>, warmPool: int, start: Option<real>,
      sessions: int, maxNumSeqs: int, maxModelLen: int, margin: int, generationTokens: int, r: CapacityReport)
    requires BuildCapacityReport(plans, mixed, derivedHot, warmPool, start, sessions, maxNumSeqs,
                                 maxModelLen, margin, generationTokens) == Ok(r)
    ensures r.Feasible() <==> r.reasons == []
    ensures PromptTooLong in r.reasons <==> exists p :: p in plans && p.turn1Tokens + p.turn2Tokens > maxModelLen
    ensures EmptyPrompt in r.reasons <==> exists p :: p in plans && p.turn1Tokens <= 0
    ensures NoHistoricalBlock in r.reasons <==> mixed && exists p :: p in plans && p.completeBlocks <= 0
    ensures NoBudget in r.reasons <==> mixed && derivedHot.None?
    ensures Turn1ExceedsHot in r.reasons <==>
      derivedHot.Some? && r.totalHotTurn1 > 0 && r.totalHotTurn1 > derivedHot.value - 1
    ensures HistoryExceedsWarm in r.reasons <==> mixed && derivedHot.Some? && r.totalComplete > warmPool
    ensures SessionExceedsWarm in r.reasons <==>
      mixed && derivedHot.Some? && exists p :: p in plans && p.completeBlocks > warmPool
    ensures TooManySequences in r.reasons <==> mixed && |plans| + Max(sessions, 0) > maxNumSeqs
    ensures forall q :: q in {NoBallastSessions, RequestTooLong, NoRoomForBallast} ==>
      (q in r.reasons <==> q in r.plan.reasons)
  {
    hide PlanBallastAllocation, TotalComplete, TotalHotTurn1, PromptReasons, CapacityReasons, MixedReasons;
    MixedReasonsOf(plans, r.totalComplete, r.totalHotTurn1, r.usableHot, warmPool, sessions, maxNumSeqs);
    PlanReasons(mixed, r.usableHot, start, r.totalHotTurn1, sessions, maxModelLen, margin, generationTokens, r.plan);
  }

  lemma {:induction false} PlanReasons(
      mixed: bool, usableHot: Option<int>, start: Option<real>, hotTurn1: int, sessions: int,
      maxModelLen: int, margin: int, generationTokens: int, p: BallastPlan)
    requires PlanBallastAllocation(mixed, usableHot, start, hotTurn1, sessions, maxModelLen,
                                   margin, generationTokens) == Ok(p)
    ensures forall r | r in p.reasons :: r in {NoBallastSessions, RequestTooLong, NoRoomForBallast}
    ensures !mixed ==> p.reasons == []
  {
    PlanOf(mixed, usableHot, start, hotTurn1, sessions, maxModelLen, margin, generationTokens, p);
  }

  function TotalBlocks(requests: seq<Request>): int {
    if requests == [] then 0 else TotalBlocks(requests[..|requests| - 1]) + requests[|requests| - 1].blocks
  }

  lemma {:induction false} BlocksOfRequests(shares: seq<nat>, generationTokens: int)
    ensures TotalBlocks(Requests(shares, generationTokens)) == Total(shares)
  {
    if shares != [] {
      BlocksOfRequests(shares[..|shares| - 1], generationTokens);
      assert Requests(shares, generationTokens)[..|shares| - 1] == Requests(shares[..|shares| - 1], generationTokens);
    }
  }
}
