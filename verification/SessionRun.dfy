/**
  run_session of run_qwen_bailian_replay.py: the turns of one session are sent one by one while a
  single stream of outputs comes back, and each output is attributed to a turn by counting finishes.
 */
module SessionRun {
  import opened Sequences
  import opened TraceRecords
  import opened Grouping
  import opened Reconstruction
  import opened ReplayPlan

  const SAMPLE_SIZE := 16

  type Moment = Option<real>

  /** One engine output that carries a completion; an empty reason is no reason. */
  datatype Output = Output(tokens: seq<int>, reason: string, now: real, finishedNow: real)

  datatype Event = Sent(now: real) | Received(output: Output) | Nothing

  datatype TurnResult = TurnResult(
    chatId: int, turn: int, scheduledSend: real, actualSend: real, lateness: real,
    firstOutput: real, finished: real, ttft: real, latency: real,
    generatedTokens: nat, tokenIds: seq<int>, isResume: bool, finishReason: string)

  datatype SessionResult = SessionResult(
    root: int, turns: nat, scheduledFirst: real, scheduledLast: real,
    generatedTokens: nat, completedTurns: nat,
    firstOutput: Option<real>, finished: real, maxLateness: real,
    sample: seq<int>, turnResults: seq<TurnResult>)

  // ------------------------------------------------------------ attribution

  /** How many outputs of the stream finish a turn. */
  function Finishes(outputs: seq<Output>): nat {
    if outputs == [] then 0
    else Finishes(outputs[..|outputs| - 1]) + if outputs[|outputs| - 1].reason != "" then 1 else 0
  }

  /** The tokens that arrive while exactly i turns have finished. */
  function TurnTokens(outputs: seq<Output>, i: nat): seq<int> {
    if outputs == [] then []
    else
      var rest := outputs[..|outputs| - 1];
      TurnTokens(rest, i) + if Finishes(rest) == i then outputs[|outputs| - 1].tokens else []
  }

  function AllTokens(outputs: seq<Output>): seq<int> {
    if outputs == [] then [] else AllTokens(outputs[..|outputs| - 1]) + outputs[|outputs| - 1].tokens
  }

  /** The tokens that arrive when n turns have finished. */
  function LaterTokens(outputs: seq<Output>, n: nat): seq<int> {
    if outputs == [] then []
    else
      var rest := outputs[..|outputs| - 1];
      LaterTokens(rest, n) + if Finishes(rest) >= n then outputs[|outputs| - 1].tokens else []
  }

  /** The token lists of the first n turns, end to end. */
  function TokensOfTurns(outputs: seq<Output>, n: nat): seq<int> {
    if n == 0 then [] else TokensOfTurns(outputs, n - 1) + TurnTokens(outputs, n - 1)
  }

  lemma {:induction false} NoTokensAhead(outputs: seq<Output>, i: nat)
    requires Finishes(outputs) < i
    ensures TurnTokens(outputs, i) == []
  {
    if outputs != [] {
      NoTokensAhead(outputs[..|outputs| - 1], i);
    }
  }

  lemma {:induction false} NothingLater(outputs: seq<Output>, n: nat)
    requires Finishes(outputs) < n
    ensures LaterTokens(outputs, n) == []
  {
    if outputs != [] {
      NothingLater(outputs[..|outputs| - 1], n);
    }
  }

  lemma {:induction false} Snoc(rest: seq<Output>, o: Output)
    ensures Finishes(rest + [o]) == Finishes(rest) + if o.reason != "" then 1 else 0
    ensures AllTokens(rest + [o]) == AllTokens(rest) + o.tokens
    ensures forall i: nat ::
      TurnTokens(rest + [o], i) == TurnTokens(rest, i) + if Finishes(rest) == i then o.tokens else []
    ensures forall n: nat ::
      LaterTokens(rest + [o], n) == LaterTokens(rest, n) + if Finishes(rest) >= n then o.tokens else []
  {
    assert (rest + [o])[..|rest|] == rest;
  }

  lemma {:induction false} SnocTurn(rest: seq<Output>, o: Output, i: nat)
    ensures TurnTokens(rest + [o], i) == TurnTokens(rest, i) + if Finishes(rest) == i then o.tokens else []
  {
    assert (rest + [o])[..|rest|] == rest;
  }

  lemma {:induction false} OneMoreOutput(rest: seq<Output>, o: Output, n: nat)
    ensures TokensOfTurns(rest + [o], n) == TokensOfTurns(rest, n) + if Finishes(rest) < n then o.tokens else []
  {
    hide TurnTokens, Finishes;
    if n > 0 {
      OneMoreOutput(rest, o, n - 1);
      SnocTurn(rest, o, n - 1);
      if Finishes(rest) < n - 1 {
        NoTokensAhead(rest, n - 1);
        assert TokensOfTurns(rest, n) == TokensOfTurns(rest, n - 1);
      } else {
        assert TokensOfTurns(rest + [o], n) == TokensOfTurns(rest, n - 1) + TurnTokens(rest + [o], n - 1);
      }
    }
  }

  /** No token is lost, duplicated or moved: turn by turn the lists spell the stream, then come the later tokens. */
  lemma {:induction false} TurnsSpellTheStream(outputs: seq<Output>, n: nat)
    ensures TokensOfTurns(outputs, n) + LaterTokens(outputs, n) == AllTokens(outputs)
  {
    if outputs == [] {
      NoTurnsNoTokens(n);
    } else {
      var rest, o := outputs[..|outputs| - 1], outputs[|outputs| - 1];
      assert outputs == rest + [o];
      TurnsSpellTheStream(rest, n);
      SpellOneMore(rest, o, n);
    }
  }

  lemma {:induction false} SpellOneMore(rest: seq<Output>, o: Output, n: nat)
    requires TokensOfTurns(rest, n) + LaterTokens(rest, n) == AllTokens(rest)
    ensures TokensOfTurns(rest + [o], n) + LaterTokens(rest + [o], n) == AllTokens(rest + [o])
  {
    hide TokensOfTurns, LaterTokens, AllTokens, Finishes;
    OneMoreOutput(rest, o, n);
    Snoc(rest, o);
    if Finishes(rest) < n {
      NothingLater(rest, n);
    } else {
      assert TokensOfTurns(rest, n) + (LaterTokens(rest, n) + o.tokens)
          == (TokensOfTurns(rest, n) + LaterTokens(rest, n)) + o.tokens;
    }
  }

  lemma {:induction false} NoTurnsNoTokens(n: nat)
    ensures TokensOfTurns([], n) == []
  {
    if n > 0 {
      NoTurnsNoTokens(n - 1);
    }
  }

  lemma {:induction false} FinishesBound(outputs: seq<Output>)
    ensures Finishes(outputs) <= |outputs|
  {
    if outputs != [] {
      FinishesBound(outputs[..|outputs| - 1]);
    }
  }

  /** max(0.0, x) */
  function NonNegative(x: real): real {
    if x < 0.0 then 0.0 else x
  }

  /** xs[:k], of a list that may be shorter. */
  function FirstOf(xs: seq<int>, k: nat): (head: seq<int>)
    ensures head <= xs && |head| == Min(k, |xs|)
  {
    if k <= |xs| then xs[..k] else xs
  }

  /** Each turn's list holds exactly the tokens that arrived while it was the first unfinished turn. */
  ghost predicate Attributed(outputs: seq<Output>, ids: seq<seq<int>>, counts: seq<nat>) {
    && |ids| == |counts|
    && forall i | 0 <= i < |ids| :: ids[i] == TurnTokens(outputs, i) && counts[i] == |ids[i]|
  }

  lemma {:induction false} AttributedMore(outputs: seq<Output>, ids: seq<seq<int>>, counts: seq<nat>, o: Output)
    requires Attributed(outputs, ids, counts)
    ensures Finishes(outputs) < |ids| ==>
      var f := Finishes(outputs);
      Attributed(outputs + [o], ids[f := ids[f] + o.tokens], counts[f := counts[f] + |o.tokens|])
    ensures Finishes(outputs) >= |ids| || o.tokens == [] ==> Attributed(outputs + [o], ids, counts)
  {
    hide TurnTokens, Finishes;
    Snoc(outputs, o);
  }

  /** When the turn that was first unfinished after i finishes itself finished. */
  function FinishTime(outputs: seq<Output>, i: nat): Moment {
    if outputs == [] then None
    else
      var rest, o := outputs[..|outputs| - 1], outputs[|outputs| - 1];
      if Finishes(rest) == i && o.reason != "" then Some(o.finishedNow) else FinishTime(rest, i)
  }

  /** When its first token arrived; a turn that finishes without one counts from its finish. */
  function FirstTime(outputs: seq<Output>, i: nat): Moment {
    if outputs == [] then None
    else
      var rest, o := outputs[..|outputs| - 1], outputs[|outputs| - 1];
      if FirstTime(rest, i).Some? || Finishes(rest) != i then FirstTime(rest, i)
      else if o.tokens != [] then Some(o.now)
      else if o.reason != "" then Some(o.finishedNow)
      else None
  }

  /** Why it finished; empty as long as it has not. */
  function FinishReason(outputs: seq<Output>, i: nat): string {
    if outputs == [] then ""
    else
      var rest, o := outputs[..|outputs| - 1], outputs[|outputs| - 1];
      if Finishes(rest) == i && o.reason != "" then o.reason else FinishReason(rest, i)
  }

  ghost predicate Reasoned(outputs: seq<Output>, reasons: seq<string>) {
    forall i | 0 <= i < |reasons| :: reasons[i] == FinishReason(outputs, i)
  }

  lemma {:induction false} ReasonedMore(outputs: seq<Output>, reasons: seq<string>, o: Output)
    requires Reasoned(outputs, reasons)
    ensures var f := Finishes(outputs);
      if o.reason != "" && f < |reasons| then Reasoned(outputs + [o], reasons[f := o.reason])
      else Reasoned(outputs + [o], reasons)
  {
    hide Finishes;
    assert (outputs + [o])[..|outputs|] == outputs;
  }

  /** When the first token of the whole session arrived. */
  function SessionFirst(outputs: seq<Output>): Moment {
    if outputs == [] then None
    else
      var first, o := SessionFirst(outputs[..|outputs| - 1]), outputs[|outputs| - 1];
      if first.None? && o.tokens != [] then Some(o.now) else first
  }

  lemma {:induction false} SessionFirstMore(outputs: seq<Output>, o: Output)
    ensures SessionFirst(outputs + [o])
         == if SessionFirst(outputs).None? && o.tokens != [] then Some(o.now) else SessionFirst(outputs)
  {
    assert (outputs + [o])[..|outputs|] == outputs;
  }

  /** Each turn sent has the send time and the lateness of its own send. */
  ghost predicate Dispatched(
      turns: seq<ReplayTurn>, clocks: seq<real>, sends: seq<Moment>, lateness: seq<real>)
  {
    && |clocks| == |lateness| <= |turns| == |sends|
    && (forall i | 0 <= i < |clocks| :: sends[i].Some? && IsSendTime(sends[i].value, clocks[i]))
    && IsLateness(turns, clocks, lateness)
  }

  /** The clock at the send, or the start of the replay if it shows less. */
  ghost predicate IsSendTime(send: real, clock: real) {
    if clock < 0.0 then send == 0.0 else send == clock
  }

  /** How long after its scheduled time the turn was sent; one sent early is not late. */
  ghost predicate IsLate(late: real, send: real, scheduled: real) {
    if send < scheduled then late == 0.0 else late == send - scheduled
  }

  ghost predicate IsLateness(turns: seq<ReplayTurn>, clocks: seq<real>, lateness: seq<real>) {
    && |lateness| == |clocks| <= |turns|
    && forall i | 0 <= i < |clocks| ::
         IsLate(lateness[i], if clocks[i] < 0.0 then 0.0 else clocks[i], turns[i].sendAt)
  }

  lemma {:induction false} DispatchedLengths(
      turns: seq<ReplayTurn>, clocks: seq<real>, sends: seq<Moment>, lateness: seq<real>)
    requires Dispatched(turns, clocks, sends, lateness)
    ensures |clocks| == |lateness| <= |turns| == |sends|
  {
  }

  lemma {:induction false} DispatchedMore(
      turns: seq<ReplayTurn>, clocks: seq<real>, sends: seq<Moment>, lateness: seq<real>, now: real)
    requires Dispatched(turns, clocks, sends, lateness) && |clocks| < |turns|
    ensures var i := |clocks|;
      Dispatched(turns, clocks + [now], sends[i := Some(NonNegative(now))],
                 lateness + [NonNegative(NonNegative(now) - turns[i].sendAt)])
  {
  }

  ghost predicate Timed(outputs: seq<Output>, firsts: seq<Moment>, finishes: seq<Moment>) {
    && |firsts| == |finishes|
    && forall i | 0 <= i < |firsts| :: firsts[i] == FirstTime(outputs, i) && finishes[i] == FinishTime(outputs, i)
  }

  /** What the first half of the loop body does to the first-output times. */
  function AfterTokens(firsts: seq<Moment>, f: nat, o: Output): (times: seq<Moment>)
    ensures |times| == |firsts|
  {
    if o.tokens != [] && f < |firsts| && firsts[f].None? then firsts[f := Some(o.now)] else firsts
  }

  /** What the finish branch does to them. */
  function AfterFinish(firsts: seq<Moment>, f: nat, o: Output): (times: seq<Moment>)
    ensures |times| == |firsts|
  {
    if f < |firsts| && firsts[f].None? then firsts[f := Some(o.finishedNow)] else firsts
  }

  lemma {:induction false} TimedMore(outputs: seq<Output>, firsts: seq<Moment>, finishes: seq<Moment>, o: Output)
    requires Timed(outputs, firsts, finishes)
    ensures var f := Finishes(outputs);
      var times := AfterTokens(firsts, f, o);
      if o.reason != "" && f < |firsts|
      then Timed(outputs + [o], AfterFinish(times, f, o), finishes[f := Some(o.finishedNow)])
      else Timed(outputs + [o], times, finishes)
  {
    hide Finishes;
    assert (outputs + [o])[..|outputs|] == outputs;
  }

  lemma {:induction false} SampledMore(outputs: seq<Output>, o: Output)
    ensures var sample := FirstOf(AllTokens(outputs), SAMPLE_SIZE);
      FirstOf(AllTokens(outputs + [o]), SAMPLE_SIZE)
        == if |sample| < SAMPLE_SIZE then sample + FirstOf(o.tokens, SAMPLE_SIZE - |sample|) else sample
  {
    hide AllTokens, FirstOf;
    Snoc(outputs, o);
    FirstOfConcat(AllTokens(outputs), o.tokens, SAMPLE_SIZE);
  }

  lemma {:induction false} FirstOfConcat(xs: seq<int>, ys: seq<int>, k: nat)
    ensures |FirstOf(xs, k)| <= k
    ensures FirstOf(xs + ys, k)
         == if |FirstOf(xs, k)| < k then FirstOf(xs, k) + FirstOf(ys, k - |FirstOf(xs, k)|) else FirstOf(xs, k)
  {
  }

  /** Sent turns have send times and done turns finish times, all in order and none after the clock. */
  ghost predicate InOrder(
      sends: seq<Moment>, firsts: seq<Moment>, finishes: seq<Moment>, sent: nat, done: nat, clock: real)
  {
    && |sends| == |firsts| == |finishes| && sent <= |sends| && done <= |sends| && 0.0 <= clock
    && (forall i | 0 <= i < sent :: sends[i].Some? && 0.0 <= sends[i].value <= clock)
    && (forall i | 0 <= i < |sends| && firsts[i].Some? ::
          i < sent && sends[i].Some? && sends[i].value <= firsts[i].value <= clock)
    && (forall i | 0 <= i < done ::
          i < sent && sends[i].Some? && finishes[i].Some? && sends[i].value <= finishes[i].value <= clock)
  }

  /** The clock moves on, and the first unfinished turn, if it was sent, gets its first output. */
  lemma {:induction false} FirstInOrder(
      sends: seq<Moment>, firsts: seq<Moment>, finishes: seq<Moment>, sent: nat, done: nat, clock: real, now: real)
    requires InOrder(sends, firsts, finishes, sent, done, clock) && clock <= now
    ensures InOrder(sends, firsts, finishes, sent, done, now)
    ensures done < sent ==> InOrder(sends, firsts[done := Some(now)], finishes, sent, done, now)
    ensures done < sent ==> InOrder(sends, firsts, finishes[done := Some(now)], sent, done + 1, now)
  {
  }

  /** Send times are known of the first `sent` turns, first and finish times of the first `done`. */
  ghost predicate Marked(sends: seq<Moment>, firsts: seq<Moment>, finishes: seq<Moment>, sent: nat, done: nat) {
    && |sends| == |firsts| == |finishes|
    && forall i | 0 <= i < |sends| ::
         && (sends[i].Some? <==> i < sent)
         && (finishes[i].Some? <==> i < done)
         && (i < done ==> firsts[i].Some?)
  }

  lemma {:induction false} MarkedMore(
      sends: seq<Moment>, firsts: seq<Moment>, finishes: seq<Moment>, sent: nat, done: nat, o: Output)
    requires Marked(sends, firsts, finishes, sent, done)
    ensures var times := AfterTokens(firsts, done, o);
      && Marked(sends, times, finishes, sent, done)
      && (done < |sends| ==>
            Marked(sends, AfterFinish(times, done, o), finishes[done := Some(o.finishedNow)], sent, done + 1))
  {
  }

  lemma {:induction false} MarkedSent(
      sends: seq<Moment>, firsts: seq<Moment>, finishes: seq<Moment>, sent: nat, done: nat, send: Moment)
    requires Marked(sends, firsts, finishes, sent, done) && sent < |sends| && send.Some?
    ensures Marked(sends[sent := send], firsts, finishes, sent + 1, done)
  {
  }

  lemma {:induction false} MarkedLengths(
      sends: seq<Moment>, firsts: seq<Moment>, finishes: seq<Moment>, sent: nat, done: nat)
    requires Marked(sends, firsts, finishes, sent, done)
    ensures |firsts| == |finishes| == |sends|
  {
  }

  /** x is zero or one of the values, and no value is larger. */
  ghost predicate IsLargest(x: real, values: seq<real>) {
    && 0.0 <= x
    && (forall i | 0 <= i < |values| :: values[i] <= x)
    && (x == 0.0 || exists i :: 0 <= i < |values| && values[i] == x)
  }

  lemma {:induction false} LargestOfMore(x: real, values: seq<real>, y: real)
    requires IsLargest(x, values)
    ensures IsLargest(if x < y then y else x, values + [y])
  {
    assert (values + [y])[|values|] == y;
    if x != 0.0 {
      var i :| 0 <= i < |values| && values[i] == x;
      assert (values + [y])[i] == x;
    }
  }

  lemma {:induction false} SentInOrder(
      sends: seq<Moment>, firsts: seq<Moment>, finishes: seq<Moment>, sent: nat, done: nat, clock: real, now: real)
    requires InOrder(sends, firsts, finishes, sent, done, clock) && clock <= now && sent < |sends|
    ensures InOrder(sends[sent := Some(now)], firsts, finishes, sent + 1, done, now)
  {
  }

  // --------------------------------------------------------------- the run

  class Run {
    const turns: seq<ReplayTurn>
    var sent: nat
    var actualSend: seq<Moment>
    var firstOutput: seq<Moment>
    var finished: seq<Moment>
    var tokenCounts: seq<nat>
    var tokenIds: seq<seq<int>>
    var finishReasons: seq<string>
    var lateness: seq<real>
    var maxLateness: real
    var finishIndex: nat
    var completedTurns: nat
    var generatedTokens: nat
    var sample: seq<int>
    var sessionFirstOutput: Moment
    /** Every output received so far. */
    ghost var outputs: seq<Output>
    /** What the clock showed at every send so far. */
    ghost var clocks: seq<real>

    ghost predicate Valid()
      reads this
    {
      && |actualSend| == |turns| && |tokenCounts| == |tokenIds| == |finishReasons| == |turns|
      && sent == |clocks| && Dispatched(turns, clocks, actualSend, lateness) && IsLargest(maxLateness, lateness)
      && finishIndex == completedTurns == Min(|turns|, Finishes(outputs))
      && Marked(actualSend, firstOutput, finished, sent, finishIndex)
      && Attributed(outputs, tokenIds, tokenCounts)
      && Timed(outputs, firstOutput, finished) && Reasoned(outputs, finishReasons)
      && sessionFirstOutput == SessionFirst(outputs)
      && generatedTokens == |AllTokens(outputs)|
      && sample == FirstOf(AllTokens(outputs), SAMPLE_SIZE)
    }

    /** Every time recorded so far is in order and none is after the clock. */
    ghost predicate OnTime(clock: real)
      reads this
    {
      && InOrder(actualSend, firstOutput, finished, sent, finishIndex, clock)
      && (sessionFirstOutput.Some? ==> 0.0 <= sessionFirstOutput.value)
    }

    constructor (turns: seq<ReplayTurn>)
      ensures this.turns == turns && Valid() && OnTime(0.0) && outputs == [] && clocks == []
    {
      this.turns := turns;
      sent, lateness, maxLateness := 0, [], 0.0;
      actualSend := seq(|turns|, _ => None);
      firstOutput := seq(|turns|, _ => None);
      finished := seq(|turns|, _ => None);
      tokenCounts := seq(|turns|, _ => 0);
      tokenIds := seq(|turns|, _ => []);
      finishReasons := seq(|turns|, _ => "");
      finishIndex, completedTurns, generatedTokens, sample := 0, 0, 0, [];
      sessionFirstOutput := None;
      outputs, clocks := [], [];
    }

    /** The producer reaches its next turn and yields it. */
    method Send(now: real, ghost clock: real)
      requires Valid() && sent < |turns|
      modifies `sent, `actualSend, `lateness, `maxLateness, `clocks
      ensures Valid() && clocks == old(clocks) + [now]
      ensures old(OnTime(clock)) && clock <= now ==> OnTime(now)
    {
      hide Attributed, Timed, Reasoned, AllTokens, Finishes, FirstOf, SessionFirst;
      hide InOrder, IsLargest, Dispatched, Marked;
      DispatchedMore(turns, clocks, actualSend, lateness, now);
      DispatchedLengths(turns, clocks, actualSend, lateness);
      MarkedSent(actualSend, firstOutput, finished, sent, finishIndex, Some(NonNegative(now)));
      if OnTime(clock) && clock <= now {
        SentInOrder(actualSend, firstOutput, finished, sent, finishIndex, clock, now);
        ClockIsPositive(actualSend, firstOutput, finished, sent, finishIndex, clock);
      }
      var actual := NonNegative(now);
      actualSend := actualSend[sent := Some(actual)];
      var late := NonNegative(actual - turns[sent].sendAt);
      LargestOfMore(maxLateness, lateness, late);
      lateness := lateness + [late];
      if maxLateness < late {
        maxLateness := late;
      }
      sent, clocks := sent + 1, clocks + [now];
    }

    /** Time passes and nothing else. */
    lemma {:induction false} Tick(clock: real, now: real)
      requires Valid()
      ensures OnTime(clock) && clock <= now ==> OnTime(now)
    {
    }

    /** The output concerns a turn that has been sent. */
    ghost predicate Answers(o: Output)
      reads this
    {
      finishIndex < |turns| && (o.tokens != [] || o.reason != "") ==> finishIndex < sent
    }

    method Receive(o: Output, ghost clock: real)
      requires Valid()
      modifies this
      ensures Valid() && outputs == old(outputs) + [o] && clocks == old(clocks)
      ensures old(OnTime(clock)) && old(Answers(o)) && clock <= o.now <= o.finishedNow ==> OnTime(o.finishedNow)
    {
      hide Attributed, Timed, Reasoned, AllTokens, Finishes, FirstOf, SessionFirst;
      hide InOrder, IsLargest, Marked, Dispatched;
      Snoc(outputs, o);
      ReasonedMore(outputs, finishReasons, o);
      assert |firstOutput| == |turns| by { MarkedLengths(actualSend, firstOutput, finished, sent, finishIndex); }
      TimedMore(outputs, firstOutput, finished, o);
      MarkedMore(actualSend, firstOutput, finished, sent, finishIndex, o);
      ghost var timely := OnTime(clock) && Answers(o) && clock <= o.now <= o.finishedNow;
      CollectTokens(o, clock, timely);
      if timely {
        FirstInOrder(actualSend, firstOutput, finished, sent, finishIndex, o.now, o.finishedNow);
      }
      outputs := outputs + [o];
      if o.reason != "" && finishIndex < |turns| {
        FinishTurn(o, timely);
      }
    }

    /** The first half of the loop body: the output's tokens go to the first unfinished turn. */
    method CollectTokens(o: Output, ghost clock: real, ghost timely: bool)
      requires Valid()
      requires timely ==> OnTime(clock) && Answers(o) && clock <= o.now
      modifies `sessionFirstOutput, `firstOutput, `tokenCounts, `tokenIds, `sample, `generatedTokens
      ensures Attributed(outputs + [o], tokenIds, tokenCounts) && |tokenIds| == |tokenCounts| == |turns|
      ensures generatedTokens == |AllTokens(outputs + [o])|
      ensures sample == FirstOf(AllTokens(outputs + [o]), SAMPLE_SIZE)
      ensures firstOutput == AfterTokens(old(firstOutput), finishIndex, o)
      ensures sessionFirstOutput == SessionFirst(outputs + [o])
      ensures timely ==> InOrder(actualSend, firstOutput, finished, sent, finishIndex, o.now)
      ensures timely && sessionFirstOutput.Some? ==> 0.0 <= sessionFirstOutput.value
    {
      hide Attributed, Timed, Reasoned, AllTokens, Finishes, FirstOf, SessionFirst;
      hide InOrder, IsLargest, Marked, Dispatched;
      Snoc(outputs, o);
      SessionFirstMore(outputs, o);
      MarkedLengths(actualSend, firstOutput, finished, sent, finishIndex);
      AttributedMore(outputs, tokenIds, tokenCounts, o);
      SampledMore(outputs, o);
      if timely {
        FirstInOrder(actualSend, firstOutput, finished, sent, finishIndex, clock, o.now);
        ClockIsPositive(actualSend, firstOutput, finished, sent, finishIndex, o.now);
      }
      if o.tokens != [] && sessionFirstOutput.None? {
        sessionFirstOutput := Some(o.now);
      }
      if o.tokens != [] && finishIndex < |turns| {
        if firstOutput[finishIndex].None? {
          firstOutput := firstOutput[finishIndex := Some(o.now)];
        }
        tokenCounts := tokenCounts[finishIndex := tokenCounts[finishIndex] + |o.tokens|];
        tokenIds := tokenIds[finishIndex := tokenIds[finishIndex] + o.tokens];
      }
      var room := SAMPLE_SIZE - |sample|;
      if room > 0 {
        sample := sample + FirstOf(o.tokens, room);
      }
      generatedTokens := generatedTokens + |o.tokens|;
    }

    /** The finish branch: the first unfinished turn is finished, and has its first output if it had none. */
    method FinishTurn(o: Output, ghost timely: bool)
      requires o.reason != "" && finishIndex < |turns|
      requires |actualSend| == |firstOutput| == |finished| == |finishReasons| == |turns|
      requires timely ==>
        finishIndex < sent && InOrder(actualSend, firstOutput, finished, sent, finishIndex, o.finishedNow)
      modifies `finished, `finishReasons, `firstOutput, `finishIndex, `completedTurns
      ensures finished == old(finished)[old(finishIndex) := Some(o.finishedNow)]
      ensures finishReasons == old(finishReasons)[old(finishIndex) := o.reason]
      ensures firstOutput == AfterFinish(old(firstOutput), old(finishIndex), o)
      ensures finishIndex == completedTurns == old(finishIndex) + 1
      ensures timely ==> InOrder(actualSend, firstOutput, finished, sent, finishIndex, o.finishedNow)
    {
      finished := finished[finishIndex := Some(o.finishedNow)];
      finishReasons := finishReasons[finishIndex := o.reason];
      if firstOutput[finishIndex].None? {
        firstOutput := firstOutput[finishIndex := Some(o.finishedNow)];
      }
      finishIndex := finishIndex + 1;
      completedTurns := finishIndex;
    }
  }

  lemma {:induction false} ClockIsPositive(
      sends: seq<Moment>, firsts: seq<Moment>, finishes: seq<Moment>, sent: nat, done: nat, clock: real)
    requires InOrder(sends, firsts, finishes, sent, done, clock)
    ensures 0.0 <= clock
  {
  }

  // ---------------------------------------------------------------- results

  /** The result of a turn whose three times are known. */
  function ResultOf(
      t: ReplayTurn, send: real, first: real, finish: real, count: nat, ids: seq<int>, reason: string): TurnResult
  {
    TurnResult(t.chatId, t.turn, t.sendAt, send, NonNegative(send - t.sendAt), first, finish,
               first - send, finish - send, count, ids, t.turn > 1, reason)
  }

  /** The result records of turn i what the stream says of it: its send, its outputs and its finish. */
  ghost predicate Records(t: TurnResult, turn: ReplayTurn, clock: real, outputs: seq<Output>, i: nat) {
    && FirstTime(outputs, i).Some? && FinishTime(outputs, i).Some?
    && t.chatId == turn.chatId && t.turn == turn.turn && t.scheduledSend == turn.sendAt
    && IsSendTime(t.actualSend, clock) && IsLate(t.lateness, t.actualSend, t.scheduledSend)
    && t.firstOutput == FirstTime(outputs, i).value && t.finished == FinishTime(outputs, i).value
    && t.firstOutput == t.actualSend + t.ttft && t.finished == t.actualSend + t.latency
    && t.tokenIds == TurnTokens(outputs, i) && t.generatedTokens == |t.tokenIds|
    && t.finishReason == FinishReason(outputs, i)
    && (t.isResume <==> t.turn > 1)
  }

  /** A result for each turn that was both sent and finished: they are the first ones, in order. */
  ghost predicate RecordsAll(
      results: seq<TurnResult>, turns: seq<ReplayTurn>, clocks: seq<real>, outputs: seq<Output>)
    requires |clocks| <= |turns|
  {
    && |results| == Min(|clocks|, Finishes(outputs))
    && forall i | 0 <= i < |results| :: Records(results[i], turns[i], clocks[i], outputs, i)
  }

  /** record_available_turn_results: the turns with all three times known, in order. */
  method RecordAvailable(run: Run) returns (results: seq<TurnResult>)
    requires run.Valid()
    ensures |run.clocks| <= |run.turns| && RecordsAll(results, run.turns, run.clocks, run.outputs)
  {
    hide AllTokens, Finishes, IsLateness, FirstOf, TurnTokens, FirstTime, FinishTime, FinishReason;
    results := [];
    for i := 0 to |run.turns|
      invariant |results| == Min(i, Min(run.sent, run.finishIndex))
      invariant forall j | 0 <= j < |results| :: Records(results[j], run.turns[j], run.clocks[j], run.outputs, j)
    {
      if run.actualSend[i].Some? && run.firstOutput[i].Some? && run.finished[i].Some? {
        results := results + [ResultOf(run.turns[i], run.actualSend[i].value, run.firstOutput[i].value,
                                       run.finished[i].value, run.tokenCounts[i], run.tokenIds[i],
                                       run.finishReasons[i])];
      }
    }
  }

  datatype TimingError =
    | WrongCompletedTurns | WrongResultCount | MissingResults | NegativeSessionTime
    | ResumeNotMarked | RootMarkedResume | NegativeTurnTime

  predicate TurnClean(t: TurnResult) {
    && (t.turn > 1 ==> t.isResume) && (t.turn == 1 ==> !t.isResume)
    && 0.0 <= t.scheduledSend && 0.0 <= t.actualSend && 0.0 <= t.lateness && 0.0 <= t.firstOutput
    && 0.0 <= t.finished && 0.0 <= t.ttft && 0.0 <= t.latency
  }

  /** Nothing to report about the session. */
  predicate Clean(s: SessionResult) {
    && s.completedTurns == s.turns == |s.turnResults|
    && 0.0 <= s.scheduledFirst && 0.0 <= s.scheduledLast && 0.0 <= s.maxLateness && 0.0 <= s.finished
    && (s.firstOutput.Some? ==> 0.0 <= s.firstOutput.value)
    && forall t | t in s.turnResults :: TurnClean(t)
  }

  /** The session has the fault that the error reports. */
  ghost predicate HasFault(s: SessionResult, e: TimingError) {
    match e
    case WrongCompletedTurns => s.completedTurns != s.turns
    case WrongResultCount => |s.turnResults| != s.turns
    case MissingResults => s.turns > 1 && s.turnResults == []
    case NegativeSessionTime =>
      || s.scheduledFirst < 0.0 || s.scheduledLast < 0.0 || s.maxLateness < 0.0 || s.finished < 0.0
      || (s.firstOutput.Some? && s.firstOutput.value < 0.0)
    case _ => exists i :: 0 <= i < |s.turnResults| && TurnHasFault(s.turnResults[i], e)
  }

  predicate TurnHasFault(t: TurnResult, e: TimingError) {
    match e
    case ResumeNotMarked => t.turn > 1 && !t.isResume
    case RootMarkedResume => t.turn == 1 && t.isResume
    case NegativeTurnTime =>
      || t.scheduledSend < 0.0 || t.actualSend < 0.0 || t.lateness < 0.0 || t.firstOutput < 0.0
      || t.finished < 0.0 || t.ttft < 0.0 || t.latency < 0.0
    case _ => false
  }

  /** validate_timing_and_turns, with one error code for each kind of message. */
  method ValidateTimingAndTurns(sessions: seq<SessionResult>) returns (errors: seq<TimingError>)
    ensures errors == [] <==> forall s | s in sessions :: Clean(s)
    ensures forall e :: e in errors <==> exists i :: 0 <= i < |sessions| && HasFault(sessions[i], e)
  {
    hide Clean, HasFault;
    errors := [];
    for i := 0 to |sessions|
      invariant errors == [] <==> forall k | 0 <= k < i :: Clean(sessions[k])
      invariant forall e :: e in errors <==> exists k :: 0 <= k < i && HasFault(sessions[k], e)
    {
      var found := SessionErrors(sessions[i]);
      errors := errors + found;
    }
  }

  method SessionErrors(s: SessionResult) returns (errors: seq<TimingError>)
    ensures errors == [] <==> Clean(s)
    ensures forall e :: e in errors <==> HasFault(s, e)
  {
    errors := [];
    if s.completedTurns != s.turns {
      errors := errors + [WrongCompletedTurns];
    }
    if |s.turnResults| != s.turns {
      errors := errors + [WrongResultCount];
    }
    if s.turns > 1 && s.turnResults == [] {
      errors := errors + [MissingResults];
    }
    if s.scheduledFirst < 0.0 || s.scheduledLast < 0.0 || s.maxLateness < 0.0 || s.finished < 0.0
      || (s.firstOutput.Some? && s.firstOutput.value < 0.0) {
      errors := errors + [NegativeSessionTime];
    }
    ghost var before := errors;
    for i := 0 to |s.turnResults|
      invariant forall e :: e in errors <==>
        e in before || exists k :: 0 <= k < i && TurnHasFault(s.turnResults[k], e)
    {
      var found := TurnErrors(s.turnResults[i]);
      errors := errors + found;
    }
    forall e: TimingError
      ensures e in errors <==> HasFault(s, e)
    {
      match e
      case WrongCompletedTurns =>
      case WrongResultCount =>
      case MissingResults =>
      case NegativeSessionTime =>
      case _ => assert e !in before;
    }
    NoFaultIsClean(s);
    assert errors == [] <==> forall e :: e !in errors by {
      assert errors != [] ==> errors[0] in errors;
    }
  }

  method TurnErrors(t: TurnResult) returns (errors: seq<TimingError>)
    ensures forall e :: e in errors <==> TurnHasFault(t, e)
  {
    errors := [];
    if t.turn > 1 && !t.isResume {
      errors := errors + [ResumeNotMarked];
    }
    if t.turn == 1 && t.isResume {
      errors := errors + [RootMarkedResume];
    }
    if t.scheduledSend < 0.0 || t.actualSend < 0.0 || t.lateness < 0.0 || t.firstOutput < 0.0
      || t.finished < 0.0 || t.ttft < 0.0 || t.latency < 0.0 {
      errors := errors + [NegativeTurnTime];
    }
  }

  /** A session is clean exactly when it has no fault. */
  lemma {:induction false} NoFaultIsClean(s: SessionResult)
    ensures Clean(s) <==> forall e :: !HasFault(s, e)
  {
    if Clean(s) {
      forall e: TimingError
        ensures !HasFault(s, e)
      {
        assert forall i | 0 <= i < |s.turnResults| :: s.turnResults[i] in s.turnResults;
      }
    }
    if forall e :: !HasFault(s, e) {
      assert !HasFault(s, WrongCompletedTurns) && !HasFault(s, WrongResultCount) && !HasFault(s, NegativeSessionTime);
      forall i | 0 <= i < |s.turnResults|
        ensures TurnClean(s.turnResults[i])
      {
        assert !HasFault(s, ResumeNotMarked) && !HasFault(s, RootMarkedResume) && !HasFault(s, NegativeTurnTime);
      }
    }
  }

  // ------------------------------------------------------------- whole streams

  function OutputsOf(events: seq<Event>): seq<Output> {
    if events == [] then []
    else
      OutputsOf(events[..|events| - 1])
        + match events[|events| - 1] case Received(o) => [o] case _ => []
  }

  /** What the clock shows as each of n turns is sent, as far as they are. */
  function SendClocks(events: seq<Event>, n: nat): (clocks: seq<real>)
    ensures |clocks| <= n
  {
    if events == [] then []
    else
      var clocks := SendClocks(events[..|events| - 1], n);
      match events[|events| - 1]
      case Sent(now) => if |clocks| < n then clocks + [now] else clocks
      case _ => clocks
  }

  function ClockOf(events: seq<Event>): real {
    if events == [] then 0.0
    else
      match events[|events| - 1]
      case Sent(now) => now
      case Received(o) => o.finishedNow
      case Nothing => ClockOf(events[..|events| - 1])
  }

  /** The event does not turn the clock back, and an output does not answer a turn that was not sent. */
  ghost predicate Follows(before: seq<Event>, event: Event, n: nat) {
    match event
    case Sent(now) => ClockOf(before) <= now
    case Received(o) =>
      && ClockOf(before) <= o.now <= o.finishedNow
      && (Finishes(OutputsOf(before)) < n && (o.tokens != [] || o.reason != "") ==>
            Finishes(OutputsOf(before)) < |SendClocks(before, n)|)
    case Nothing => true
  }

  /** A monotone clock from zero, and no output before its turn is sent. */
  ghost predicate Orderly(events: seq<Event>, n: nat) {
    forall k | 0 <= k < |events| :: Follows(events[..k], events[k], n)
  }

  /** The main loop: every event of the stream in turn. */
  method Drive(turns: seq<ReplayTurn>, events: seq<Event>) returns (run: Run)
    ensures fresh(run) && run.Valid() && run.turns == turns
    ensures run.outputs == OutputsOf(events) && run.clocks == SendClocks(events, |turns|)
    ensures Orderly(events, |turns|) ==> run.OnTime(ClockOf(events))
  {
    hide Attributed, Timed, Reasoned, AllTokens, Finishes, InOrder, IsLargest, Marked, Dispatched, SessionFirst;
    run := new Run(turns);
    for k := 0 to |events|
      invariant fresh(run) && run.Valid() && run.turns == turns
      invariant run.outputs == OutputsOf(events[..k]) && run.clocks == SendClocks(events[..k], |turns|)
      invariant Orderly(events, |turns|) ==> run.OnTime(ClockOf(events[..k]))
    {
      assert events[..k + 1][..k] == events[..k];
      assert Orderly(events, |turns|) ==> Follows(events[..k], events[k], |turns|);
      match events[k]
      case Sent(now) =>
        if run.sent < |turns| {
          run.Send(now, ClockOf(events[..k]));
        } else {
          run.Tick(ClockOf(events[..k]), now);
        }
      case Received(o) =>
        run.Receive(o, ClockOf(events[..k]));
      case Nothing =>
    }
    assert events[..|events|] == events;
  }

  /** A monotone stream of a plan whose send times are not negative, ended no earlier than its last event. */
  ghost predicate Timely(turns: seq<ReplayTurn>, events: seq<Event>, endNow: real) {
    && Orderly(events, |turns|) && ClockOf(events) <= endNow
    && forall t | t in turns :: 0.0 <= t.sendAt
  }

  datatype SessionError = TurnsNotCompleted | IncompleteTiming

  /** What the stream says of the session as a whole, and of each turn that was sent and finished. */
  ghost predicate IsResultOf(result: SessionResult, turns: seq<ReplayTurn>, events: seq<Event>, endNow: real)
    requires turns != []
  {
    var outputs := OutputsOf(events);
    && result.root == turns[0].root && result.turns == |turns| && result.finished == endNow
    && result.scheduledFirst == turns[0].sendAt && result.scheduledLast == turns[|turns| - 1].sendAt
    && result.completedTurns == Min(|turns|, Finishes(outputs))
    && result.firstOutput == SessionFirst(outputs)
    && result.generatedTokens == |AllTokens(outputs)|
    && result.sample <= AllTokens(outputs) && |result.sample| == Min(16, |AllTokens(outputs)|)
    && RecordsAll(result.turnResults, turns, SendClocks(events, |turns|), outputs)
  }

  /** A session of a built plan asks no more than that the stream be orderly: its send times are not negative. */
  lemma {:induction false} BuiltSessionsAreTimely(
      plan: seq<SessionPlan>, records: seq<Record>, blocks: Blocks, timeScale: real, vocabSize: int, i: nat,
      events: seq<Event>, endNow: real)
    requires records != [] && timeScale > 0.0 && Groupable(records)
    requires IsReplayPlan(plan, records, blocks, timeScale, vocabSize) && i < |plan|
    ensures Timely(plan[i].1, events, endNow) <==> Orderly(events, |plan[i].1|) && ClockOf(events) <= endNow
  {
    hide IsReplayPlan, Groupable, Orderly, ClockOf;
    BuiltPlanIsWellOrdered(plan, records, blocks, timeScale, vocabSize);
    forall t | t in plan[i].1
      ensures 0.0 <= t.sendAt
    {
      var k :| 0 <= k < |plan[i].1| && plan[i].1[k] == t;
    }
  }

  /** The results of a run whose times are in order have no time below zero. */
  lemma {:induction false} TimelyResultsAreClean(run: Run, results: seq<TurnResult>, clock: real)
    requires run.Valid() && run.OnTime(clock) && |run.clocks| <= |run.turns|
    requires RecordsAll(results, run.turns, run.clocks, run.outputs)
    requires forall t | t in run.turns :: 0.0 <= t.sendAt
    ensures forall t | t in results :: TurnClean(t)
    ensures 0.0 <= clock && 0.0 <= run.maxLateness
    ensures run.sessionFirstOutput.Some? ==> 0.0 <= run.sessionFirstOutput.value
  {
    hide AllTokens, Finishes, FirstOf, TurnTokens, FirstTime, FinishTime, FinishReason, SessionFirst, IsLateness;
    forall i | 0 <= i < |results|
      ensures TurnClean(results[i])
    {
      assert Records(results[i], run.turns[i], run.clocks[i], run.outputs, i);
      assert run.turns[i] in run.turns;
    }
  }

  /** run_session: endNow is the clock when the stream ends; a cancelled run returns what it has. */
  method RunSession(turns: seq<ReplayTurn>, events: seq<Event>, endNow: real, cancelled: bool)
    returns (r: Result<SessionResult, SessionError>, lateness: seq<real>)
    requires turns != []
    ensures r == Err(TurnsNotCompleted) <==> !cancelled && Finishes(OutputsOf(events)) < |turns|
    ensures r == Err(IncompleteTiming) <==>
      !cancelled && Finishes(OutputsOf(events)) >= |turns| && |SendClocks(events, |turns|)| < |turns|
    ensures IsLateness(turns, SendClocks(events, |turns|), lateness)
    ensures r.Ok? ==> IsResultOf(r.value, turns, events, endNow) && IsLargest(r.value.maxLateness, lateness)
    ensures r.Ok? && !cancelled ==> |r.value.turnResults| == |turns|
    ensures r.Ok? && !cancelled && Timely(turns, events, endNow) ==> Clean(r.value)
  {
    hide AllTokens, Finishes, OutputsOf, SendClocks, SessionFirst, FirstOf, IsLargest;
    hide TurnTokens, FirstTime, FinishTime, FinishReason;
    var run := Drive(turns, events);
    lateness := run.lateness;
    var results := RecordAvailable(run);
    var result := SessionResult(
      turns[0].root, |turns|, turns[0].sendAt, turns[|turns| - 1].sendAt,
      run.generatedTokens, run.completedTurns, run.sessionFirstOutput, endNow, run.maxLateness,
      run.sample, results);
    if cancelled {
      return Ok(result), lateness;
    }
    if result.completedTurns != result.turns {
      return Err(TurnsNotCompleted), lateness;
    }
    if |results| != |turns| {
      return Err(IncompleteTiming), lateness;
    }
    if Timely(turns, events, endNow) {
      TimelyResultsAreClean(run, results, ClockOf(events));
    }
    r := Ok(result);
  }
}
