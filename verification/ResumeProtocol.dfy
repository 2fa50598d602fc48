/**
  The sequential turn-2 resume of run_hkv_gsm8k_resume_quality.py as interleaved steps: one
  coordinator, and for each evaluated session a producer (its input stream) and a consumer (its
  task). Sessions are named by their position in the plan. A step is what runs between two awaits.
 */
module ResumeProtocol {

  // ---------------------------------------------------------------- tracker

  datatype Tracker = Tracker(active: set<nat>, order: seq<nat>, overlaps: seq<set<nat>>, maxActive: nat)

  function Starting(t: Tracker, id: nat): Tracker {
    Tracker(t.active + {id}, t.order + [id],
            if t.active != {} then t.overlaps + [t.active + {id}] else t.overlaps,
            if t.maxActive < |t.active + {id}| then |t.active + {id}| else t.maxActive)
  }

  function Finishing(t: Tracker, id: nat): Tracker {
    t.(active := t.active - {id})
  }

  class SequentialResumeTracker {
    var active: set<nat>
    var order: seq<nat>
    var overlapEvents: seq<set<nat>>
    var maxActive: nat

    function Value(): Tracker
      reads this
    {
      Tracker(active, order, overlapEvents, maxActive)
    }

    constructor ()
      ensures Value() == Tracker({}, [], [], 0)
    {
      active, order, overlapEvents, maxActive := {}, [], [], 0;
    }

    method StartTurn2(id: nat)
      modifies this
      ensures Value() == Starting(old(Value()), id)
    {
      if active != {} {
        overlapEvents := overlapEvents + [active + {id}];
      }
      active := active + {id};
      if maxActive < |active| {
        maxActive := |active|;
      }
      order := order + [id];
    }

    method FinishTurn2(id: nat)
      modifies this
      ensures Value() == Finishing(old(Value()), id)
    {
      active := active - {id};
    }
  }

  // ------------------------------------------------------------------ state

  datatype TaskStatus = Alive | Ended | Failed | Cancelled

  datatype Evaluated = Evaluated(
    turn1Done: bool,
    resume: bool,
    turn2Start: bool,
    turn2Done: bool,
    completedTurns: nat,
    /** The producer has passed its wait for the resume event. */
    producerStarted: bool,
    task: TaskStatus)

  datatype Phase = Inspecting | WaitingStart | WaitingDone

  /** Raised: an exception left the coordinator; Released: the caller's handler has set every event. */
  datatype Coordinator =
    | Serving(index: nat, phase: Phase)
    | Finished
    | Raised(index: nat)
    | Released

  datatype State = State(coordinator: Coordinator, sessions: seq<Evaluated>, tracker: Tracker, resumed: seq<nat>)

  datatype Step =
    | Inspect | SeeStart | SeeDone | Raise | Release
    | Produce(id: nat)
    | Consume(id: nat, finishReason: bool, complete: bool)
    | EndTask(id: nat, status: TaskStatus)

  function Fresh(): Evaluated {
    Evaluated(false, false, false, false, 0, false, Alive)
  }

  function At(n: nat, index: nat): Coordinator {
    if index < n then Serving(index, Inspecting) else Finished
  }

  function Init(n: nat): State {
    State(At(n, 0), seq(n, _ => Fresh()), Tracker({}, [], [], 0), [])
  }

  /** The session has still to start its turn 2, and its task lives. */
  predicate CanStart(s: State, id: nat) {
    id < |s.sessions| && !s.sessions[id].producerStarted && s.sessions[id].task.Alive?
  }

  predicate Enabled(s: State, step: Step) {
    match step
    case Inspect => s.coordinator.Serving? && s.coordinator.phase.Inspecting? && s.coordinator.index < |s.sessions|
    case SeeStart =>
      && s.coordinator.Serving? && s.coordinator.phase.WaitingStart? && s.coordinator.index < |s.sessions|
      && (s.sessions[s.coordinator.index].turn2Start || !s.sessions[s.coordinator.index].task.Alive?)
    case SeeDone =>
      && s.coordinator.Serving? && s.coordinator.phase.WaitingDone? && s.coordinator.index < |s.sessions|
      && (s.sessions[s.coordinator.index].turn2Done || !s.sessions[s.coordinator.index].task.Alive?)
    // An inspection can fail and a wait can time out at any moment.
    case Raise => s.coordinator.Serving? || s.coordinator.Finished?
    case Release => s.coordinator.Raised?
    // When its task ends the engine closes the input stream, which cancels a producer that waits.
    case Produce(id) => CanStart(s, id) && s.sessions[id].resume
    case Consume(id, _, _) => id < |s.sessions| && s.sessions[id].task.Alive?
    case EndTask(id, status) => id < |s.sessions| && s.sessions[id].task.Alive? && !status.Alive?
  }

  /** The wait for an event is over: it passes if the event is set and the task has not failed. */
  predicate WaitPasses(event: bool, task: TaskStatus) {
    event && !task.Failed?
  }

  function Apply(s: State, step: Step): State
    requires Enabled(s, step)
  {
    match step
    case Inspect =>
      var i := s.coordinator.index;
      var looked := s.(resumed := s.resumed + [i]);
      if s.sessions[i].task.Alive? then
        looked.(coordinator := Serving(i, WaitingStart), sessions := s.sessions[i := s.sessions[i].(resume := true)])
      else
        looked.(coordinator := Raised(i))
    case SeeStart =>
      var i := s.coordinator.index;
      if WaitPasses(s.sessions[i].turn2Start, s.sessions[i].task) then s.(coordinator := Serving(i, WaitingDone))
      else s.(coordinator := Raised(i))
    case SeeDone =>
      var i := s.coordinator.index;
      if WaitPasses(s.sessions[i].turn2Done, s.sessions[i].task) && s.sessions[i].completedTurns >= 2 then
        s.(coordinator := At(|s.sessions|, i + 1))
      else s.(coordinator := Raised(i))
    case Raise => s.(coordinator := Raised(if s.coordinator.Serving? then s.coordinator.index else |s.sessions|))
    case Release =>
      s.(coordinator := Released,
         sessions := seq(|s.sessions|, i requires 0 <= i < |s.sessions| =>
           s.sessions[i].(resume := true, turn2Start := true, turn2Done := true)))
    case Produce(id) =>
      s.(sessions := s.sessions[id := s.sessions[id].(producerStarted := true, turn2Start := true)],
         tracker := Starting(s.tracker, id))
    case Consume(id, finishReason, complete) =>
      var e := s.sessions[id];
      if !e.turn2Start then
        s.(sessions := s.sessions[id := if finishReason then e.(completedTurns := 1, turn1Done := true) else e])
      else if complete then
        s.(sessions := s.sessions[id := e.(completedTurns := 2, turn2Done := true)],
           tracker := Finishing(s.tracker, id))
      else s
    case EndTask(id, status) =>
      // The finally block of the task.
      s.(sessions := s.sessions[id := s.sessions[id].(
           turn1Done := true, turn2Start := true, turn2Done := true, task := status)],
         tracker := Finishing(s.tracker, id))
  }

  // -------------------------------------------------------------- invariant

  /** The session the coordinator is at, or was at when it raised. */
  function Current(s: State): nat {
    match s.coordinator
    case Serving(i, _) => i
    case Finished => |s.sessions|
    case Raised(i) => i
    case Released => 0
  }

  function UpTo(n: nat): (ids: seq<nat>)
    ensures |ids| == n && forall i | 0 <= i < n :: ids[i] == i
  {
    seq(n, i => i)
  }

  /** What holds of every session whatever the coordinator does. */
  ghost predicate SessionOk(e: Evaluated, id: nat, active: set<nat>) {
    && (e.producerStarted ==> e.resume && e.turn2Start)
    && (e.turn2Start && e.task.Alive? ==> e.producerStarted)
    && (e.completedTurns >= 2 ==> e.producerStarted && id !in active)
    && (id in active ==> e.producerStarted)
  }

  ghost predicate Inv(s: State) {
    var c := Current(s);
    && c <= |s.sessions| && (s.coordinator.Serving? ==> c < |s.sessions|)
    && (forall j | 0 <= j < |s.sessions| :: SessionOk(s.sessions[j], j, s.tracker.active))
    && (forall j | 0 <= j < c :: s.sessions[j].completedTurns >= 2)
    && (forall j | c < j < |s.sessions| :: !s.sessions[j].resume)
    && (s.coordinator.Serving? ==> (s.sessions[c].resume <==> !s.coordinator.phase.Inspecting?))
    && (s.coordinator.Serving? || s.coordinator.Finished? ==>
          s.resumed == UpTo(c) + if c < |s.sessions| && s.sessions[c].resume then [c] else [])
    && s.tracker.active <= {c}
    && (c == |s.sessions| ==> s.tracker.active == {})
    && s.tracker.order == UpTo(c) + (if c < |s.sessions| && s.sessions[c].producerStarted then [c] else [])
    && s.tracker.overlaps == [] && s.tracker.maxActive <= 1
  }

  lemma {:induction false} InitInv(n: nat)
    ensures Inv(Init(n))
  {
  }

  lemma {:induction false} CoordinatorInv(s: State, step: Step)
    requires Inv(s) && Enabled(s, step) && step in {Inspect, SeeStart, SeeDone, Raise}
    ensures Inv(Apply(s, step))
  {
    if step.SeeDone? && Apply(s, step).coordinator == At(|s.sessions|, s.coordinator.index + 1) {
      var c := s.coordinator.index;
      assert SessionOk(s.sessions[c], c, s.tracker.active);
      assert UpTo(c) + [c] == UpTo(c + 1);
      assert s.tracker.active == {};
      assert c + 1 < |s.sessions| ==> SessionOk(s.sessions[c + 1], c + 1, s.tracker.active);
    }
  }

  lemma {:induction false} ProducerInv(s: State, id: nat)
    requires Inv(s) && Enabled(s, Produce(id)) && !s.coordinator.Released?
    ensures Inv(Apply(s, Produce(id)))
  {
    var c := Current(s);
    assert SessionOk(s.sessions[id], id, s.tracker.active);
    forall j | 0 <= j < c
      ensures s.sessions[j].producerStarted
    {
      assert SessionOk(s.sessions[j], j, s.tracker.active);
    }
    assert id == c && s.tracker.active == {};
    assert {} + {id} == {id};
  }

  lemma {:induction false} ConsumerInv(s: State, step: Step)
    requires Inv(s) && Enabled(s, step) && step.Consume? && !s.coordinator.Released?
    ensures Inv(Apply(s, step))
  {
    forall j | 0 <= j < |s.sessions|
      ensures SessionOk(Apply(s, step).sessions[j], j, Apply(s, step).tracker.active)
    {
      assert SessionOk(s.sessions[j], j, s.tracker.active);
    }
  }

  lemma {:induction false} TaskEndInv(s: State, step: Step)
    requires Inv(s) && Enabled(s, step) && step.EndTask? && !s.coordinator.Released?
    ensures Inv(Apply(s, step))
  {
    forall j | 0 <= j < |s.sessions|
      ensures SessionOk(Apply(s, step).sessions[j], j, Apply(s, step).tracker.active)
    {
      assert SessionOk(s.sessions[j], j, s.tracker.active);
    }
  }

  // ------------------------------------------------------------------- runs

  ghost predicate IsRun(states: seq<State>, steps: seq<Step>, n: nat) {
    && |states| == |steps| + 1 && states[0] == Init(n)
    && forall k | 0 <= k < |steps| :: Enabled(states[k], steps[k]) && states[k + 1] == Apply(states[k], steps[k])
  }

  lemma {:induction false} ReleasedStays(states: seq<State>, steps: seq<Step>, n: nat, j: nat, k: nat)
    requires IsRun(states, steps, n) && j <= k <= |steps| && states[j].coordinator.Released?
    ensures states[k].coordinator.Released?
    decreases k
  {
    if j < k {
      ReleasedStays(states, steps, n, j, k - 1);
      assert states[k] == Apply(states[k - 1], steps[k - 1]);
    }
  }

  lemma {:induction false} RunInv(states: seq<State>, steps: seq<Step>, n: nat, k: nat)
    requires IsRun(states, steps, n) && k <= |steps| && !states[k].coordinator.Released?
    ensures Inv(states[k]) && |states[k].sessions| == n
  {
    hide Inv;
    if k == 0 {
      InitInv(n);
    } else {
      var before, step := states[k - 1], steps[k - 1];
      assert Enabled(before, step) && states[k] == Apply(before, step);
      if before.coordinator.Released? {
        ReleasedStays(states, steps, n, k - 1, k);
      }
      RunInv(states, steps, n, k - 1);
      match step
      case Produce(id) => ProducerInv(before, id);
      case Consume(_, _, _) => ConsumerInv(before, step);
      case EndTask(_, _) => TaskEndInv(before, step);
      case Release =>
      case _ => CoordinatorInv(before, step);
    }
  }

  /**
    Mutual exclusion and order, in every interleaving, until an exception has left the coordinator and
    its caller has set every event: at most one session is in turn 2, none ever overlapped another, and
    turn 2 started in plan order.
   */
  lemma {:induction false} OneTurn2AtATime(states: seq<State>, steps: seq<Step>, n: nat, k: nat)
    requires IsRun(states, steps, n) && k <= |steps| && !states[k].coordinator.Released?
    ensures |states[k].tracker.active| <= 1
    ensures states[k].tracker.overlaps == [] && states[k].tracker.maxActive <= 1
    ensures states[k].tracker.order <= UpTo(n)
  {
    RunInv(states, steps, n, k);
    var s := states[k];
    SubsetOfOne(s.tracker.active, Current(s));
  }

  lemma {:induction false} SubsetOfOne(xs: set<nat>, x: nat)
    requires xs <= {x}
    ensures |xs| <= 1
  {
    if x in xs {
      assert xs == {x};
    } else {
      assert xs == {};
    }
  }

  /** The coordinator is at a session only when every earlier one both started and finished its turn 2. */
  lemma {:induction false} MovesOnWhenFinished(states: seq<State>, steps: seq<Step>, n: nat, k: nat, j: nat)
    requires IsRun(states, steps, n) && k <= |steps|
    requires states[k].coordinator.Serving? || states[k].coordinator.Finished?
    requires j < Current(states[k])
    ensures j < n == |states[k].sessions| && states[k].sessions[j].completedTurns >= 2
    ensures states[k].sessions[j].producerStarted && j !in states[k].tracker.active
    ensures j < |states[k].tracker.order| && states[k].tracker.order[j] == j
    ensures states[k].coordinator.Finished? ==>
      states[k].tracker.order == states[k].resumed == UpTo(n) && states[k].tracker.active == {}
  {
    RunInv(states, steps, n, k);
    assert SessionOk(states[k].sessions[j], j, states[k].tracker.active);
  }

  /** What a session's events and counter say of each other; a task that has ended has set every event. */
  ghost predicate EventsAgree(e: Evaluated, released: bool) {
    && (!e.task.Alive? ==> e.turn1Done && e.turn2Start && e.turn2Done)
    && (e.task.Alive? && e.turn1Done ==> e.completedTurns >= 1)
    && (e.task.Alive? && e.turn2Done ==> released || e.completedTurns == 2)
    && (released ==> e.resume && e.turn2Start && e.turn2Done)
    && (e.completedTurns == 1 ==> e.turn1Done)
    && (e.completedTurns >= 2 ==> e.completedTurns == 2 && e.turn2Start && e.turn2Done)
  }

  lemma {:induction false} EventsAgreeStep(s: State, step: Step)
    requires Enabled(s, step)
    requires forall j | 0 <= j < |s.sessions| :: EventsAgree(s.sessions[j], s.coordinator.Released?)
    ensures var t := Apply(s, step);
      forall j | 0 <= j < |t.sessions| :: EventsAgree(t.sessions[j], t.coordinator.Released?)
  {
  }

  /** In every run, released or not, nobody waits for an event of a task that has ended. */
  lemma {:induction false} RunEventsAgree(states: seq<State>, steps: seq<Step>, n: nat, k: nat)
    requires IsRun(states, steps, n) && k <= |steps|
    ensures forall j | 0 <= j < |states[k].sessions| ::
      EventsAgree(states[k].sessions[j], states[k].coordinator.Released?)
  {
    hide EventsAgree;
    if k == 0 {
      FreshEventsAgree(n);
    } else {
      RunEventsAgree(states, steps, n, k - 1);
      EventsAgreeStep(states[k - 1], steps[k - 1]);
    }
  }

  lemma {:induction false} FreshEventsAgree(n: nat)
    ensures forall j | 0 <= j < n :: EventsAgree(Init(n).sessions[j], false)
  {
  }

  /** When a wait of the coordinator ends, it goes on only with the event set and a task that has not failed. */
  lemma {:induction false} WaitsMean(s: State, step: Step)
    requires Enabled(s, step) && step in {Inspect, SeeStart, SeeDone}
    ensures var e, t := s.sessions[s.coordinator.index], Apply(s, step);
      && (step.Inspect? ==> (t.coordinator.Raised? <==> !e.task.Alive?))
      && (t.coordinator.Raised? ==> t.sessions == s.sessions && t.coordinator.index == s.coordinator.index)
    ensures step in {SeeStart, SeeDone} ==>
      var e, t := s.sessions[s.coordinator.index], Apply(s, step);
      && t.sessions == s.sessions && t.tracker == s.tracker && t.resumed == s.resumed
      && (step.SeeStart? ==> (t.coordinator.Raised? <==> !e.turn2Start || e.task.Failed?))
      && (step.SeeDone? ==> (t.coordinator.Raised? <==> !e.turn2Done || e.task.Failed? || e.completedTurns < 2))
      && (step.SeeStart? && !t.coordinator.Raised? ==> t.coordinator == Serving(s.coordinator.index, WaitingDone))
      && (step.SeeDone? && !t.coordinator.Raised? ==> Current(t) == s.coordinator.index + 1)
  {
  }

  // ----------------------------------------------------------------- history

  /** One of the first k steps ended the task with that status. */
  ghost predicate EndedWith(steps: seq<Step>, k: nat, id: nat, status: TaskStatus)
    requires k <= |steps|
  {
    EndTask(id, status) in steps[..k]
  }

  /** One of the first k steps was an output of session id that finished turn 2. */
  ghost predicate FinishedTurn2(states: seq<State>, steps: seq<Step>, k: nat, id: nat)
    requires k <= |steps| <= |states|
  {
    exists j :: 0 <= j < k && id < |states[j].sessions| && IsTurn2Finish(states[j], steps[j], id)
  }

  predicate IsTurn2Finish(s: State, step: Step, id: nat)
    requires id < |s.sessions|
  {
    step.Consume? && step.id == id && step.complete && s.sessions[id].turn2Start
  }

  /** One of the first k steps was an output of session id that finished turn 1. */
  ghost predicate FinishedTurn1(states: seq<State>, steps: seq<Step>, k: nat, id: nat)
    requires k <= |steps| <= |states|
  {
    exists j :: 0 <= j < k && id < |states[j].sessions| && IsTurn1Finish(states[j], steps[j], id)
  }

  predicate IsTurn1Finish(s: State, step: Step, id: nat)
    requires id < |s.sessions|
  {
    step.Consume? && step.id == id && step.finishReason && !s.sessions[id].turn2Start
  }

  /** What one step does to a session's task, its producer and its count of turns. */
  lemma {:induction false} StepOnSession(s: State, step: Step, id: nat)
    requires Enabled(s, step) && id < |s.sessions|
    ensures var e, t := s.sessions[id], Apply(s, step);
      && |t.sessions| == |s.sessions|
      && (t.sessions[id].task == if step.EndTask? && step.id == id then step.status else e.task)
      && (t.sessions[id].producerStarted <==> e.producerStarted || step == Produce(id))
      && (IsTurn2Finish(s, step, id) ==> t.sessions[id].completedTurns == 2)
      && (IsTurn1Finish(s, step, id) ==> t.sessions[id].completedTurns == 1)
      && (!IsTurn2Finish(s, step, id) && !IsTurn1Finish(s, step, id) ==>
            t.sessions[id].completedTurns == e.completedTurns)
  {
  }

  lemma {:induction false} EndedWithMore(steps: seq<Step>, k: nat, id: nat, status: TaskStatus)
    requires k < |steps|
    ensures EndedWith(steps, k + 1, id, status) <==> EndedWith(steps, k, id, status) || steps[k] == EndTask(id, status)
    ensures Produce(id) in steps[..k + 1] <==> Produce(id) in steps[..k] || steps[k] == Produce(id)
  {
    assert steps[..k + 1] == steps[..k] + [steps[k]];
  }

  /**
    What is recorded of a session is its history: its task has ended as some step ended it, its producer has
    started if some step started it, and its turns are counted by the outputs that finished them.
   */
  lemma {:induction false} RunIsItsHistory(states: seq<State>, steps: seq<Step>, n: nat, k: nat, id: nat)
    requires IsRun(states, steps, n) && k <= |steps| && id < n
    ensures |states[k].sessions| == n
    ensures var e := states[k].sessions[id];
      && (forall status: TaskStatus | !status.Alive? :: e.task == status <==> EndedWith(steps, k, id, status))
      && (e.producerStarted <==> Produce(id) in steps[..k])
      && (e.completedTurns == 2 <==> FinishedTurn2(states, steps, k, id))
      && (e.completedTurns >= 1 <==> FinishedTurn1(states, steps, k, id) || FinishedTurn2(states, steps, k, id))
      && e.completedTurns <= 2
  {
    if k > 0 {
      RunIsItsHistory(states, steps, n, k - 1, id);
      var s, step := states[k - 1], steps[k - 1];
      RunEventsAgree(states, steps, n, k - 1);
      assert EventsAgree(s.sessions[id], s.coordinator.Released?);
      assert Enabled(s, step) && states[k] == Apply(s, step);
      StepOnSession(s, step, id);
      FinishedMore(states, steps, k - 1, id);
      forall status: TaskStatus {
        EndedWithMore(steps, k - 1, id, status);
      }
    }
  }

  lemma {:induction false} FinishedMore(states: seq<State>, steps: seq<Step>, k: nat, id: nat)
    requires k < |steps| <= |states| && id < |states[k].sessions|
    ensures FinishedTurn2(states, steps, k + 1, id) <==>
      FinishedTurn2(states, steps, k, id) || IsTurn2Finish(states[k], steps[k], id)
    ensures FinishedTurn1(states, steps, k + 1, id) <==>
      FinishedTurn1(states, steps, k, id) || IsTurn1Finish(states[k], steps[k], id)
  {
    hide IsTurn1Finish, IsTurn2Finish;
    if FinishedTurn2(states, steps, k, id) {
      var j :| 0 <= j < k && id < |states[j].sessions| && IsTurn2Finish(states[j], steps[j], id);
      assert j < k + 1;
    }
    if FinishedTurn1(states, steps, k, id) {
      var j :| 0 <= j < k && id < |states[j].sessions| && IsTurn1Finish(states[j], steps[j], id);
      assert j < k + 1;
    }
  }

  // ---------------------------------------------------------------- progress

  /** steps leads from the first of the states to the last. */
  ghost predicate Leads(states: seq<State>, steps: seq<Step>) {
    && |states| == |steps| + 1
    && forall k | 0 <= k < |steps| :: Enabled(states[k], steps[k]) && states[k + 1] == Apply(states[k], steps[k])
  }

  /** The coordinator serves a session, and the tasks from that session on live. */
  ghost predicate IsHealthy(s: State) {
    && s.coordinator.Serving? && s.coordinator.index < |s.sessions| && Inv(s)
    && forall j | s.coordinator.index <= j < |s.sessions| :: s.sessions[j].task.Alive?
  }

  /** From s the steps lead to a coordinator that has served everybody, in plan order. */
  ghost predicate LeadsToFinish(s: State, states: seq<State>, steps: seq<Step>) {
    && Leads(states, steps) && states[0] == s
    && states[|steps|].coordinator.Finished?
    && states[|steps|].tracker.order == states[|steps|].resumed == UpTo(|s.sessions|)
    && states[|steps|].tracker.overlaps == [] && states[|steps|].tracker.active == {}
  }

  ghost predicate CanFinish(s: State) {
    exists states, steps :: LeadsToFinish(s, states, steps)
  }

  lemma {:induction false} FinishOneStepLater(s: State, step: Step)
    requires Enabled(s, step) && |Apply(s, step).sessions| == |s.sessions| && CanFinish(Apply(s, step))
    ensures CanFinish(s)
  {
    hide Enabled, Apply;
    var t := Apply(s, step);
    var states, steps :| LeadsToFinish(t, states, steps);
    assert forall k | 0 < k < |[step] + steps| :: ([step] + steps)[k] == steps[k - 1];
    assert LeadsToFinish(s, [s] + states, [step] + steps);
  }

  lemma {:induction false} FinishedIsFinish(s: State)
    requires Inv(s) && s.coordinator.Finished?
    ensures CanFinish(s)
  {
    assert UpTo(|s.sessions|) + [] == UpTo(|s.sessions|);
    assert LeadsToFinish(s, [s], []);
  }

  /** How many of its own steps the coordinator is from the end. */
  function StepsLeft(s: State): nat
    requires s.coordinator.Serving? && s.coordinator.index < |s.sessions|
  {
    var e := s.sessions[s.coordinator.index];
    5 * (|s.sessions| - s.coordinator.index)
      - match s.coordinator.phase
        case Inspecting => 0
        case WaitingStart => if e.producerStarted then 2 else 1
        case WaitingDone => if e.completedTurns >= 2 && e.turn2Done then 4 else if e.producerStarted then 3 else 2
  }

  /** The step that brings the coordinator's session on. */
  function NextStep(s: State): Step
    requires s.coordinator.Serving? && s.coordinator.index < |s.sessions|
  {
    var c := s.coordinator.index;
    var e := s.sessions[c];
    match s.coordinator.phase
    case Inspecting => Inspect
    case WaitingStart => if e.producerStarted then SeeStart else Produce(c)
    case WaitingDone =>
      if e.completedTurns >= 2 && e.turn2Done then SeeDone
      else if e.producerStarted then Consume(c, true, true) else Produce(c)
  }

  lemma {:induction false} NextStepIsEnabled(s: State)
    requires IsHealthy(s)
    ensures Enabled(s, NextStep(s)) && Inv(Apply(s, NextStep(s)))
  {
    var c, step := s.coordinator.index, NextStep(s);
    assert SessionOk(s.sessions[c], c, s.tracker.active);
    match step
    case Produce(id) => ProducerInv(s, id);
    case Consume(_, _, _) => ConsumerInv(s, step);
    case _ => CoordinatorInv(s, step);
  }

  lemma {:induction false} NextStepAdvances(s: State)
    requires IsHealthy(s) && Enabled(s, NextStep(s))
    ensures var t := Apply(s, NextStep(s));
      && |t.sessions| == |s.sessions|
      && (forall j | 0 <= j < |s.sessions| :: t.sessions[j].task == s.sessions[j].task)
      && (t.coordinator.Finished? ||
            (t.coordinator.Serving? && s.coordinator.index <= t.coordinator.index < |t.sessions|
              && StepsLeft(t) < StepsLeft(s)))
  {
    var c := s.coordinator.index;
    assert SessionOk(s.sessions[c], c, s.tracker.active);
    hide Inv;
  }

  lemma {:induction false} HealthyStep(s: State)
    requires IsHealthy(s)
    ensures var t := Apply(s, NextStep(s));
      && Enabled(s, NextStep(s)) && Inv(t) && |t.sessions| == |s.sessions|
      && (t.coordinator.Finished? || (IsHealthy(t) && StepsLeft(t) < StepsLeft(s)))
  {
    NextStepIsEnabled(s);
    NextStepAdvances(s);
    hide Inv, Apply, Enabled, NextStep, StepsLeft;
  }

  /** Nobody waits for ever: as long as the tasks live, the coordinator can be brought to the end. */
  lemma {:induction false} HealthyCanFinish(s: State)
    requires IsHealthy(s)
    ensures CanFinish(s)
    decreases StepsLeft(s)
  {
    hide Inv, Apply, Enabled, NextStep, StepsLeft;
    HealthyStep(s);
    var t := Apply(s, NextStep(s));
    if t.coordinator.Finished? {
      FinishedIsFinish(t);
    } else {
      HealthyCanFinish(t);
    }
    FinishOneStepLater(s, NextStep(s));
  }

  /** From every reached state in which the tasks from the coordinator's session on live, everybody can be served. */
  lemma {:induction false} ReachedCanFinish(states: seq<State>, steps: seq<Step>, n: nat, k: nat)
    requires IsRun(states, steps, n) && k <= |steps| && states[k].coordinator.Serving?
    requires forall j | states[k].coordinator.index <= j < |states[k].sessions| :: states[k].sessions[j].task.Alive?
    ensures CanFinish(states[k])
  {
    RunInv(states, steps, n, k);
    HealthyCanFinish(states[k]);
  }

  /** Every plan can be served to the end, each session in its turn. */
  lemma {:induction false} PlanCanFinish(n: nat)
    ensures exists states: seq<State>, steps: seq<Step> ::
      && IsRun(states, steps, n) && states[|steps|].coordinator.Finished?
      && states[|steps|].tracker.order == UpTo(n)
  {
    InitInv(n);
    if n == 0 {
      FinishedIsFinish(Init(n));
    } else {
      HealthyCanFinish(Init(n));
    }
    var states, steps :| LeadsToFinish(Init(n), states, steps);
    assert IsRun(states, steps, n);
  }

  // ---------------------------------------------------------- after the release

  /** The steps lead from s to a state whose tracker has seen an overlap that s had not. */
  ghost predicate LeadsToOverlap(s: State, states: seq<State>, steps: seq<Step>) {
    Leads(states, steps) && states[0] == s && states[|steps|].tracker.overlaps != s.tracker.overlaps
  }

  ghost predicate CanOverlap(s: State) {
    exists states, steps :: LeadsToOverlap(s, states, steps)
  }

  /** Session i can still start its turn 2, and session j is in its own or can still start it. */
  predicate MeetsIn(s: State, i: nat, j: nat) {
    CanStart(s, i) && i != j && (j in s.tracker.active || CanStart(s, j))
  }

  predicate TwoMayMeet(s: State) {
    exists i, j | 0 <= i < |s.sessions| && 0 <= j < |s.sessions| :: MeetsIn(s, i, j)
  }

  /** Only started, living sessions of the plan are active, and after the release nobody waits for an event. */
  ghost predicate ActiveStarted(s: State) {
    && (forall id | id in s.tracker.active ::
          id < |s.sessions| && s.sessions[id].producerStarted && s.sessions[id].task.Alive?)
    && (s.coordinator.Released? ==> forall j | 0 <= j < |s.sessions| :: s.sessions[j].resume)
  }

  lemma {:induction false} ActiveStartedStep(s: State, step: Step)
    requires ActiveStarted(s) && Enabled(s, step)
    ensures ActiveStarted(Apply(s, step)) && |Apply(s, step).sessions| == |s.sessions|
    ensures s.coordinator.Released? ==> Apply(s, step).coordinator.Released?
  {
  }

  lemma {:induction false} RunActiveStarted(states: seq<State>, steps: seq<Step>, n: nat, k: nat)
    requires IsRun(states, steps, n) && k <= |steps|
    ensures ActiveStarted(states[k]) && |states[k].sessions| == n
  {
    if k > 0 {
      RunActiveStarted(states, steps, n, k - 1);
      ActiveStartedStep(states[k - 1], steps[k - 1]);
    }
  }

  /** With no two sessions left to meet, no step makes an overlap, and none are left after it. */
  lemma {:induction false} ApartStaysApart(s: State, step: Step)
    requires ActiveStarted(s) && s.coordinator.Released? && Enabled(s, step) && !TwoMayMeet(s)
    ensures Apply(s, step).tracker.overlaps == s.tracker.overlaps && !TwoMayMeet(Apply(s, step))
  {
    var t := Apply(s, step);
    if step.Produce? && s.tracker.active != {} {
      var j :| j in s.tracker.active;
      assert MeetsIn(s, step.id, j);
    }
    forall i, j | 0 <= i < |t.sessions| && 0 <= j < |t.sessions|
      ensures !MeetsIn(t, i, j)
    {
      assert !MeetsIn(s, i, j);
      assert step.Produce? ==> !MeetsIn(s, i, step.id);
    }
  }

  lemma {:induction false} ApartNeverOverlaps(states: seq<State>, steps: seq<Step>, k: nat)
    requires Leads(states, steps) && k <= |steps|
    requires ActiveStarted(states[0]) && states[0].coordinator.Released? && !TwoMayMeet(states[0])
    ensures states[k].tracker.overlaps == states[0].tracker.overlaps
    ensures ActiveStarted(states[k]) && states[k].coordinator.Released? && !TwoMayMeet(states[k])
  {
    if k > 0 {
      ApartNeverOverlaps(states, steps, k - 1);
      ActiveStartedStep(states[k - 1], steps[k - 1]);
      ApartStaysApart(states[k - 1], steps[k - 1]);
    }
  }

  /** A producer that starts while another session is active makes an overlap. */
  lemma {:induction false} StartingOverlaps(s: State, i: nat, j: nat)
    requires Enabled(s, Produce(i)) && j in s.tracker.active
    ensures CanOverlap(s)
  {
    var t := Apply(s, Produce(i));
    assert t.tracker.overlaps == s.tracker.overlaps + [s.tracker.active + {i}];
    assert LeadsToOverlap(s, [s, t], [Produce(i)]);
  }

  /** What can happen after a step that makes no overlap can happen before it. */
  lemma {:induction false} OverlapOneStepLater(s: State, step: Step)
    requires Enabled(s, step) && Apply(s, step).tracker.overlaps == s.tracker.overlaps && CanOverlap(Apply(s, step))
    ensures CanOverlap(s)
  {
    hide Enabled, Apply;
    var t := Apply(s, step);
    var states, steps :| LeadsToOverlap(t, states, steps);
    assert forall k | 0 < k < |[step] + steps| :: ([step] + steps)[k] == steps[k - 1];
    assert LeadsToOverlap(s, [s] + states, [step] + steps);
  }

  /** The producers of the two sessions run one after the other. */
  lemma {:induction false} MeetingOverlaps(s: State, i: nat, j: nat)
    requires ActiveStarted(s) && s.coordinator.Released? && MeetsIn(s, i, j)
    ensures CanOverlap(s)
  {
    hide CanOverlap;
    if j in s.tracker.active {
      StartingOverlaps(s, i, j);
    } else {
      StartingOverlaps(Apply(s, Produce(j)), i, j);
      if s.tracker.active == {} {
        OverlapOneStepLater(s, Produce(j));
      } else {
        var other :| other in s.tracker.active;
        StartingOverlaps(s, j, other);
      }
    }
  }

  /**
    Over every continuation of every released run: two turns can still overlap exactly when one session
    can still start its turn 2 and another is in its own, or can still start it.
   */
  lemma {:induction false} OverlapAfterReleaseIff(states: seq<State>, steps: seq<Step>, n: nat, k: nat)
    requires IsRun(states, steps, n) && k <= |steps| && states[k].coordinator.Released?
    ensures CanOverlap(states[k]) <==> TwoMayMeet(states[k])
  {
    RunActiveStarted(states, steps, n, k);
    var s := states[k];
    if TwoMayMeet(s) {
      var i, j :| 0 <= i < |s.sessions| && 0 <= j < |s.sessions| && MeetsIn(s, i, j);
      MeetingOverlaps(s, i, j);
    } else {
      forall more, further | LeadsToOverlap(s, more, further)
        ensures false
      {
        ApartNeverOverlaps(more, further, |further|);
      }
    }
  }

  /** Session j comes after the one the coordinator was at, and its task lives. */
  predicate LivesAfter(s: State, c: nat, j: nat) {
    c < j < |s.sessions| && s.sessions[j].task.Alive?
  }

  /** Two sessions after the coordinator's live, or one does and the coordinator's own is not over. */
  ghost predicate GivesUpExclusion(s: State, c: nat) {
    exists i ::
      && LivesAfter(s, c, i)
      && (c in s.tracker.active || CanStart(s, c) || exists j :: j != i && LivesAfter(s, c, j))
  }

  /**
    What the caller can check before it sets every event: whether it gives up exclusion depends on which
    tasks still live after the session the coordinator was at, and on where that session is in turn 2.
   */
  lemma {:induction false} ReleaseLosesExclusionIff(states: seq<State>, steps: seq<Step>, n: nat, k: nat)
    requires IsRun(states, steps, n) && k < |steps| && steps[k] == Release
    ensures CanOverlap(states[k + 1]) <==> GivesUpExclusion(states[k], states[k].coordinator.index)
  {
    var s, t, c := states[k], states[k + 1], states[k].coordinator.index;
    assert t == Apply(s, Release);
    RunInv(states, steps, n, k);
    OverlapAfterReleaseIff(states, steps, n, k + 1);
    forall j | 0 <= j < n
      ensures CanStart(t, j) == CanStart(s, j)
      ensures j < c ==> !CanStart(s, j) && j !in s.tracker.active
      ensures j > c ==> (CanStart(s, j) <==> LivesAfter(s, c, j)) && j !in s.tracker.active
    {
      assert SessionOk(s.sessions[j], j, s.tracker.active);
    }
    if GivesUpExclusion(s, c) {
      var i :| LivesAfter(s, c, i)
        && (c in s.tracker.active || CanStart(s, c) || exists j :: j != i && LivesAfter(s, c, j));
      if c in s.tracker.active || CanStart(s, c) {
        assert MeetsIn(t, i, c);
      } else {
        var j :| j != i && LivesAfter(s, c, j);
        assert MeetsIn(t, i, j);
      }
    }
    if TwoMayMeet(t) {
      var i, j :| 0 <= i < n && 0 <= j < n && MeetsIn(t, i, j);
      assert i > c ==> LivesAfter(s, c, i);
      assert j > c ==> LivesAfter(s, c, j);
    }
  }

  /** A coordinator that stops because its session has died keeps exclusion unless two later sessions live. */
  lemma {:induction false} DeadSessionKeepsExclusion(states: seq<State>, steps: seq<Step>, n: nat, k: nat, j: nat)
    requires IsRun(states, steps, n) && k < |steps| && steps[k] == Release
    requires var s, c := states[k], states[k].coordinator.index;
      && c < n == |s.sessions| && !s.sessions[c].task.Alive?
      && forall i | LivesAfter(s, c, i) :: i == j
    ensures !CanOverlap(states[k + 1])
  {
    RunActiveStarted(states, steps, n, k);
    ReleaseLosesExclusionIff(states, steps, n, k);
  }

  /** After the error handler has set every event, both sessions of a plan of two can be in turn 2 at once. */
  lemma {:induction false} ReleaseCanOverlap()
    ensures exists states, steps: seq<Step> :: IsRun(states, steps, 2) && CanOverlap(states[|steps|])
  {
    var s0 := Init(2);
    var s1 := Apply(s0, Inspect);
    var s2 := Apply(s1, Raise);
    var states, steps := [s0, s1, s2, Apply(s2, Release)], [Inspect, Raise, Release];
    assert IsRun(states, steps, 2);
    assert LivesAfter(s2, 0, 1) && CanStart(s2, 0) && GivesUpExclusion(s2, 0);
    ReleaseLosesExclusionIff(states, steps, 2, 2);
  }

  /** In a plan of one session no run ever overlaps, released or not. */
  lemma {:induction false} OneSessionNeverOverlaps(states: seq<State>, steps: seq<Step>, k: nat)
    requires IsRun(states, steps, 1) && k <= |steps|
    ensures states[k].tracker.overlaps == []
  {
    hide TwoMayMeet, ActiveStarted;
    if !states[k].coordinator.Released? {
      OneTurn2AtATime(states, steps, 1, k);
    } else if k > 0 {
      OneSessionNeverOverlaps(states, steps, k - 1);
      var s := states[k - 1];
      assert Enabled(s, steps[k - 1]) && states[k] == Apply(s, steps[k - 1]);
      RunActiveStarted(states, steps, 1, k - 1);
      if s.coordinator.Released? {
        AloneNeverMeets(s);
        ApartStaysApart(s, steps[k - 1]);
      }
    }
  }

  lemma {:induction false} AloneNeverMeets(s: State)
    requires |s.sessions| <= 1
    ensures !TwoMayMeet(s)
  {
  }

  // ------------------------------------------------------ the tracker in a run

  /** The step is taken, and the tracker object is told of it. */
  method Take(s: State, step: Step, tracker: SequentialResumeTracker) returns (t: State)
    requires Enabled(s, step) && tracker.Value() == s.tracker
    modifies tracker
    ensures t == Apply(s, step) && tracker.Value() == t.tracker
  {
    t := Apply(s, step);
    match step
    case Produce(id) =>
      tracker.StartTurn2(id);
    case Consume(id, _, complete) =>
      if s.sessions[id].turn2Start && complete {
        tracker.FinishTurn2(id);
      }
    case EndTask(id, _) =>
      if id in tracker.active {
        tracker.FinishTurn2(id);
      }
    case _ =>
  }

  /** Any schedule of the event loop, which takes each offered step that it can, and the tracker it leaves behind. */
  method RunSteps(n: nat, offered: seq<Step>)
    returns (tracker: SequentialResumeTracker, ghost states: seq<State>, ghost steps: seq<Step>)
    ensures IsRun(states, steps, n) && fresh(tracker)
    ensures tracker.Value() == states[|steps|].tracker
    ensures !states[|steps|].coordinator.Released? ==>
      tracker.overlapEvents == [] && tracker.maxActive <= 1 && tracker.order <= UpTo(n)
  {
    tracker := new SequentialResumeTracker();
    var s := Init(n);
    states, steps := [s], [];
    for k := 0 to |offered|
      invariant IsRun(states, steps, n) && states[|steps|] == s
      invariant fresh(tracker) && tracker.Value() == s.tracker
    {
      if Enabled(s, offered[k]) {
        s := Take(s, offered[k], tracker);
        states, steps := states + [s], steps + [offered[k]];
      }
    }
    if !s.coordinator.Released? {
      OneTurn2AtATime(states, steps, n, |steps|);
    }
  }
}
