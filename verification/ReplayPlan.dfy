/**
  build_replay_plan and flatten_replay_plan of qwen_bailian_trace.py: every session of the trace is
  rebuilt turn by turn against one shared block store, and the turns are then put in send order.
 */
module ReplayPlan {
  import opened Sequences
  import opened TraceRecords
  import opened Grouping
  import opened Reconstruction
  import opened Rebuildable
  import opened BlockStore

  const MINIMUM_TOKEN_ID := 1000
  const MAXIMUM_TOKEN_ID := 50000

  datatype ReplayTurn = ReplayTurn(
    root: int, chatId: int, parentId: int, turn: int,
    sendAt: real, inputLength: nat, traceOutputLength: int, delta: seq<int>)

  type SessionPlan = (int, seq<ReplayTurn>)

  /** The session's prompt after its first n turns: their deltas, end to end. */
  function Prompt(turns: seq<ReplayTurn>, n: nat): seq<int>
    requires n <= |turns|
  {
    if n == 0 then [] else Prompt(turns, n - 1) + turns[n - 1].delta
  }

  lemma {:induction false} PromptOfPrefix(turns: seq<ReplayTurn>, more: seq<ReplayTurn>, n: nat)
    requires n <= |turns|
    ensures Prompt(turns + more, n) == Prompt(turns, n)
  {
    if n > 0 {
      PromptOfPrefix(turns, more, n - 1);
    }
  }

  lemma {:induction false} PromptSnoc(turns: seq<ReplayTurn>, t: ReplayTurn)
    ensures Prompt(turns + [t], |turns| + 1) == Prompt(turns, |turns|) + t.delta
  {
    PromptOfPrefix(turns, [t], |turns|);
  }

  function SendAt(timestamp: real, traceStart: real, timeScale: real): real {
    (timestamp - traceStart) * timeScale
  }

  /** The turn replays the record: same ids, scaled send time, and a prompt of the recorded length from the store. */
  ghost predicate Replays(
      turns: seq<ReplayTurn>, k: nat, root: int, record: Record, blocks: Blocks, traceStart: real, timeScale: real)
    requires k < |turns|
  {
    var t, prompt := turns[k], Prompt(turns, k + 1);
    && t.root == root && t.chatId == record.chatId && t.parentId == record.parentId && t.turn == record.turn
    && t.sendAt == SendAt(record.timestamp, traceStart, timeScale)
    && t.inputLength == record.inputLength && t.traceOutputLength == record.outputLength
    && |prompt| == record.inputLength
    && Reflects(prompt, record.hashIds, blocks)
  }

  ghost predicate ReplaysSession(
      turns: seq<ReplayTurn>, root: int, session: Session, blocks: Blocks, traceStart: real, timeScale: real)
  {
    && |turns| <= |session|
    && forall k | 0 <= k < |turns| :: Replays(turns, k, root, session[k], blocks, traceStart, timeScale)
  }

  lemma {:induction false} ReplaysStill(
      turns: seq<ReplayTurn>, root: int, session: Session, before: Blocks, after: Blocks,
      traceStart: real, timeScale: real)
    requires ReplaysSession(turns, root, session, before, traceStart, timeScale) && Extends(before, after)
    ensures ReplaysSession(turns, root, session, after, traceStart, timeScale)
  {
    forall k | 0 <= k < |turns|
      ensures Replays(turns, k, root, session[k], after, traceStart, timeScale)
    {
      assert Replays(turns, k, root, session[k], before, traceStart, timeScale);
      ReflectsStill(Prompt(turns, k + 1), session[k].hashIds, before, after);
    }
  }

  lemma {:induction false} ReplaysOneMore(
      turns: seq<ReplayTurn>, t: ReplayTurn, root: int, session: Session, blocks: Blocks,
      traceStart: real, timeScale: real)
    requires |turns| < |session| && ReplaysSession(turns, root, session, blocks, traceStart, timeScale)
    requires Replays(turns + [t], |turns|, root, session[|turns|], blocks, traceStart, timeScale)
    ensures ReplaysSession(turns + [t], root, session, blocks, traceStart, timeScale)
  {
    forall k | 0 <= k < |turns|
      ensures Replays(turns + [t], k, root, session[k], blocks, traceStart, timeScale)
    {
      assert Replays(turns, k, root, session[k], blocks, traceStart, timeScale);
      PromptOfPrefix(turns, [t], k + 1);
    }
  }

  /** The whole plan, session by session in the order of the trace, all from the same blocks. */
  ghost predicate ReplaysAll(
      plan: seq<SessionPlan>, sessions: seq<Group>, blocks: Blocks, traceStart: real, timeScale: real)
  {
    && |plan| <= |sessions|
    && forall i | 0 <= i < |plan| ::
         && |plan[i].1| == |sessions[i].1| && plan[i].0 == sessions[i].0.id
         && ReplaysSession(plan[i].1, plan[i].0, sessions[i].1, blocks, traceStart, timeScale)
  }

  lemma {:induction false} ReplaysAllStill(
      plan: seq<SessionPlan>, sessions: seq<Group>, before: Blocks, after: Blocks, traceStart: real, timeScale: real)
    requires ReplaysAll(plan, sessions, before, traceStart, timeScale) && Extends(before, after)
    ensures ReplaysAll(plan, sessions, after, traceStart, timeScale)
  {
    forall i | 0 <= i < |plan|
      ensures ReplaysSession(plan[i].1, plan[i].0, sessions[i].1, after, traceStart, timeScale)
    {
      ReplaysStill(plan[i].1, plan[i].0, sessions[i].1, before, after, traceStart, timeScale);
    }
  }

  /** The prompts of the turns are, turn by turn, the tokens of the reconstruction. */
  ghost predicate Retells(turns: seq<ReplayTurn>, deal: Deal, session: Session, blocks: Blocks)
    requires AllValidated(session) && WellSized(blocks)
  {
    && |turns| <= |session|
    && forall k | 0 <= k <= |turns| ::
         && AfterTurns(deal, session, k, blocks).Ok?
         && Prompt(turns, k) == AfterTurns(deal, session, k, blocks).value.tokens
  }

  lemma {:induction false} RetellsNothing(deal: Deal, session: Session, blocks: Blocks)
    requires AllValidated(session) && WellSized(blocks)
    ensures Retells([], deal, session, blocks)
  {
  }

  lemma {:induction false} RetellsOneMore(
      turns: seq<ReplayTurn>, t: ReplayTurn, deal: Deal, session: Session, blocks: Blocks, w: World)
    requires AllValidated(session) && WellSized(blocks) && |turns| < |session|
    requires Retells(turns, deal, session, blocks)
    requires AfterTurns(deal, session, |turns| + 1, blocks) == Ok(w) && w.tokens == Prompt(turns, |turns|) + t.delta
    ensures Retells(turns + [t], deal, session, blocks)
  {
    hide AfterTurns, Prompt;
    PromptSnoc(turns, t);
    forall k | 0 <= k <= |turns| {
      PromptOfPrefix(turns, [t], k);
    }
  }

  /** The same of the first sessions of a trace, replayed one after the other from an empty store. */
  ghost predicate RetellsAll(plan: seq<SessionPlan>, deal: Deal, sessions: seq<Group>)
    requires SessionsValidated(sessions)
  {
    && |plan| <= |sessions|
    && forall i | 0 <= i < |plan| ::
         && AfterSessions(deal, sessions, i).Ok? && |plan[i].1| == |sessions[i].1|
         && Retells(plan[i].1, deal, sessions[i].1, AfterSessions(deal, sessions, i).value)
  }

  method ReplaySession(
      root: int, session: Session, store: HashTokenBlockStore, traceStart: real, timeScale: real)
    returns (r: Result<seq<ReplayTurn>, ReplayError>)
    requires store.Valid() && AllValidated(session)
    modifies store`blocks
    ensures store.Valid() && Extends(old(store.blocks), store.blocks)
    ensures r.Ok? ==> |r.value| == |session|
    ensures r.Ok? ==> ReplaysSession(r.value, root, session, store.blocks, traceStart, timeScale)
    ensures old(store.InRange([])) ==> store.InRange([])
    ensures r.Ok? && old(store.InRange([])) ==>
      AllWithin(Prompt(r.value, |r.value|), store.minimumTokenId, store.upperBound)
    ensures r.Ok? ==> Retells(r.value, store.Deals(), session, old(store.blocks))
    ensures AfterTurns(store.Deals(), session, |session|, old(store.blocks))
         == if r.Ok? then Ok(World(Prompt(r.value, |r.value|), store.blocks)) else Err(r.error)
  {
    hide Replays, Growing, Reflects, TurnError, TailConflict, Retells, Turn, TailFrom;
    ghost var deal, blocks0 := store.Deals(), store.blocks;
    RetellsNothing(deal, session, blocks0);
    var tokens := new SessionTokens();
    var turns: seq<ReplayTurn> := [];
    var previous: Option<Record> := None;
    for k := 0 to |session|
      invariant store.Valid() && Extends(old(store.blocks), store.blocks) && fresh(tokens)
      invariant |turns| == k && tokens.items == Prompt(turns, k)
      invariant previous == if k == 0 then None else Some(session[k - 1])
      invariant k > 0 ==> |tokens.items| == session[k - 1].inputLength
      invariant k > 0 ==> Reflects(tokens.items, session[k - 1].hashIds, store.blocks)
      invariant old(store.InRange([])) ==> store.InRange(tokens.items)
      invariant ReplaysSession(turns, root, session, store.blocks, traceStart, timeScale)
      invariant Retells(turns, deal, session, blocks0)
      invariant AfterTurns(deal, session, k, blocks0) == Ok(World(tokens.items, store.blocks))
    {
      var record := session[k];
      assert record in session;
      ghost var before := store.blocks;
      var delta := ExtendSessionTokens(record, previous, tokens, store);
      if delta.Err? {
        TurnsStayFailed(deal, session, k + 1, |session|, blocks0);
        return Err(delta.error);
      }
      var t := ReplayTurn(root, record.chatId, record.parentId, record.turn,
                          SendAt(record.timestamp, traceStart, timeScale),
                          record.inputLength, record.outputLength, delta.value);
      ReplaysStill(turns, root, session, before, store.blocks, traceStart, timeScale);
      PromptOfPrefix(turns, [t], k);
      assert Replays(turns + [t], k, root, record, store.blocks, traceStart, timeScale) by {
        ReplaysNewTurn(turns, t, root, record, tokens.items, store.blocks, traceStart, timeScale);
      }
      ReplaysOneMore(turns, t, root, session, store.blocks, traceStart, timeScale);
      RetellsOneMore(turns, t, deal, session, blocks0, World(tokens.items, store.blocks));
      turns := turns + [t];
      previous := Some(record);
    }
    r := Ok(turns);
  }

  lemma {:induction false} ReplaysNewTurn(
      turns: seq<ReplayTurn>, t: ReplayTurn, root: int, record: Record, prompt: seq<int>, blocks: Blocks,
      traceStart: real, timeScale: real)
    requires t == ReplayTurn(root, record.chatId, record.parentId, record.turn,
                             SendAt(record.timestamp, traceStart, timeScale),
                             record.inputLength, record.outputLength, t.delta)
    requires prompt == Prompt(turns, |turns|) + t.delta && |prompt| == record.inputLength
    requires Reflects(prompt, record.hashIds, blocks)
    ensures Replays(turns + [t], |turns|, root, record, blocks, traceStart, timeScale)
  {
    PromptOfPrefix(turns, [t], |turns|);
  }

  /** The earliest timestamp of the trace. */
  function TraceStart(records: seq<Record>): (start: real)
    requires records != []
    ensures forall r | r in records :: start <= r.timestamp
    ensures exists r :: r in records && r.timestamp == start
  {
    if |records| == 1 then records[0].timestamp
    else
      var rest := TraceStart(records[1..]);
      assert records == [records[0]] + records[1..];
      if records[0].timestamp < rest then records[0].timestamp else rest
  }

  /** What a finished plan promises: every session replayed, from one store, with tokens in range. */
  ghost predicate IsReplayPlan(
      plan: seq<SessionPlan>, records: seq<Record>, blocks: Blocks, timeScale: real, vocabSize: int)
    requires records != []
  {
    && |plan| == |SessionsOf(records)|
    && ReplaysAll(plan, SessionsOf(records), blocks, TraceStart(records), timeScale)
    && PromptsWithin(plan, 1000, Min(vocabSize, 50000))
  }

  /** The sessions of the plan have tokens in the range of the store. */
  ghost predicate PromptsWithin(plan: seq<SessionPlan>, low: int, high: int) {
    forall i | 0 <= i < |plan| :: AllWithin(Prompt(plan[i].1, |plan[i].1|), low, high)
  }

  lemma {:induction false} EmptyPlan(
      store: HashTokenBlockStore, sessions: seq<Group>, traceStart: real, timeScale: real)
    requires store.Valid() && store.blocks == map[] && SessionsValidated(sessions)
    ensures store.InRange([]) && ReplaysAll([], sessions, store.blocks, traceStart, timeScale)
    ensures PromptsWithin([], store.minimumTokenId, store.upperBound) && RetellsAll([], store.Deals(), sessions)
    ensures AfterSessions(store.Deals(), sessions, 0) == Ok(store.blocks)
  {
  }

  lemma {:induction false} OneSessionMore(deal: Deal, sessions: seq<Group>, k: nat)
    requires k < |sessions| && SessionsValidated(sessions) && AfterSessions(deal, sessions, k).Ok?
    ensures AllValidated(sessions[k].1)
    ensures var session := sessions[k].1;
      var after := AfterTurns(deal, session, |session|, AfterSessions(deal, sessions, k).value);
      AfterSessions(deal, sessions, k + 1) == if after.Err? then Err(after.error) else Ok(after.value.blocks)
  {
    assert sessions[k] in sessions;
  }

  lemma {:induction false} PlanMore(
      plan: seq<SessionPlan>, turns: seq<ReplayTurn>, store: HashTokenBlockStore, sessions: seq<Group>,
      traceStart: real, timeScale: real, before: Blocks)
    requires store.Valid() && SessionsValidated(sessions) && |plan| < |sessions|
    requires AllValidated(sessions[|plan|].1) && WellSized(before) && |turns| == |sessions[|plan|].1|
    requires ReplaysAll(plan, sessions, store.blocks, traceStart, timeScale)
    requires PromptsWithin(plan, store.minimumTokenId, store.upperBound) && RetellsAll(plan, store.Deals(), sessions)
    requires AfterSessions(store.Deals(), sessions, |plan|) == Ok(before)
    requires var key, session := sessions[|plan|].0, sessions[|plan|].1;
      && ReplaysSession(turns, key.id, session, store.blocks, traceStart, timeScale)
      && Retells(turns, store.Deals(), session, before)
    requires AllWithin(Prompt(turns, |turns|), store.minimumTokenId, store.upperBound)
    ensures var more := plan + [(sessions[|plan|].0.id, turns)];
      && ReplaysAll(more, sessions, store.blocks, traceStart, timeScale)
      && PromptsWithin(more, store.minimumTokenId, store.upperBound)
      && RetellsAll(more, store.Deals(), sessions)
  {
    hide ReplaysSession, Prompt, Retells, AfterTurns, AfterSessions, AllWithin;
  }

  /** The loop over the sessions: all of them are replayed from the one store, up to the first that fails. */
  method ReplaySessions(
      sessions: seq<Group>, store: HashTokenBlockStore, traceStart: real, timeScale: real)
    returns (r: Result<seq<SessionPlan>, ReplayError>)
    requires store.Valid() && store.blocks == map[] && SessionsValidated(sessions)
    modifies store`blocks
    ensures store.Valid()
    ensures r.Ok? ==>
      && |r.value| == |sessions| && ReplaysAll(r.value, sessions, store.blocks, traceStart, timeScale)
      && PromptsWithin(r.value, store.minimumTokenId, store.upperBound)
      && RetellsAll(r.value, store.Deals(), sessions)
    ensures AfterSessions(store.Deals(), sessions, |sessions|)
         == if r.Ok? then Ok(store.blocks) else Err(r.error)
  {
    hide ReplaysSession, ReplaysAll, Prompt, Retells, RetellsAll, AfterTurns, AfterSessions, Extends, PromptsWithin;
    EmptyPlan(store, sessions, traceStart, timeScale);
    ghost var deal := store.Deals();
    var plan: seq<SessionPlan> := [];
    for k := 0 to |sessions|
      invariant store.Valid() && store.InRange([]) && |plan| == k
      invariant ReplaysAll(plan, sessions, store.blocks, traceStart, timeScale)
      invariant PromptsWithin(plan, store.minimumTokenId, store.upperBound)
      invariant RetellsAll(plan, deal, sessions)
      invariant AfterSessions(deal, sessions, k) == Ok(store.blocks)
    {
      var key, session := sessions[k].0, sessions[k].1;
      assert sessions[k] in sessions;
      ghost var before := store.blocks;
      var turns := ReplaySession(key.id, session, store, traceStart, timeScale);
      OneSessionMore(deal, sessions, k);
      if turns.Err? {
        SessionsStayFailed(deal, sessions, k + 1, |sessions|);
        return Err(turns.error);
      }
      ReplaysAllStill(plan, sessions, before, store.blocks, traceStart, timeScale);
      PlanMore(plan, turns.value, store, sessions, traceStart, timeScale, before);
      plan := plan + [(key.id, turns.value)];
    }
    r := Ok(plan);
  }

  /** The tokens of a plan. */
  function PlanDeal(vocabSize: int, seed: int, digest: (int, int, int) -> nat): Deal
    requires vocabSize > MINIMUM_TOKEN_ID
  {
    Dealer(MINIMUM_TOKEN_ID, Min(vocabSize, MAXIMUM_TOKEN_ID), seed, digest)
  }

  /** The token of a hash at a place: the digest of seed, hash and place, brought into the range. */
  lemma {:induction false} PlanDealMeans(
      vocabSize: int, seed: int, digest: (int, int, int) -> nat, hash: int, offset: int)
    requires vocabSize > MINIMUM_TOKEN_ID
    ensures var limit := if vocabSize < 50000 then vocabSize else 50000;
      && 1000 < limit
      && PlanDeal(vocabSize, seed, digest)(hash, offset) == 1000 + digest(seed, hash, offset) % (limit - 1000)
  {
  }

  /** What the reconstruction of the whole trace comes to. */
  ghost function Outcome(records: seq<Record>, deal: Deal): Result<Blocks, ReplayError>
    requires AllValidated(records)
  {
    SessionsAreValidated(records);
    AfterSessions(deal, SessionsOf(records), |SessionsOf(records)|)
  }

  ghost predicate RetellsTrace(plan: seq<SessionPlan>, records: seq<Record>, deal: Deal)
    requires AllValidated(records)
  {
    SessionsAreValidated(records);
    RetellsAll(plan, deal, SessionsOf(records))
  }

  /** The trace gets past the checks that come before any session is replayed. */
  ghost predicate IsReplayable(records: seq<Record>, vocabSize: int, timeScale: real) {
    timeScale > 0.0 && Groupable(records) && records != [] && vocabSize > MINIMUM_TOKEN_ID
  }

  method BuildReplayPlan(
      records: seq<Record>, vocabSize: int, timeScale: real, seed: int, digest: (int, int, int) -> nat)
    returns (r: Result<seq<SessionPlan>, ReplayError>)
    requires AllValidated(records)
    ensures r == Err(TimeScaleNotPositive) <==> timeScale <= 0.0
    ensures timeScale > 0.0 ==> (r.Err? && r.error.Ungroupable? <==> !Groupable(records))
    ensures timeScale > 0.0 && Groupable(records) ==> (r == Err(EmptyTrace) <==> records == [])
    ensures timeScale > 0.0 && Groupable(records) && records != [] ==>
      (r == Err(TokenRangeEmpty) <==> vocabSize <= 1000)
    ensures IsReplayable(records, vocabSize, timeScale) ==>
      var outcome := Outcome(records, PlanDeal(vocabSize, seed, digest));
      (r.Ok? <==> outcome.Ok?) && (r.Err? ==> outcome == Err(r.error))
    ensures r.Ok? ==>
      && IsReplayable(records, vocabSize, timeScale)
      && RetellsTrace(r.value, records, PlanDeal(vocabSize, seed, digest))
      && IsReplayPlan(r.value, records, Outcome(records, PlanDeal(vocabSize, seed, digest)).value, timeScale, vocabSize)
  {
    hide SessionsOf, Groupable, ReplaysAll, TraceStart, PromptsWithin, AllValidated, RetellsAll, AfterSessions;
    if timeScale <= 0.0 {
      return Err(TimeScaleNotPositive);
    }
    var grouped := GroupLinearSessions(records);
    if grouped.Err? {
      return Err(Ungroupable(grouped.error));
    }
    var sessions := grouped.value;
    if records == [] {
      return Err(EmptyTrace);
    }
    var traceStart := TraceStart(records);
    if Min(vocabSize, MAXIMUM_TOKEN_ID) <= MINIMUM_TOKEN_ID {
      return Err(TokenRangeEmpty);
    }
    var store := new HashTokenBlockStore(vocabSize, seed, MINIMUM_TOKEN_ID, MAXIMUM_TOKEN_ID, digest);
    SessionsAreValidated(records);
    r := ReplaySessions(sessions, store, traceStart, timeScale);
  }

  lemma {:induction false} SessionsAreValidated(records: seq<Record>)
    requires AllValidated(records)
    ensures SessionsValidated(SessionsOf(records))
  {
    SessionsAreGroups(records);
  }

  /**
    Which traces are built, whatever the vocabulary, the seed and the digest. One whose sessions the
    classifier accepts and in which every unfinished block is continued by its own hash or by one that no
    earlier turn asks for is built. Without collisions of tokens a trace is built exactly when the
    reconstruction with every token named by its hash succeeds, and that depends on the trace alone.
   */
  lemma {:induction false} BuiltTraces(records: seq<Record>, vocabSize: int, seed: int, digest: (int, int, int) -> nat)
    requires AllValidated(records) && vocabSize > MINIMUM_TOKEN_ID
    ensures var sessions, outcome := SessionsOf(records), Outcome(records, PlanDeal(vocabSize, seed, digest));
      && (AllAccepted(sessions) && TailsContinue(sessions) ==> outcome.Ok?)
      && (Outcome(records, Own()).Ok? ==> outcome.Ok?)
      && (CollisionFree(PlanDeal(vocabSize, seed, digest), Carried(sessions)) ==>
            (outcome.Ok? <==> Outcome(records, Own()).Ok?))
  {
    hide SessionsOf, AfterSessions, CollisionFree, Own, PlanDeal;
    var sessions, deal := SessionsOf(records), PlanDeal(vocabSize, seed, digest);
    SessionsAreValidated(records);
    if AllAccepted(sessions) && TailsContinue(sessions) {
      ContinuedTailsAreReplayed(deal, sessions);
    }
    TraceAloneDecides(deal, sessions);
  }

  // --------------------------------------------------- sharing across sessions

  /**
    Block identity across the whole plan: two prompts whose first n complete blocks carry the same
    hashes begin with the same tokens, whichever sessions and turns they come from.
   */
  lemma {:induction false} SharedHashesSharedTokens(
      plan: seq<SessionPlan>, sessions: seq<Group>, blocks: Blocks, traceStart: real, timeScale: real,
      i: nat, k: nat, j: nat, l: nat, n: nat)
    requires ReplaysAll(plan, sessions, blocks, traceStart, timeScale)
    requires i < |plan| && k < |plan[i].1| && j < |plan| && l < |plan[j].1|
    requires n <= sessions[i].1[k].inputLength / BLOCK_SIZE && n <= sessions[j].1[l].inputLength / BLOCK_SIZE
    requires Take(sessions[i].1[k].hashIds, n) == Take(sessions[j].1[l].hashIds, n)
    ensures BLOCK_SIZE * n <= |Prompt(plan[i].1, k + 1)| && BLOCK_SIZE * n <= |Prompt(plan[j].1, l + 1)|
    ensures Prompt(plan[i].1, k + 1)[..BLOCK_SIZE * n] == Prompt(plan[j].1, l + 1)[..BLOCK_SIZE * n]
  {
    assert Replays(plan[i].1, k, plan[i].0, sessions[i].1[k], blocks, traceStart, timeScale);
    assert Replays(plan[j].1, l, plan[j].0, sessions[j].1[l], blocks, traceStart, timeScale);
    SharedBlocks(Prompt(plan[i].1, k + 1), sessions[i].1[k].hashIds,
                 Prompt(plan[j].1, l + 1), sessions[j].1[l].hashIds, blocks, n);
  }

  lemma {:induction false} SharedBlocks(
      xs: seq<int>, xHashes: seq<int>, ys: seq<int>, yHashes: seq<int>, blocks: Blocks, n: nat)
    requires Reflects(xs, xHashes, blocks) && Reflects(ys, yHashes, blocks)
    requires n <= |xs| / BLOCK_SIZE && n <= |ys| / BLOCK_SIZE && Take(xHashes, n) == Take(yHashes, n)
    ensures xs[..BLOCK_SIZE * n] == ys[..BLOCK_SIZE * n]
  {
    if n > 0 {
      assert Take(xHashes, n - 1) == Take(xHashes, n)[..n - 1] && Take(yHashes, n - 1) == Take(yHashes, n)[..n - 1];
      SharedBlocks(xs, xHashes, ys, yHashes, blocks, n - 1);
      assert Take(xHashes, n)[n - 1] == xHashes[n - 1] && Take(yHashes, n)[n - 1] == yHashes[n - 1];
      assert BlockOf(xs, n - 1) == BlockOf(ys, n - 1);
      assert xs[..BLOCK_SIZE * n] == xs[..BLOCK_SIZE * (n - 1)] + BlockOf(xs, n - 1);
      assert ys[..BLOCK_SIZE * n] == ys[..BLOCK_SIZE * (n - 1)] + BlockOf(ys, n - 1);
    }
  }

  // -------------------------------------------------------------- flattening

  predicate TurnLe(a: ReplayTurn, b: ReplayTurn) {
    a.sendAt < b.sendAt || (a.sendAt == b.sendAt
      && (a.root < b.root || (a.root == b.root && a.turn <= b.turn)))
  }

  function AllTurns(plan: seq<SessionPlan>): seq<ReplayTurn> {
    if plan == [] then [] else plan[0].1 + AllTurns(plan[1..])
  }

  function FlattenReplayPlan(plan: seq<SessionPlan>): seq<ReplayTurn> {
    Sort(TurnLe, AllTurns(plan))
  }

  ghost predicate OneRoot(p: SessionPlan) {
    forall k | 0 <= k < |p.1| :: p.1[k].root == p.0
  }

  /** Each session's turns carry its own root and come in the order in which they are to be sent. */
  ghost predicate WellOrdered(plan: seq<SessionPlan>) {
    && (forall i, j | 0 <= i < j < |plan| :: plan[i].0 != plan[j].0)
    && forall i | 0 <= i < |plan| :: OneRoot(plan[i]) && Sorted(TurnLe, plan[i].1)
  }

  function OfRoot(root: int): ReplayTurn -> bool {
    (t: ReplayTurn) => t.root == root
  }

  lemma {:induction false} TurnsOfRoot(plan: seq<SessionPlan>, i: nat)
    requires WellOrdered(plan) && i < |plan|
    ensures Filter(OfRoot(plan[i].0), AllTurns(plan)) == plan[i].1
  {
    var rest := plan[1..];
    assert forall j | 0 <= j < |rest| :: rest[j] == plan[j + 1];
    FilterConcat(OfRoot(plan[i].0), plan[0].1, AllTurns(rest));
    if i == 0 {
      FilterAll(OfRoot(plan[0].0), plan[0].1);
      assert forall j | 0 <= j < |rest| :: rest[j].0 != plan[0].0;
      TurnsOfOthers(rest, plan[0].0);
    } else {
      FilterNone(OfRoot(plan[i].0), plan[0].1);
      TurnsOfRoot(rest, i - 1);
    }
  }

  lemma {:induction false} TurnsOfOthers(plan: seq<SessionPlan>, root: int)
    requires forall j | 0 <= j < |plan| :: OneRoot(plan[j]) && plan[j].0 != root
    ensures Filter(OfRoot(root), AllTurns(plan)) == []
  {
    if plan != [] {
      FilterConcat(OfRoot(root), plan[0].1, AllTurns(plan[1..]));
      FilterNone(OfRoot(root), plan[0].1);
      TurnsOfOthers(plan[1..], root);
    }
  }

  /**
    The flattened plan sends every turn once, in the order of send time, then root, then turn, and each
    session's turns in their own order.
   */
  lemma {:induction false} FlattenedPlanKeepsSessions(plan: seq<SessionPlan>, i: nat)
    requires WellOrdered(plan) && i < |plan|
    ensures multiset(FlattenReplayPlan(plan)) == multiset(AllTurns(plan))
    ensures forall j, k | 0 <= j < k < |FlattenReplayPlan(plan)| ::
      var a, b := FlattenReplayPlan(plan)[j], FlattenReplayPlan(plan)[k];
      && a.sendAt <= b.sendAt
      && (a.sendAt == b.sendAt ==> a.root <= b.root)
      && (a.sendAt == b.sendAt && a.root == b.root ==> a.turn <= b.turn)
    ensures Filter(OfRoot(plan[i].0), FlattenReplayPlan(plan)) == plan[i].1
  {
    SortPermutes(TurnLe, AllTurns(plan));
    assert TotalPreorder(TurnLe);
    SortSorted(TurnLe, AllTurns(plan));
    FilterSort(TurnLe, OfRoot(plan[i].0), AllTurns(plan));
    TurnsOfRoot(plan, i);
    SortFixed(TurnLe, plan[i].1);
  }

  lemma {:induction false} LaterIsSentLater(a: real, b: real, traceStart: real, timeScale: real)
    requires a <= b && timeScale > 0.0
    ensures SendAt(a, traceStart, timeScale) <= SendAt(b, traceStart, timeScale)
  {
  }

  lemma {:induction false} LinkedGoesForward(s: Session, i: nat, j: nat)
    requires Linked(s) && i < j < |s|
    ensures s[i].turn < s[j].turn && s[i].timestamp <= s[j].timestamp
    decreases j
  {
    assert LinkIssue(s[j - 1], s[j]).None?;
    if i < j - 1 {
      LinkedGoesForward(s, i, j - 1);
    }
  }

  /** No record of a session is earlier than the start of the trace. */
  lemma {:induction false} StartsFirst(records: seq<Record>, i: nat, k: nat)
    requires records != [] && i < |SessionsOf(records)| && k < |SessionsOf(records)[i].1|
    ensures TraceStart(records) <= SessionsOf(records)[i].1[k].timestamp
  {
    hide KeyOf, TraceStart;
    SessionsAreGroups(records);
    assert SessionsOf(records)[i] in SessionsOf(records);
    assert SessionsOf(records)[i].1[k] in SessionsOf(records)[i].1;
  }

  /** At every positive time scale a plan that was built is well ordered, and no turn is due before the start. */
  lemma {:induction false} BuiltPlanIsWellOrdered(
      plan: seq<SessionPlan>, records: seq<Record>, blocks: Blocks, timeScale: real, vocabSize: int)
    requires records != [] && timeScale > 0.0 && Groupable(records)
    requires IsReplayPlan(plan, records, blocks, timeScale, vocabSize)
    ensures WellOrdered(plan)
    ensures forall i, k | 0 <= i < |plan| && 0 <= k < |plan[i].1| :: 0.0 <= plan[i].1[k].sendAt
  {
    hide SessionsOf, IndexOf, Kept;
    var sessions := SessionsOf(records);
    SessionsHaveOwnRoots(records);
    forall i, k | 0 <= i < |plan| && 0 <= k < |plan[i].1|
      ensures 0.0 <= plan[i].1[k].sendAt
    {
      assert Replays(plan[i].1, k, plan[i].0, sessions[i].1[k], blocks, TraceStart(records), timeScale);
      StartsFirst(records, i, k);
      LaterIsSentLater(TraceStart(records), sessions[i].1[k].timestamp, TraceStart(records), timeScale);
    }
    forall i | 0 <= i < |plan|
      ensures OneRoot(plan[i]) && Sorted(TurnLe, plan[i].1)
    {
      assert Accepted(sessions[i]);
      var turns, session := plan[i].1, sessions[i].1;
      forall k | 0 <= k < |turns|
        ensures turns[k].root == plan[i].0
      {
        assert Replays(turns, k, plan[i].0, session[k], blocks, TraceStart(records), timeScale);
      }
      forall k, l | 0 <= k < l < |turns|
        ensures TurnLe(turns[k], turns[l])
      {
        assert Replays(turns, k, plan[i].0, session[k], blocks, TraceStart(records), timeScale);
        assert Replays(turns, l, plan[i].0, session[l], blocks, TraceStart(records), timeScale);
        LinkedGoesForward(session, k, l);
        LaterIsSentLater(session[k].timestamp, session[l].timestamp, TraceStart(records), timeScale);
      }
    }
  }

  lemma {:induction false} GapsAreScaled(a: real, b: real, traceStart: real, timeScale: real)
    ensures SendAt(a, traceStart, timeScale) - SendAt(b, traceStart, timeScale) == (a - b) * timeScale
    ensures SendAt(traceStart, traceStart, timeScale) == 0.0
  {
  }

  /** Any two turns of a built plan are as far apart as their records, scaled. */
  lemma {:induction false} PlanIsToScale(
      plan: seq<SessionPlan>, records: seq<Record>, blocks: Blocks, timeScale: real, vocabSize: int,
      i: nat, k: nat, j: nat, l: nat)
    requires records != [] && IsReplayPlan(plan, records, blocks, timeScale, vocabSize)
    requires i < |plan| && k < |plan[i].1| && j < |plan| && l < |plan[j].1|
    ensures var sessions := SessionsOf(records);
      plan[i].1[k].sendAt - plan[j].1[l].sendAt
        == (sessions[i].1[k].timestamp - sessions[j].1[l].timestamp) * timeScale
  {
    hide SessionsOf, SendAt, TraceStart;
    var sessions, start := SessionsOf(records), TraceStart(records);
    assert Replays(plan[i].1, k, plan[i].0, sessions[i].1[k], blocks, start, timeScale);
    assert Replays(plan[j].1, l, plan[j].0, sessions[j].1[l], blocks, start, timeScale);
    GapsAreScaled(sessions[i].1[k].timestamp, sessions[j].1[l].timestamp, start, timeScale);
  }

  /** The earliest turn of a built plan is sent at once. */
  lemma {:induction false} PlanStartsAtZero(
      plan: seq<SessionPlan>, records: seq<Record>, blocks: Blocks, timeScale: real, vocabSize: int)
    requires records != [] && Groupable(records)
    requires IsReplayPlan(plan, records, blocks, timeScale, vocabSize)
    ensures exists i, k :: 0 <= i < |plan| && 0 <= k < |plan[i].1| && plan[i].1[k].sendAt == 0.0
  {
    hide SessionsOf, SendAt, TraceStart;
    var sessions, start := SessionsOf(records), TraceStart(records);
    var first :| first in records && first.timestamp == start;
    var i, k := RecordHasItsTurn(records, first);
    assert Replays(plan[i].1, k, plan[i].0, sessions[i].1[k], blocks, start, timeScale);
    GapsAreScaled(start, start, start, timeScale);
  }

  lemma {:induction false} SessionsHaveOwnRoots(records: seq<Record>)
    requires Groupable(records)
    ensures var sessions := SessionsOf(records);
      forall i, j | 0 <= i < j < |sessions| :: sessions[i].0.id != sessions[j].0.id
  {
    hide KeyOf;
    GroupByPartitions(IndexOf(records), Kept(records));
    var sessions := SessionsOf(records);
    forall i, j | 0 <= i < j < |sessions|
      ensures sessions[i].0.id != sessions[j].0.id
    {
      assert Accepted(sessions[i]) && Accepted(sessions[j]);
    }
  }
}
