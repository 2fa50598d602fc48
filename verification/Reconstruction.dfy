/**
  What a trace's hashes become when it is replayed, as functions: the rounds that fill one turn's
  tokens, the turns of a session, and the sessions of a trace, all from one growing store of blocks.
 */
module Reconstruction {
  import opened Sequences
  import opened TraceRecords
  import opened Grouping

  datatype ReplayError =
    | TimeScaleNotPositive | Ungroupable(issue: Issue) | EmptyTrace | TokenRangeEmpty
    | NotARootTurn | DoesNotContinue | LengthMismatch | InputShrank | PrefixChanged
    | PrefixTooLong | HashConflict

  /** What can go wrong with a turn of a trace that was grouped. */
  predicate IsTurnFailure(error: ReplayError) {
    error in {NotARootTurn, DoesNotContinue, LengthMismatch, InputShrank, PrefixChanged, HashConflict}
  }

  type Blocks = map<int, seq<int>>

  /** The token that a hash gives to a place of its block. */
  type Deal = (int, int) -> int

  /** The tokens of the session being replayed, and the blocks stored for all of them. */
  datatype World = World(tokens: seq<int>, blocks: Blocks)

  predicate WellSized(blocks: Blocks) {
    forall h | h in blocks :: |blocks[h]| == BLOCK_SIZE
  }

  // ------------------------------------------------------------------ one turn

  /** The tokens that a hash gives to the end of its block. */
  function Dealt(deal: Deal, hash: int, offset: nat): (tokens: seq<int>)
    requires offset <= BLOCK_SIZE
    ensures |tokens| == BLOCK_SIZE - offset
    ensures forall i | 0 <= i < |tokens| :: tokens[i] == deal(hash, offset + i)
  {
    seq(BLOCK_SIZE - offset, i requires 0 <= i < BLOCK_SIZE - offset => deal(hash, offset + i))
  }

  /** The block that a hash has, or gets, when its first tokens are given; None if it has others. */
  function BlockFor(deal: Deal, blocks: Blocks, hash: int, prefix: seq<int>): (block: Option<seq<int>>)
    requires WellSized(blocks) && |prefix| < BLOCK_SIZE
    ensures block.Some? ==> |block.value| == BLOCK_SIZE && block.value[..|prefix|] == prefix
  {
    if hash !in blocks then Some(prefix + Dealt(deal, hash, |prefix|))
    else if blocks[hash][..|prefix|] == prefix then Some(blocks[hash])
    else None
  }

  /** The tokens after the last complete block. */
  function Tail(tokens: seq<int>): (tail: seq<int>)
    ensures |tail| == |tokens| % BLOCK_SIZE
  {
    tokens[|tokens| - |tokens| % BLOCK_SIZE..]
  }

  /** The hash of the block that the record goes on with after so many tokens. */
  function NextHash(record: Record, length: nat): int
    requires Validated(record) && length < record.inputLength
  {
    record.hashIds[length / BLOCK_SIZE]
  }

  function Taken(record: Record, length: nat): (take: nat)
    requires length < record.inputLength
    ensures 0 < take <= BLOCK_SIZE - length % BLOCK_SIZE && length + take <= record.inputLength
    ensures (length + take) % BLOCK_SIZE == 0 || length + take == record.inputLength
  {
    Min(BLOCK_SIZE - length % BLOCK_SIZE, record.inputLength - length)
  }

  function Round(deal: Deal, record: Record, w: World): (next: Option<World>)
    requires Validated(record) && WellSized(w.blocks) && |w.tokens| < record.inputLength
    ensures next.Some? ==>
      && WellSized(next.value.blocks)
      && |next.value.tokens| == |w.tokens| + Taken(record, |w.tokens|)
  {
    var offset, hash := |w.tokens| % BLOCK_SIZE, NextHash(record, |w.tokens|);
    var block := BlockFor(deal, w.blocks, hash, Tail(w.tokens));
    if block.None? then None
    else
      Some(World(w.tokens + block.value[offset..offset + Taken(record, |w.tokens|)],
                 w.blocks[hash := block.value]))
  }

  function Grow(deal: Deal, record: Record, w: World): (grown: Option<World>)
    requires Validated(record) && WellSized(w.blocks) && |w.tokens| <= record.inputLength
    ensures grown.Some? ==> WellSized(grown.value.blocks) && |grown.value.tokens| == record.inputLength
    decreases record.inputLength - |w.tokens|
  {
    if |w.tokens| == record.inputLength then Some(w)
    else
      var next := Round(deal, record, w);
      if next.None? then None else Grow(deal, record, next.value)
  }

  lemma {:induction false} RoundOfBlock(deal: Deal, record: Record, w: World)
    requires Validated(record) && WellSized(w.blocks) && |w.tokens| < record.inputLength
    ensures var offset, hash := |w.tokens| % BLOCK_SIZE, NextHash(record, |w.tokens|);
      var block := BlockFor(deal, w.blocks, hash, Tail(w.tokens));
      Round(deal, record, w)
        == if block.None? then None
           else Some(World(w.tokens + block.value[offset..offset + Taken(record, |w.tokens|)],
                           w.blocks[hash := block.value]))
  {
  }

  lemma {:induction false} GrowByRounds(deal: Deal, record: Record, w: World)
    requires Validated(record) && WellSized(w.blocks) && |w.tokens| < record.inputLength
    ensures var next := Round(deal, record, w);
      Grow(deal, record, w) == if next.None? then None else Grow(deal, record, next.value)
  {
  }

  lemma {:induction false} GrowsNoFurther(deal: Deal, record: Record, w: World)
    requires Validated(record) && WellSized(w.blocks) && |w.tokens| == record.inputLength
    ensures Grow(deal, record, w) == Some(w)
  {
  }

  /** The checks made before any token is added. */
  function TurnError(record: Record, previous: Option<Record>, length: nat): Option<ReplayError> {
    match previous
    case None => if record.parentId != NO_PARENT || record.turn != 1 then Some(NotARootTurn) else None
    case Some(p) =>
      if record.parentId != p.chatId then Some(DoesNotContinue)
      else if length != p.inputLength then Some(LengthMismatch)
      else if record.inputLength < p.inputLength then Some(InputShrank)
      else if !KeepsPrefix(p, record) then Some(PrefixChanged)
      else None
  }

  /** The errors of a turn: a first one must be a root, a later one must continue and outgrow the one before. */
  lemma {:induction false} TurnErrorMeans(record: Record, previous: Option<Record>, length: nat)
    ensures previous.None? ==>
      var error := TurnError(record, previous, length);
      && (error.None? <==> record.parentId == NO_PARENT && record.turn == 1)
      && (error.Some? ==> error.value == NotARootTurn)
    ensures previous.Some? ==>
      var p, error := previous.value, TurnError(record, previous, length);
      && (error.None? <==>
            record.parentId == p.chatId && length == p.inputLength && GrowsFrom(p, record))
      && (error == Some(DoesNotContinue) <==> record.parentId != p.chatId)
      && (error == Some(LengthMismatch) <==> record.parentId == p.chatId && length != p.inputLength)
      && (error == Some(InputShrank) <==>
            record.parentId == p.chatId && length == p.inputLength && record.inputLength < p.inputLength)
      && (error == Some(PrefixChanged) <==>
            && record.parentId == p.chatId && length == p.inputLength <= record.inputLength
            && !GrowsFrom(p, record))
  {
    if previous.Some? {
      KeepsPrefixMeans(previous.value, record);
    }
    hide KeepsPrefix;
  }

  /** The session's unfinished block belongs to a hash already stored with other tokens. */
  predicate TailConflict(record: Record, tokens: seq<int>, blocks: Blocks)
    requires Validated(record)
  {
    && |tokens| % BLOCK_SIZE > 0 && |tokens| < record.inputLength
    && var hash := NextHash(record, |tokens|);
       hash in blocks && Take(blocks[hash], |tokens| % BLOCK_SIZE) != Tail(tokens)
  }

  /** Only the unfinished block can conflict: every later round starts a block. */
  lemma {:induction false} GrowFailsOnTail(deal: Deal, record: Record, w: World)
    requires Validated(record) && WellSized(w.blocks) && |w.tokens| <= record.inputLength
    ensures Grow(deal, record, w).None? <==> TailConflict(record, w.tokens, w.blocks)
    decreases record.inputLength - |w.tokens|
  {
    hide Dealt, Validated;
    if |w.tokens| < record.inputLength {
      var next := Round(deal, record, w);
      if next.Some? {
        GrowFailsOnTail(deal, record, next.value);
      }
    }
  }

  function Turn(deal: Deal, record: Record, previous: Option<Record>, w: World): (r: Result<World, ReplayError>)
    requires Validated(record) && WellSized(w.blocks) && (previous.None? ==> w.tokens == [])
    ensures r.Ok? ==> WellSized(r.value.blocks) && |r.value.tokens| == record.inputLength
    ensures r.Err? ==> IsTurnFailure(r.error)
  {
    var error := TurnError(record, previous, |w.tokens|);
    if error.Some? then Err(error.value)
    else
      var grown := Grow(deal, record, w);
      if grown.None? then Err(HashConflict) else Ok(grown.value)
  }

  // -------------------------------------------------------- sessions and traces

  function Previous(session: Session, k: nat): Option<Record>
    requires k <= |session|
  {
    if k == 0 then None else Some(session[k - 1])
  }

  /** The world after the first n turns of a session that begins with the given blocks. */
  function AfterTurns(deal: Deal, session: Session, n: nat, blocks: Blocks): (r: Result<World, ReplayError>)
    requires n <= |session| && AllValidated(session) && WellSized(blocks)
    ensures r.Ok? ==> WellSized(r.value.blocks)
    ensures r.Ok? ==> |r.value.tokens| == if n == 0 then 0 else session[n - 1].inputLength
    ensures r.Err? ==> IsTurnFailure(r.error)
  {
    if n == 0 then Ok(World([], blocks))
    else
      var before := AfterTurns(deal, session, n - 1, blocks);
      if before.Err? then before else Turn(deal, session[n - 1], Previous(session, n - 1), before.value)
  }

  predicate SessionsValidated(sessions: seq<Group>) {
    forall g | g in sessions :: AllValidated(g.1)
  }

  /** The blocks after the first n sessions, beginning with none. */
  function AfterSessions(deal: Deal, sessions: seq<Group>, n: nat): (r: Result<Blocks, ReplayError>)
    requires n <= |sessions| && SessionsValidated(sessions)
    ensures r.Ok? ==> WellSized(r.value)
    ensures r.Err? ==> IsTurnFailure(r.error)
  {
    if n == 0 then Ok(map[])
    else
      var before := AfterSessions(deal, sessions, n - 1);
      if before.Err? then before
      else
        var session := sessions[n - 1].1;
        var after := AfterTurns(deal, session, |session|, before.value);
        if after.Err? then Err(after.error) else Ok(after.value.blocks)
  }

  lemma {:induction false} TurnsStayFailed(deal: Deal, session: Session, k: nat, n: nat, blocks: Blocks)
    requires k <= n <= |session| && AllValidated(session) && WellSized(blocks)
    requires AfterTurns(deal, session, k, blocks).Err?
    ensures AfterTurns(deal, session, n, blocks) == AfterTurns(deal, session, k, blocks)
    decreases n
  {
    if k < n {
      TurnsStayFailed(deal, session, k, n - 1, blocks);
    }
  }

  lemma {:induction false} SessionsStayFailed(deal: Deal, sessions: seq<Group>, k: nat, n: nat)
    requires k <= n <= |sessions| && SessionsValidated(sessions)
    requires AfterSessions(deal, sessions, k).Err?
    ensures AfterSessions(deal, sessions, n) == AfterSessions(deal, sessions, k)
    decreases n
  {
    if k < n {
      SessionsStayFailed(deal, sessions, k, n - 1);
    }
  }

  /** Turn k of session i is reached, from the empty store, in world w. */
  ghost predicate Reaches(deal: Deal, sessions: seq<Group>, i: nat, k: nat, w: World)
    requires SessionsValidated(sessions)
  {
    && i < |sessions| && k < |sessions[i].1|
    && AfterSessions(deal, sessions, i).Ok?
    && AfterTurns(deal, sessions[i].1, k, AfterSessions(deal, sessions, i).value) == Ok(w)
  }

  /** Turn k of session i is reached and fails, in its checks or on its unfinished block. */
  ghost predicate FailsAt(deal: Deal, sessions: seq<Group>, i: nat, k: nat, w: World, error: ReplayError)
    requires SessionsValidated(sessions)
  {
    && Reaches(deal, sessions, i, k, w)
    && match TurnError(sessions[i].1[k], Previous(sessions[i].1, k), |w.tokens|)
       case Some(e) => error == e
       case None => error == HashConflict && TailConflict(sessions[i].1[k], w.tokens, w.blocks)
  }

  lemma {:induction false} TurnFails(deal: Deal, sessions: seq<Group>, i: nat, k: nat, w: World, error: ReplayError)
    requires SessionsValidated(sessions) && Reaches(deal, sessions, i, k, w)
    ensures FailsAt(deal, sessions, i, k, w, error) <==>
      AfterTurns(deal, sessions[i].1, k + 1, AfterSessions(deal, sessions, i).value) == Err(error)
  {
    hide Grow, TailConflict, AfterSessions;
    var record, previous := sessions[i].1[k], Previous(sessions[i].1, k);
    if TurnError(record, previous, |w.tokens|).None? {
      GrowFailsOnTail(deal, record, w);
    }
  }

  /** A session fails exactly at the first of its turns that does. */
  lemma {:induction false} SessionFailsAtATurn(deal: Deal, sessions: seq<Group>, i: nat, n: nat, error: ReplayError)
    requires SessionsValidated(sessions) && i < |sessions| && n <= |sessions[i].1|
    requires AfterSessions(deal, sessions, i).Ok?
    ensures AfterTurns(deal, sessions[i].1, n, AfterSessions(deal, sessions, i).value) == Err(error) <==>
      exists k, w :: 0 <= k < n && FailsAt(deal, sessions, i, k, w, error)
  {
    hide FailsAt, Turn, AfterSessions;
    var session, blocks := sessions[i].1, AfterSessions(deal, sessions, i).value;
    if n > 0 {
      SessionFailsAtATurn(deal, sessions, i, n - 1, error);
      var before := AfterTurns(deal, session, n - 1, blocks);
      if before.Ok? {
        TurnFails(deal, sessions, i, n - 1, before.value, error);
      }
      forall k, w | 0 <= k < n && FailsAt(deal, sessions, i, k, w, error)
        ensures AfterTurns(deal, session, n, blocks) == Err(error)
      {
        FailsHere(deal, sessions, i, k, w, error);
        TurnsStayFailed(deal, session, k + 1, n, blocks);
      }
    }
  }

  lemma {:induction false} FailsHere(deal: Deal, sessions: seq<Group>, i: nat, k: nat, w: World, error: ReplayError)
    requires SessionsValidated(sessions) && FailsAt(deal, sessions, i, k, w, error)
    ensures Reaches(deal, sessions, i, k, w)
    ensures AfterTurns(deal, sessions[i].1, k + 1, AfterSessions(deal, sessions, i).value) == Err(error)
  {
    TurnFails(deal, sessions, i, k, w, error);
  }

  /** A replay fails exactly when some turn that it reaches fails, and with that turn's error. */
  lemma {:induction false} ReplayFailsAtATurn(deal: Deal, sessions: seq<Group>, n: nat, error: ReplayError)
    requires SessionsValidated(sessions) && n <= |sessions|
    ensures AfterSessions(deal, sessions, n) == Err(error) <==>
      exists i, k, w :: 0 <= i < n && FailsAt(deal, sessions, i, k, w, error)
  {
    hide FailsAt, AfterTurns;
    if n > 0 {
      ReplayFailsAtATurn(deal, sessions, n - 1, error);
      if AfterSessions(deal, sessions, n - 1).Ok? {
        SessionFailsAtATurn(deal, sessions, n - 1, |sessions[n - 1].1|, error);
      }
      forall i, k, w | 0 <= i < n && FailsAt(deal, sessions, i, k, w, error)
        ensures AfterSessions(deal, sessions, n) == Err(error)
      {
        FailsWithSession(deal, sessions, i, k, w, error);
        SessionsStayFailed(deal, sessions, i + 1, n);
      }
    }
  }

  lemma {:induction false} FailsWithSession(
      deal: Deal, sessions: seq<Group>, i: nat, k: nat, w: World, error: ReplayError)
    requires SessionsValidated(sessions) && FailsAt(deal, sessions, i, k, w, error)
    ensures i < |sessions| && AfterSessions(deal, sessions, i).Ok?
    ensures AfterSessions(deal, sessions, i + 1) == Err(error)
  {
    hide FailsAt, AfterTurns;
    FailsHere(deal, sessions, i, k, w, error);
    TurnsStayFailed(deal, sessions[i].1, k + 1, |sessions[i].1|, AfterSessions(deal, sessions, i).value);
  }
}
