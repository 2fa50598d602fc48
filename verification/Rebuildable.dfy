/**
  Which traces can be replayed: where every stored block comes from, a condition on the trace under
  which no turn conflicts, and why the digest behind the tokens does not matter.
 */
module Rebuildable {
  import opened Sequences
  import opened TraceRecords
  import opened Grouping
  import opened Reconstruction

  // ---------------------------------------------------------------- provenance

  /** A turn that finds so many tokens asks the store for the block of the hash. */
  ghost predicate AsksFor(record: Record, length: nat, hash: int) {
    && length < record.inputLength
    && exists b :: length / BLOCK_SIZE <= b < |record.hashIds| && record.hashIds[b] == hash
  }

  /** How many tokens the session has when turn k comes. */
  function LengthBefore(session: Session, k: nat): nat
    requires k <= |session|
  {
    if k == 0 then 0 else session[k - 1].inputLength
  }

  ghost predicate LooksUp(session: Session, k: nat, hash: int)
    requires k < |session|
  {
    AsksFor(session[k], LengthBefore(session, k), hash)
  }

  /** One of the first n turns of the session asks for the block of the hash. */
  ghost predicate LookedUpIn(session: Session, n: nat, hash: int)
    requires n <= |session|
  {
    exists k :: 0 <= k < n && LooksUp(session, k, hash)
  }

  /** A turn before turn k of session i asks for it, in the order in which the trace is replayed. */
  ghost predicate LookedUpBefore(sessions: seq<Group>, i: nat, k: nat, hash: int)
    requires i < |sessions| && k <= |sessions[i].1|
  {
    || LookedUpIn(sessions[i].1, k, hash)
    || exists j :: 0 <= j < i && LookedUpIn(sessions[j].1, |sessions[j].1|, hash)
  }

  /** After a round the record goes on with its next hash, if any. */
  lemma {:induction false} NextIndex(record: Record, length: nat, hash: int)
    requires Validated(record) && length < record.inputLength
    ensures AsksFor(record, length, hash)
       <==> hash == NextHash(record, length) || AsksFor(record, length + Taken(record, length), hash)
  {
    var next := length + Taken(record, length);
    if next < record.inputLength {
      assert next / BLOCK_SIZE == length / BLOCK_SIZE + 1;
    } else {
      assert |record.hashIds| == length / BLOCK_SIZE + 1;
    }
    assert record.hashIds[length / BLOCK_SIZE] == NextHash(record, length);
  }

  /** Stored blocks stay, and a turn adds those that it asks for. */
  lemma {:induction false} GrowStores(deal: Deal, record: Record, w: World, hash: int)
    requires Validated(record) && WellSized(w.blocks) && |w.tokens| <= record.inputLength
    requires Grow(deal, record, w).Some?
    ensures var v := Grow(deal, record, w).value;
      && (hash in v.blocks <==> hash in w.blocks || AsksFor(record, |w.tokens|, hash))
      && (hash in w.blocks ==> v.blocks[hash] == w.blocks[hash])
    decreases record.inputLength - |w.tokens|
  {
    hide AsksFor, Validated;
    if |w.tokens| < record.inputLength {
      var next := Round(deal, record, w).value;
      GrowStores(deal, record, next, hash);
      NextIndex(record, |w.tokens|, hash);
    } else {
      AsksNothing(record, |w.tokens|, hash);
    }
  }

  lemma {:induction false} AsksNothing(record: Record, length: nat, hash: int)
    requires record.inputLength <= length
    ensures !AsksFor(record, length, hash)
  {
  }

  // ---------------------------------------------------------- unfinished blocks

  function HashAt(record: Record, length: nat): Option<int> {
    if length / BLOCK_SIZE < |record.hashIds| then Some(record.hashIds[length / BLOCK_SIZE]) else None
  }

  /** The unfinished block is the head of the stored block of the hash. */
  ghost predicate TailFrom(tokens: seq<int>, hash: Option<int>, blocks: Blocks) {
    |tokens| % BLOCK_SIZE > 0 ==>
      hash.Some? && hash.value in blocks && Take(blocks[hash.value], |tokens| % BLOCK_SIZE) == Tail(tokens)
  }

  lemma {:induction false} GrowTail(deal: Deal, record: Record, w: World)
    requires Validated(record) && WellSized(w.blocks) && |w.tokens| < record.inputLength
    requires Grow(deal, record, w).Some?
    ensures var v := Grow(deal, record, w).value;
      TailFrom(v.tokens, HashAt(record, record.inputLength), v.blocks)
    decreases record.inputLength - |w.tokens|
  {
    var next := Round(deal, record, w).value;
    if |next.tokens| < record.inputLength {
      GrowTail(deal, record, next);
    } else {
      RoundTail(deal, record, w);
    }
  }

  lemma {:induction false} RoundTail(deal: Deal, record: Record, w: World)
    requires Validated(record) && WellSized(w.blocks) && |w.tokens| < record.inputLength
    requires Round(deal, record, w).Some?
    ensures var v := Round(deal, record, w).value;
      TailFrom(v.tokens, Some(NextHash(record, |w.tokens|)), v.blocks)
      && (|v.tokens| % BLOCK_SIZE > 0 ==> |v.tokens| / BLOCK_SIZE == |w.tokens| / BLOCK_SIZE)
  {
    hide Validated;
    var at, offset, take := |w.tokens| / BLOCK_SIZE, |w.tokens| % BLOCK_SIZE, Taken(record, |w.tokens|);
    var block := BlockFor(deal, w.blocks, NextHash(record, |w.tokens|), Tail(w.tokens)).value;
    var v := Round(deal, record, w).value;
    assert |w.tokens| == BLOCK_SIZE * at + offset;
    if |v.tokens| % BLOCK_SIZE > 0 {
      assert |v.tokens| / BLOCK_SIZE == at && |v.tokens| % BLOCK_SIZE == offset + take;
      assert Tail(v.tokens) == Tail(w.tokens) + block[offset..offset + take];
      assert block[..offset + take] == block[..offset] + block[offset..offset + take];
    }
  }

  /** The last of the first n turns that added tokens. */
  function LastGrowth(session: Session, n: nat): (k: nat)
    requires 0 < n <= |session|
    ensures k < n
  {
    if n == 1 || LengthBefore(session, n - 1) < session[n - 1].inputLength then n - 1
    else LastGrowth(session, n - 1)
  }

  /** The hash that the unfinished block was taken from after n turns. */
  function TailHash(session: Session, n: nat): Option<int>
    requires 0 < n <= |session|
  {
    HashAt(session[LastGrowth(session, n)], LengthBefore(session, n))
  }

  lemma {:induction false} NotLookedUpYet(session: Session, hash: int)
    ensures !LookedUpIn(session, 0, hash)
  {
  }

  lemma {:induction false} LookedUpSnoc(session: Session, n: nat, hash: int)
    requires n < |session|
    ensures LookedUpIn(session, n + 1, hash) <==> LookedUpIn(session, n, hash) || LooksUp(session, n, hash)
  {
    hide LooksUp;
    if LookedUpIn(session, n, hash) {
      var k :| 0 <= k < n && LooksUp(session, k, hash);
      assert 0 <= k < n + 1;
    }
  }

  /** What is stored after n turns, and that nothing stored before has changed. */
  lemma {:induction false} TurnsStore(deal: Deal, session: Session, n: nat, blocks: Blocks, hash: int)
    requires n <= |session| && AllValidated(session) && WellSized(blocks)
    requires AfterTurns(deal, session, n, blocks).Ok?
    ensures var w := AfterTurns(deal, session, n, blocks).value;
      && (hash in w.blocks <==> hash in blocks || LookedUpIn(session, n, hash))
      && (hash in blocks ==> w.blocks[hash] == blocks[hash])
  {
    hide Grow, AsksFor, KeepsPrefix, LookedUpIn, Validated;
    if n == 0 {
      NotLookedUpYet(session, hash);
    } else {
      TurnsStore(deal, session, n - 1, blocks, hash);
      var before := AfterTurns(deal, session, n - 1, blocks).value;
      assert session[n - 1] in session;
      GrowStores(deal, session[n - 1], before, hash);
      LookedUpSnoc(session, n - 1, hash);
    }
  }

  /** After every turn the unfinished block is the head of the block of the last turn that added tokens. */
  lemma {:induction false} TurnsTail(deal: Deal, session: Session, n: nat, blocks: Blocks)
    requires 0 < n <= |session| && AllValidated(session) && WellSized(blocks)
    requires AfterTurns(deal, session, n, blocks).Ok?
    ensures var w := AfterTurns(deal, session, n, blocks).value;
      TailFrom(w.tokens, TailHash(session, n), w.blocks)
  {
    hide TailFrom, HashAt, Validated;
    var record, before := session[n - 1], AfterTurns(deal, session, n - 1, blocks).value;
    assert record in session;
    if |before.tokens| < record.inputLength {
      GrowTail(deal, record, before);
    } else {
      assert n > 1 by { ValidatedIsNotEmpty(record); }
      TurnsTail(deal, session, n - 1, blocks);
    }
  }

  lemma {:induction false} ValidatedIsNotEmpty(record: Record)
    requires Validated(record)
    ensures record.inputLength > 0
  {
  }

  lemma {:induction false} SessionsStore(deal: Deal, sessions: seq<Group>, n: nat, hash: int)
    requires n <= |sessions| && SessionsValidated(sessions) && AfterSessions(deal, sessions, n).Ok?
    ensures hash in AfterSessions(deal, sessions, n).value <==>
      exists j :: 0 <= j < n && LookedUpIn(sessions[j].1, |sessions[j].1|, hash)
  {
    hide AfterTurns, LookedUpIn;
    if n > 0 {
      SessionsStore(deal, sessions, n - 1, hash);
      var session := sessions[n - 1].1;
      TurnsStore(deal, session, |session|, AfterSessions(deal, sessions, n - 1).value, hash);
    }
  }

  /** Whatever the store holds when a turn is reached was put there by an earlier turn that asked for it. */
  lemma {:induction false} StoredByEarlierTurns(deal: Deal, sessions: seq<Group>, i: nat, k: nat, w: World, hash: int)
    requires SessionsValidated(sessions) && Reaches(deal, sessions, i, k, w)
    ensures hash in w.blocks <==> LookedUpBefore(sessions, i, k, hash)
  {
    hide AfterTurns, AfterSessions, LookedUpIn;
    SessionsStore(deal, sessions, i, hash);
    TurnsStore(deal, sessions[i].1, k, AfterSessions(deal, sessions, i).value, hash);
  }

  // ---------------------------------------------------------- a condition on traces

  ghost predicate AllAccepted(sessions: seq<Group>) {
    forall g | g in sessions :: IsComplete(g)
  }

  /** Turn k of session i goes on with the unfinished block's own hash, or with one that no earlier turn asks for. */
  ghost predicate TailContinues(sessions: seq<Group>, i: nat, k: nat)
    requires i < |sessions| && 0 < k < |sessions[i].1|
  {
    var session, length := sessions[i].1, LengthBefore(sessions[i].1, k);
    length % BLOCK_SIZE > 0 && length < session[k].inputLength ==>
      || HashAt(session[k], length) == TailHash(session, k)
      || (HashAt(session[k], length).Some? && !LookedUpBefore(sessions, i, k, HashAt(session[k], length).value))
  }

  ghost predicate TailsContinue(sessions: seq<Group>) {
    forall i, k | 0 <= i < |sessions| && 0 < k < |sessions[i].1| :: TailContinues(sessions, i, k)
  }

  /** A turn of an accepted session passes its checks whenever it is reached. */
  lemma {:induction false} AcceptedTurnsPass(deal: Deal, sessions: seq<Group>, i: nat, k: nat, w: World)
    requires SessionsValidated(sessions) && Reaches(deal, sessions, i, k, w) && IsComplete(sessions[i])
    ensures TurnError(sessions[i].1[k], Previous(sessions[i].1, k), |w.tokens|).None?
  {
    hide AfterSessions, Grow, KeepsPrefix;
    if k > 0 {
      assert GrowthIssue(sessions[i].1[k - 1], sessions[i].1[k]).None?;
    }
  }

  /** A chain that the classifier accepts can only fail on a conflicting hash that an earlier turn asked for. */
  lemma {:induction false} AcceptedFailsOnConflict(
      deal: Deal, sessions: seq<Group>, i: nat, k: nat, w: World, error: ReplayError)
    requires SessionsValidated(sessions) && FailsAt(deal, sessions, i, k, w, error) && IsComplete(sessions[i])
    ensures error == HashConflict && 0 < k
    ensures var session, length := sessions[i].1, LengthBefore(sessions[i].1, k);
      && |w.tokens| == length < session[k].inputLength && length % BLOCK_SIZE > 0
      && HashAt(session[k], length).Some? && HashAt(session[k], length) != TailHash(session, k)
      && LookedUpBefore(sessions, i, k, HashAt(session[k], length).value)
    ensures !TailContinues(sessions, i, k)
  {
    hide LookedUpBefore, TailHash, AfterSessions, Grow, IsComplete, TurnError;
    var session := sessions[i].1;
    AcceptedTurnsPass(deal, sessions, i, k, w);
    assert session[k] in session;
    assert k > 0;
    TurnsTail(deal, session, k, AfterSessions(deal, sessions, i).value);
    StoredByEarlierTurns(deal, sessions, i, k, w, NextHash(session[k], |w.tokens|));
  }

  /** If every unfinished block is continued by its own hash or a new one, the whole trace is replayed. */
  lemma {:induction false} ContinuedTailsAreReplayed(deal: Deal, sessions: seq<Group>)
    requires SessionsValidated(sessions) && AllAccepted(sessions) && TailsContinue(sessions)
    ensures AfterSessions(deal, sessions, |sessions|).Ok?
  {
    hide AfterSessions, FailsAt, IsComplete;
    var r := AfterSessions(deal, sessions, |sessions|);
    if r.Err? {
      ReplayFailsAtATurn(deal, sessions, |sessions|, r.error);
      var i, k, w :| 0 <= i < |sessions| && FailsAt(deal, sessions, i, k, w, r.error);
      FailsHere(deal, sessions, i, k, w, r.error);
      assert sessions[i] in sessions;
      AcceptedFailsOnConflict(deal, sessions, i, k, w, r.error);
    }
  }

  // ------------------------------------------------------- the digest and the plan

  /** Every token named by the hash that dealt it: what the trace alone says of the tokens. */
  function Own(): Deal {
    (hash, offset) => hash
  }

  /** What a deal makes of tokens that are named by their hashes and begin a block. */
  function ImageOf(deal: Deal, tokens: seq<int>): (image: seq<int>)
    ensures |image| == |tokens|
    ensures forall j | 0 <= j < |tokens| :: image[j] == deal(tokens[j], j % BLOCK_SIZE)
  {
    seq(|tokens|, j requires 0 <= j < |tokens| => deal(tokens[j], j % BLOCK_SIZE))
  }

  function ImageOfBlocks(deal: Deal, blocks: Blocks): (image: Blocks)
    ensures image.Keys == blocks.Keys
    ensures forall h | h in blocks :: image[h] == ImageOf(deal, blocks[h])
    ensures WellSized(blocks) ==> WellSized(image)
  {
    map h | h in blocks :: ImageOf(deal, blocks[h])
  }

  function Image(deal: Deal, w: World): World {
    World(ImageOf(deal, w.tokens), ImageOfBlocks(deal, w.blocks))
  }

  /** The deal gives no two of the hashes the same token at the same place of a block. */
  ghost predicate CollisionFree(deal: Deal, hashes: iset<int>) {
    forall g, h, i | g in hashes && h in hashes && 0 <= i < BLOCK_SIZE && deal(g, i) == deal(h, i) :: g == h
  }

  ghost predicate Only(tokens: seq<int>, hashes: iset<int>) {
    forall j | 0 <= j < |tokens| :: tokens[j] in hashes
  }

  /** Nothing but the hashes is in the world. */
  ghost predicate Names(w: World, hashes: iset<int>) {
    Only(w.tokens, hashes) && forall h | h in w.blocks :: Only(w.blocks[h], hashes)
  }

  lemma {:induction false} PlaceInBlock(at: nat, j: nat)
    ensures (BLOCK_SIZE * at + j) % BLOCK_SIZE == j % BLOCK_SIZE
  {
  }

  lemma {:induction false} ImageOfTail(deal: Deal, tokens: seq<int>)
    ensures ImageOf(deal, Tail(tokens)) == Tail(ImageOf(deal, tokens))
  {
    var start := |tokens| - |tokens| % BLOCK_SIZE;
    forall j | 0 <= j < |tokens| % BLOCK_SIZE
      ensures (start + j) % BLOCK_SIZE == j % BLOCK_SIZE
    {
      PlaceInBlock(|tokens| / BLOCK_SIZE, j);
    }
  }

  lemma {:induction false} ImageOfMore(deal: Deal, tokens: seq<int>, block: seq<int>, take: nat)
    requires |block| == BLOCK_SIZE && |tokens| % BLOCK_SIZE + take <= BLOCK_SIZE
    ensures var offset := |tokens| % BLOCK_SIZE;
      ImageOf(deal, tokens + block[offset..offset + take])
        == ImageOf(deal, tokens) + ImageOf(deal, block)[offset..offset + take]
  {
    var offset := |tokens| % BLOCK_SIZE;
    forall m | offset <= m < offset + take
      ensures ImageOf(deal, block)[m] == deal(block[m], (|tokens| - offset + m) % BLOCK_SIZE)
    {
      PlaceInBlock(|tokens| / BLOCK_SIZE, m);
    }
  }

  /** Different tokens, named by hashes that do not collide, stay different. */
  lemma {:induction false} ImagesDiffer(deal: Deal, xs: seq<int>, ys: seq<int>, hashes: iset<int>)
    requires |xs| == |ys| <= BLOCK_SIZE && xs != ys && Only(xs, hashes) && Only(ys, hashes)
    requires CollisionFree(deal, hashes)
    ensures ImageOf(deal, xs) != ImageOf(deal, ys)
  {
    var j :| 0 <= j < |xs| && xs[j] != ys[j];
    assert ImageOf(deal, xs)[j] != ImageOf(deal, ys)[j];
  }

  lemma {:induction false} ImageOfHead(deal: Deal, tokens: seq<int>, n: nat)
    requires n <= |tokens|
    ensures ImageOf(deal, tokens[..n]) == ImageOf(deal, tokens)[..n]
  {
  }

  lemma {:induction false} BlockImage(deal: Deal, blocks: Blocks, hash: int, prefix: seq<int>, hashes: iset<int>)
    requires WellSized(blocks) && |prefix| < BLOCK_SIZE && hash in hashes && Only(prefix, hashes)
    requires forall h | h in blocks :: Only(blocks[h], hashes)
    ensures var own := BlockFor(Own(), blocks, hash, prefix);
      var block := BlockFor(deal, ImageOfBlocks(deal, blocks), hash, ImageOf(deal, prefix));
      && (own.Some? ==> block == Some(ImageOf(deal, own.value)) && Only(own.value, hashes))
      && (own.None? && CollisionFree(deal, hashes) ==> block.None?)
  {
    hide CollisionFree;
    if hash in blocks {
      ImageOfHead(deal, blocks[hash], |prefix|);
      if blocks[hash][..|prefix|] != prefix && CollisionFree(deal, hashes) {
        ImagesDiffer(deal, blocks[hash][..|prefix|], prefix, hashes);
      }
    } else {
      assert ImageOf(deal, prefix + Dealt(Own(), hash, |prefix|))
          == ImageOf(deal, prefix) + Dealt(deal, hash, |prefix|);
    }
  }

  ghost predicate Carries(record: Record, hashes: iset<int>) {
    forall h | h in record.hashIds :: h in hashes
  }

  lemma {:induction false} RoundImage(deal: Deal, record: Record, w: World, hashes: iset<int>)
    requires Validated(record) && WellSized(w.blocks) && |w.tokens| < record.inputLength
    requires Names(w, hashes) && Carries(record, hashes)
    ensures var own, next := Round(Own(), record, w), Round(deal, record, Image(deal, w));
      && (own.Some? ==> next == Some(Image(deal, own.value)) && Names(own.value, hashes))
      && (own.None? && CollisionFree(deal, hashes) ==> next.None?)
  {
    hide CollisionFree, Own;
    var offset, hash := |w.tokens| % BLOCK_SIZE, NextHash(record, |w.tokens|);
    assert hash in record.hashIds;
    ImageOfTail(deal, w.tokens);
    BlockImage(deal, w.blocks, hash, Tail(w.tokens), hashes);
    var block := BlockFor(Own(), w.blocks, hash, Tail(w.tokens));
    if block.Some? {
      ImageOfMore(deal, w.tokens, block.value, Taken(record, |w.tokens|));
      assert ImageOfBlocks(deal, w.blocks[hash := block.value])
          == ImageOfBlocks(deal, w.blocks)[hash := ImageOf(deal, block.value)];
    }
  }

  lemma {:induction false} GrowImage(deal: Deal, record: Record, w: World, hashes: iset<int>)
    requires Validated(record) && WellSized(w.blocks) && |w.tokens| <= record.inputLength
    requires Names(w, hashes) && Carries(record, hashes)
    ensures var own, grown := Grow(Own(), record, w), Grow(deal, record, Image(deal, w));
      && (own.Some? ==> grown == Some(Image(deal, own.value)) && Names(own.value, hashes))
      && (own.None? && CollisionFree(deal, hashes) ==> grown.None?)
    decreases record.inputLength - |w.tokens|
  {
    hide CollisionFree, Own, Validated, Names, Carries, Round;
    if |w.tokens| < record.inputLength {
      RoundImage(deal, record, w, hashes);
      var next := Round(Own(), record, w);
      if next.Some? {
        GrowImage(deal, record, next.value, hashes);
      }
    }
  }

  lemma {:induction false} TurnsImage(deal: Deal, session: Session, n: nat, blocks: Blocks, hashes: iset<int>)
    requires n <= |session| && AllValidated(session) && WellSized(blocks)
    requires forall h | h in blocks :: Only(blocks[h], hashes)
    requires forall r | r in session :: Carries(r, hashes)
    ensures var own := AfterTurns(Own(), session, n, blocks);
      var after := AfterTurns(deal, session, n, ImageOfBlocks(deal, blocks));
      && (own.Ok? ==> after == Ok(Image(deal, own.value)) && Names(own.value, hashes))
      && (own.Err? && CollisionFree(deal, hashes) ==> after == own)
  {
    hide CollisionFree, Own, Validated, Carries, Grow, TurnError;
    if n > 0 {
      TurnsImage(deal, session, n - 1, blocks, hashes);
      var before := AfterTurns(Own(), session, n - 1, blocks);
      assert session[n - 1] in session;
      if before.Ok? && TurnError(session[n - 1], Previous(session, n - 1), |before.value.tokens|).None? {
        TurnFits(session, n - 1, |before.value.tokens|);
        GrowImage(deal, session[n - 1], before.value, hashes);
      }
    }
  }

  lemma {:induction false} TurnFits(session: Session, k: nat, length: nat)
    requires k < |session| && TurnError(session[k], Previous(session, k), length).None? && (k == 0 ==> length == 0)
    ensures length <= session[k].inputLength
  {
  }

  /** The hashes that the records of the trace carry. */
  ghost function Carried(sessions: seq<Group>): iset<int> {
    iset h: int | IsCarried(sessions, h)
  }

  ghost predicate IsCarried(sessions: seq<Group>, hash: int) {
    exists g, r :: g in sessions && r in g.1 && hash in r.hashIds
  }

  lemma {:induction false} SessionsImage(deal: Deal, sessions: seq<Group>, n: nat)
    requires n <= |sessions| && SessionsValidated(sessions)
    ensures var own, after := AfterSessions(Own(), sessions, n), AfterSessions(deal, sessions, n);
      && (own.Ok? ==> after == Ok(ImageOfBlocks(deal, own.value)))
      && (own.Ok? ==> forall h | h in own.value :: Only(own.value[h], Carried(sessions)))
      && (own.Err? && CollisionFree(deal, Carried(sessions)) ==> after == own)
  {
    hide CollisionFree, Own, AfterTurns;
    if n > 0 {
      SessionsImage(deal, sessions, n - 1);
      var before, session := AfterSessions(Own(), sessions, n - 1), sessions[n - 1].1;
      assert sessions[n - 1] in sessions;
      if before.Ok? {
        TurnsImage(deal, session, |session|, before.value, Carried(sessions));
      }
    } else {
      assert ImageOfBlocks(deal, map[]) == map[];
    }
  }

  /**
    Whether a trace can be replayed is settled by the trace: what goes through with every token named by
    its hash goes through with any digest and seed, and nothing else does unless tokens collide.
   */
  lemma {:induction false} TraceAloneDecides(deal: Deal, sessions: seq<Group>)
    requires SessionsValidated(sessions)
    ensures AfterSessions(Own(), sessions, |sessions|).Ok? ==> AfterSessions(deal, sessions, |sessions|).Ok?
    ensures CollisionFree(deal, Carried(sessions)) ==>
      (AfterSessions(deal, sessions, |sessions|).Ok? <==> AfterSessions(Own(), sessions, |sessions|).Ok?)
  {
    hide CollisionFree, Own, AfterSessions;
    SessionsImage(deal, sessions, |sessions|);
  }

  function OneBlockRecord(chatId: nat, parentId: int, turn: nat, length: nat, hash: int): Record {
    Record(chatId, parentId, 0.0, length, 0, "", turn, [hash])
  }

  /** The first turn of a session of one token stores the block of its hash. */
  lemma {:induction false} FirstTokenStored(deal: Deal, record: Record, blocks: Blocks)
    requires Validated(record) && WellSized(blocks) && record.inputLength == 1 && record.hashIds[0] !in blocks
    requires record.parentId == NO_PARENT && record.turn == 1
    ensures var block := Dealt(deal, record.hashIds[0], 0);
      Turn(deal, record, None, World([], blocks))
        == Ok(World([deal(record.hashIds[0], 0)], blocks[record.hashIds[0] := block]))
  {
    hide Grow, Round, Tail, Dealt, WellSized, BlocksFor;
    var hash, w := record.hashIds[0], World([], blocks);
    var block := Dealt(deal, hash, 0);
    assert Tail([]) == [] && [] + block == block;
    assert BlockFor(deal, blocks, hash, []) == Some(block);
    RoundOfBlock(deal, record, w);
    assert [] + block[0..1] == [deal(hash, 0)];
    GrowByRounds(deal, record, w);
    GrowsNoFurther(deal, record, World([deal(hash, 0)], blocks[hash := block]));
  }

  /** Accepted sessions can conflict: a second turn goes on with the hash that another session began with. */
  lemma {:induction false} AcceptedSessionsCanConflict()
    ensures var first := OneBlockRecord(0, NO_PARENT, 1, 1, 10);
      var second, third := OneBlockRecord(1, NO_PARENT, 1, 1, 20), OneBlockRecord(2, 1, 2, 2, 10);
      var sessions: seq<Group> := [(Root(0), [first]), (Root(1), [second, third])];
      && SessionsValidated(sessions) && AllAccepted(sessions)
      && AfterSessions(Own(), sessions, 2) == Err(HashConflict)
  {
    hide Turn, Grow;
    var first := OneBlockRecord(0, NO_PARENT, 1, 1, 10);
    var second, third := OneBlockRecord(1, NO_PARENT, 1, 1, 20), OneBlockRecord(2, 1, 2, 2, 10);
    var sessions: seq<Group> := [(Root(0), [first]), (Root(1), [second, third])];
    FirstTokenStored(Own(), first, map[]);
    var blocks := map[10 := Dealt(Own(), 10, 0)];
    assert AfterTurns(Own(), [first], 1, map[]) == Ok(World([10], blocks));
    assert AfterSessions(Own(), sessions, 1) == Ok(blocks);
    FirstTokenStored(Own(), second, blocks);
    var w := World([20], blocks[20 := Dealt(Own(), 20, 0)]);
    assert AfterTurns(Own(), [second, third], 1, blocks) == Ok(w);
    ThirdTurnConflicts(third, w);
  }

  lemma {:induction false} ThirdTurnConflicts(third: Record, w: World)
    requires third == OneBlockRecord(2, 1, 2, 2, 10)
    requires w == World([20], map[10 := Dealt(Own(), 10, 0), 20 := Dealt(Own(), 20, 0)])
    ensures Turn(Own(), third, Some(OneBlockRecord(1, NO_PARENT, 1, 1, 20)), w) == Err(HashConflict)
  {
    GrowFailsOnTail(Own(), third, w);
    assert Tail(w.tokens) == [20];
    assert Take(w.blocks[10], 1)[0] == 10;
    assert TailConflict(third, w.tokens, w.blocks);
  }
}
