/**
  The token reconstruction of qwen_bailian_trace.py: a store that gives every anonymised block
  hash one block of sixteen tokens, and the extender that grows a session's tokens turn by turn.
 */
module BlockStore {
  import opened Sequences
  import opened TraceRecords
  import opened Grouping
  import opened Reconstruction
  import opened Rebuildable

  /** Nothing stored is ever changed. */
  ghost predicate Extends(before: Blocks, after: Blocks) {
    forall h | h in before :: h in after && after[h] == before[h]
  }

  ghost predicate AllWithin(tokens: seq<int>, low: int, high: int) {
    forall i | 0 <= i < |tokens| :: low <= tokens[i] < high
  }

  /** The tokens that a store deals out: for each hash and place, the digest brought into the range. */
  function Dealer(low: int, high: int, seed: int, digest: (int, int, int) -> nat): (deal: Deal)
    requires low < high
    ensures forall hash, offset :: low <= deal(hash, offset) < high
  {
    (hash: int, offset: int) => low + digest(seed, hash, offset) % (high - low)
  }

  class HashTokenBlockStore {
    const seed: int
    const minimumTokenId: int
    const upperBound: int
    /** The hash of seed, block and offset: any function will do. */
    const digest: (int, int, int) -> nat
    var blocks: Blocks

    ghost predicate Valid()
      reads this
    {
      && 0 <= minimumTokenId < upperBound
      && WellSized(blocks)
    }

    /** Every stored token and every given token is one the store may choose. */
    ghost predicate InRange(tokens: seq<int>)
      reads this
    {
      && AllWithin(tokens, minimumTokenId, upperBound)
      && forall h | h in blocks :: AllWithin(blocks[h], minimumTokenId, upperBound)
    }

    constructor (vocabSize: int, seed: int, minimumTokenId: int, maximumTokenId: int, digest: (int, int, int) -> nat)
      requires 0 <= minimumTokenId < Min(vocabSize, maximumTokenId)
      ensures Valid() && blocks == map[]
      ensures this.minimumTokenId == minimumTokenId && upperBound == Min(vocabSize, maximumTokenId)
      ensures this.seed == seed && this.digest == digest
    {
      this.seed, this.minimumTokenId, this.digest := seed, minimumTokenId, digest;
      upperBound := Min(vocabSize, maximumTokenId);
      blocks := map[];
    }

    function Deals(): (deal: Deal)
      requires minimumTokenId < upperBound
      ensures forall hash, offset :: minimumTokenId <= deal(hash, offset) < upperBound
    {
      Dealer(minimumTokenId, upperBound, seed, digest)
    }

    /** The block of a hash seen for the first time. */
    function NewBlock(hash: int, prefix: seq<int>): (block: seq<int>)
      requires 0 <= minimumTokenId < upperBound && |prefix| < BLOCK_SIZE
      ensures |block| == BLOCK_SIZE && block[..|prefix|] == prefix
      ensures AllWithin(prefix, minimumTokenId, upperBound) ==> AllWithin(block, minimumTokenId, upperBound)
    {
      prefix + Dealt(Deals(), hash, |prefix|)
    }

    method GetBlock(hash: int, prefix: seq<int>) returns (r: Result<seq<int>, ReplayError>)
      requires Valid()
      modifies this`blocks
      ensures Valid()
      ensures r.Ok? && old(InRange(prefix)) ==> InRange(r.value)
      ensures r.Err? && old(InRange(prefix)) ==> InRange(prefix)
      ensures r == Err(PrefixTooLong) <==> |prefix| >= BLOCK_SIZE
      ensures r.Err? && |prefix| < BLOCK_SIZE <==>
        |prefix| < BLOCK_SIZE && hash in old(blocks) && old(blocks)[hash][..|prefix|] != prefix
      ensures r.Err? ==> r.error in {PrefixTooLong, HashConflict} && blocks == old(blocks)
      ensures r.Ok? ==> |r.value| == BLOCK_SIZE && r.value[..|prefix|] == prefix
      ensures r.Ok? ==> blocks == old(blocks)[hash := r.value]
      ensures Extends(old(blocks), blocks)
      ensures r.Ok? && hash !in old(blocks) ==> r.value == NewBlock(hash, prefix)
      ensures |prefix| < BLOCK_SIZE ==>
        BlockFor(Deals(), old(blocks), hash, prefix) == if r.Ok? then Some(r.value) else None
    {
      if |prefix| >= BLOCK_SIZE {
        return Err(PrefixTooLong);
      }
      if hash in blocks {
        if blocks[hash][..|prefix|] != prefix {
          return Err(HashConflict);
        }
        assert blocks == blocks[hash := blocks[hash]];
        return Ok(blocks[hash]);
      }
      var block := NewBlock(hash, prefix);
      blocks := blocks[hash := block];
      r := Ok(block);
    }
  }

  /** The token list of one session, which every turn extends in place. */
  class SessionTokens {
    var items: seq<int>

    constructor ()
      ensures items == []
    {
      items := [];
    }
  }

  /** The sixteen tokens of complete block b. */
  function BlockOf(tokens: seq<int>, b: nat): (block: seq<int>)
    requires b < |tokens| / BLOCK_SIZE
    ensures |block| == BLOCK_SIZE
  {
    tokens[BLOCK_SIZE * b..BLOCK_SIZE * b + BLOCK_SIZE]
  }

  /** Every complete block of the tokens is the stored block of its hash. */
  ghost predicate Reflects(tokens: seq<int>, hashIds: seq<int>, blocks: Blocks) {
    && |tokens| / BLOCK_SIZE <= |hashIds|
    && forall b | 0 <= b < |tokens| / BLOCK_SIZE ::
         hashIds[b] in blocks && BlockOf(tokens, b) == blocks[hashIds[b]]
  }

  lemma {:induction false} ReflectsStill(tokens: seq<int>, hashIds: seq<int>, before: Blocks, after: Blocks)
    requires Reflects(tokens, hashIds, before) && Extends(before, after)
    ensures Reflects(tokens, hashIds, after)
  {
    forall b | 0 <= b < |tokens| / BLOCK_SIZE
      ensures hashIds[b] in after && BlockOf(tokens, b) == after[hashIds[b]]
    {
      var h := hashIds[b];
      assert h in before && BlockOf(tokens, b) == before[h];
      assert h in after && after[h] == before[h];
    }
  }

  /** Hash lists that agree on the complete blocks of the tokens serve equally well. */
  lemma {:induction false} ReflectsOther(tokens: seq<int>, hashIds: seq<int>, other: seq<int>, blocks: Blocks)
    requires Reflects(tokens, hashIds, blocks)
    requires Take(other, |tokens| / BLOCK_SIZE) == Take(hashIds, |tokens| / BLOCK_SIZE)
    ensures Reflects(tokens, other, blocks)
  {
    var n := |tokens| / BLOCK_SIZE;
    assert n <= |other|;
    forall b | 0 <= b < n
      ensures other[b] == hashIds[b]
    {
      assert Take(hashIds, n)[b] == hashIds[b];
      assert Take(other, n)[b] == other[b];
    }
  }

  /** The rest of a block put after tokens that end with its first part leaves the whole block at their end. */
  lemma {:induction false} Straddling(tokens: seq<int>, start: nat, block: seq<int>, offset: nat)
    requires offset <= |block| && |tokens| == start + offset
    requires block[..offset] == tokens[start..]
    ensures (tokens + block[offset..])[start..start + |block|] == block
  {
    assert tokens + block[offset..] == tokens[..start] + (block[..offset] + block[offset..]);
  }

  /** Adding part of a block, from where the tokens stop, keeps the agreement with the store. */
  lemma {:induction false} ReflectsLonger(
      tokens: seq<int>, hashIds: seq<int>, blocks: Blocks, block: seq<int>, take: nat)
    requires Reflects(tokens, hashIds, blocks)
    requires |tokens| / BLOCK_SIZE < |hashIds| && blocks.Keys >= {hashIds[|tokens| / BLOCK_SIZE]}
    requires block == blocks[hashIds[|tokens| / BLOCK_SIZE]] && |block| == BLOCK_SIZE
    requires take <= BLOCK_SIZE - |tokens| % BLOCK_SIZE
    requires block[..|tokens| % BLOCK_SIZE] == Tail(tokens)
    ensures Reflects(tokens + block[|tokens| % BLOCK_SIZE..|tokens| % BLOCK_SIZE + take], hashIds, blocks)
  {
    var at, offset := |tokens| / BLOCK_SIZE, |tokens| % BLOCK_SIZE;
    var longer := tokens + block[offset..offset + take];
    assert |tokens| == BLOCK_SIZE * at + offset && |longer| == |tokens| + take;
    if offset + take == BLOCK_SIZE {
      assert |longer| / BLOCK_SIZE == at + 1;
      assert block[offset..offset + take] == block[offset..];
      Straddling(tokens, BLOCK_SIZE * at, block, offset);
      assert BlockOf(longer, at) == block;
    } else {
      assert |longer| / BLOCK_SIZE == at;
    }
    forall b | 0 <= b < at
      ensures hashIds[b] in blocks && BlockOf(longer, b) == blocks[hashIds[b]]
    {
      assert BlockOf(longer, b) == BlockOf(tokens, b);
    }
  }

  // -------------------------------------------------------------- extending

  /** One round of the loop: the rest of the block the tokens stop in, as far as the record goes. */
  method AppendFromBlock(record: Record, session: SessionTokens, store: HashTokenBlockStore)
    returns (r: Result<nat, ReplayError>)
    requires store.Valid() && Validated(record)
    requires |session.items| < record.inputLength && Reflects(session.items, record.hashIds, store.blocks)
    modifies session, store`blocks
    ensures store.Valid() && Extends(old(store.blocks), store.blocks)
    ensures old(store.InRange(session.items)) ==> store.InRange(session.items)
    ensures r.Err? <==> TailConflict(record, old(session.items), old(store.blocks))
    ensures r.Err? ==> r.error == HashConflict
    ensures r.Ok? ==> Reflects(session.items, record.hashIds, store.blocks)
    ensures r.Ok? ==> old(session.items) < session.items && |session.items| <= record.inputLength
    ensures r.Ok? ==> |session.items| % BLOCK_SIZE == 0 || |session.items| == record.inputLength
    ensures r.Ok? ==> TailFrom(session.items, HashAt(record, |old(session.items)|), store.blocks)
    ensures Round(store.Deals(), record, World(old(session.items), old(store.blocks)))
         == if r.Ok? then Some(World(session.items, store.blocks)) else None
  {
    hide Reflects, Extends, BlockFor, TailFrom, HashTokenBlockStore.InRange, AllWithin, Round, WellSized, Tail;
    var items, blocks0 := session.items, store.blocks;
    var blockIndex, offset := |items| / BLOCK_SIZE, |items| % BLOCK_SIZE;
    var hash := record.hashIds[blockIndex];
    var required := if offset > 0 then items[blockIndex * BLOCK_SIZE..] else [];
    TailStarts(items);
    assert hash == NextHash(record, |items|) && HashAt(record, |items|) == Some(hash);
    ghost var inRange := store.InRange(items);
    if inRange {
      TailInRange(store, items);
    }
    RoundOfBlock(store.Deals(), record, World(items, blocks0));
    var got := store.GetBlock(hash, required);
    if got.Err? {
      return Err(got.error);
    }
    var take := Taken(record, |items|);
    ReflectsStill(items, record.hashIds, blocks0, store.blocks);
    ReflectsLonger(items, record.hashIds, store.blocks, got.value, take);
    var block := got.value;
    if inRange {
      MoreInRange(store, items, block, offset, offset + take);
    }
    session.items := items + block[offset..offset + take];
    RoundTail(store.Deals(), record, World(items, blocks0));
    r := Ok(take);
  }

  lemma {:induction false} TailStarts(tokens: seq<int>)
    ensures var at, offset := |tokens| / BLOCK_SIZE, |tokens| % BLOCK_SIZE;
      at * BLOCK_SIZE <= |tokens| && Tail(tokens) == if offset > 0 then tokens[at * BLOCK_SIZE..] else []
  {
  }

  lemma {:induction false} TailInRange(store: HashTokenBlockStore, tokens: seq<int>)
    requires store.InRange(tokens)
    ensures store.InRange(Tail(tokens)) && AllWithin(tokens, store.minimumTokenId, store.upperBound)
  {
  }

  lemma {:induction false} MoreInRange(
      store: HashTokenBlockStore, tokens: seq<int>, block: seq<int>, from: nat, to: nat)
    requires store.InRange(block) && AllWithin(tokens, store.minimumTokenId, store.upperBound)
    requires from <= to <= |block|
    ensures store.InRange(tokens + block[from..to])
  {
  }

  lemma {:induction false} NothingChanged(blocks: Blocks)
    ensures Extends(blocks, blocks)
  {
  }

  lemma {:induction false} ExtendsFurther(a: Blocks, b: Blocks, c: Blocks)
    requires Extends(a, b) && Extends(b, c)
    ensures Extends(a, c)
  {
  }

  /** The loop: rounds until the tokens are as long as the record says, or the first round conflicts. */
  method FillTurn(record: Record, session: SessionTokens, store: HashTokenBlockStore) returns (filled: bool)
    requires store.Valid() && Validated(record)
    requires |session.items| <= record.inputLength && Reflects(session.items, record.hashIds, store.blocks)
    modifies session, store`blocks
    ensures store.Valid() && Extends(old(store.blocks), store.blocks)
    ensures old(store.InRange(session.items)) ==> store.InRange(session.items)
    ensures filled ==>
      && old(session.items) <= session.items && |session.items| == record.inputLength
      && Reflects(session.items, record.hashIds, store.blocks)
    ensures Grow(store.Deals(), record, World(old(session.items), old(store.blocks)))
         == if filled then Some(World(session.items, store.blocks)) else None
  {
    hide Reflects, TailFrom, Round, Grow, TailConflict, HashTokenBlockStore.InRange, Extends;
    ghost var tokens0, blocks0 := session.items, store.blocks;
    ghost var deal, w := store.Deals(), World(tokens0, blocks0);
    NothingChanged(blocks0);
    while |session.items| < record.inputLength
      invariant store.Valid() && Extends(blocks0, store.blocks)
      invariant tokens0 <= session.items && |session.items| <= record.inputLength
      invariant old(store.InRange(session.items)) ==> store.InRange(session.items)
      invariant Reflects(session.items, record.hashIds, store.blocks)
      invariant Grow(deal, record, World(session.items, store.blocks)) == Grow(deal, record, w)
      decreases record.inputLength - |session.items|
    {
      ghost var blocks := store.blocks;
      GrowByRounds(deal, record, World(session.items, blocks));
      var appended := AppendFromBlock(record, session, store);
      ExtendsFurther(blocks0, blocks, store.blocks);
      if appended.Err? {
        return false;
      }
    }
    GrowsNoFurther(deal, record, World(session.items, store.blocks));
    filled := true;
  }

  method ExtendSessionTokens(
      record: Record, previous: Option<Record>, session: SessionTokens, store: HashTokenBlockStore)
    returns (r: Result<seq<int>, ReplayError>)
    requires store.Valid() && Validated(record)
    requires if previous.None? then session.items == []
             else Reflects(session.items, previous.value.hashIds, store.blocks)
    modifies session, store`blocks
    ensures store.Valid() && Extends(old(store.blocks), store.blocks)
    ensures old(store.InRange(session.items)) ==> store.InRange(session.items)
    ensures r.Err? <==>
      || TurnError(record, previous, |old(session.items)|).Some?
      || TailConflict(record, old(session.items), old(store.blocks))
    ensures r.Err? ==>
      r.error == TurnError(record, previous, |old(session.items)|).GetOr(HashConflict)
    ensures r.Ok? ==>
      && session.items == old(session.items) + r.value
      && |session.items| == record.inputLength
      && Reflects(session.items, record.hashIds, store.blocks)
    ensures r.Ok? && r.value != [] ==>
      TailFrom(session.items, HashAt(record, record.inputLength), store.blocks)
    ensures Turn(store.Deals(), record, previous, World(old(session.items), old(store.blocks)))
         == if r.Ok? then Ok(World(session.items, store.blocks)) else Err(r.error)
  {
    var previousLength := |session.items|;
    var error := TurnError(record, previous, previousLength);
    if error.Some? {
      NothingChanged(store.blocks);
      return Err(error.value);
    }
    ghost var deal, w := store.Deals(), World(session.items, store.blocks);
    if previous.Some? {
      ReflectsOther(session.items, previous.value.hashIds, record.hashIds, store.blocks);
    }
    hide Reflects, TurnError, TailFrom, Grow, TailConflict, HashTokenBlockStore.InRange, Extends, Validated;
    GrowFailsOnTail(deal, record, w);
    var filled := FillTurn(record, session, store);
    if !filled {
      return Err(HashConflict);
    }
    if previousLength < record.inputLength {
      GrowTail(deal, record, w);
    }
    r := Ok(session.items[previousLength..]);
  }
}
