/**
  The order of a session's records, and why the order of the trace file does not matter: records that
  can be arranged into chains at all are grouped into just those chains.
 */
module Arrangement {
  import opened Sequences
  import opened TraceRecords
  import opened LinearSessions
  import opened Grouping

  /** Earlier turns first; of the same turn the earlier record, and of the same time the smaller id. */
  ghost predicate InOrder(a: Record, b: Record) {
    && a.turn <= b.turn
    && (a.turn == b.turn ==> a.timestamp <= b.timestamp)
    && (a.turn == b.turn && a.timestamp == b.timestamp ==> a.chatId <= b.chatId)
  }

  lemma {:induction false} RecordOrder()
    ensures TotalPreorder(RecordLe)
  {
  }

  /** A session's records are those of its group, by turn, then time, then id. */
  lemma {:induction false} SessionsAreInOrder(records: seq<Record>, i: nat)
    requires i < |SessionsOf(records)|
    ensures var session := SessionsOf(records)[i].1;
      && multiset(session) == multiset(GroupBy(IndexOf(records), Kept(records))[i].1)
      && forall j, k | 0 <= j < k < |session| :: InOrder(session[j], session[k])
  {
    var group := GroupBy(IndexOf(records), Kept(records))[i].1;
    RecordOrder();
    SortSorted(RecordLe, group);
    SortPermutes(RecordLe, group);
    hide GroupBy, Sort, Kept, IndexOf;
    var session := Sort(RecordLe, group);
    forall j, k | 0 <= j < k < |session|
      ensures InOrder(session[j], session[k])
    {
      assert RecordLe(session[j], session[k]);
    }
  }

  // ----------------------------------------------------------- unique orderings

  ghost predicate UniqueIds(records: seq<Record>) {
    forall i, j | 0 <= i < j < |records| :: records[i].chatId != records[j].chatId
  }

  ghost predicate SameRecords(xs: seq<Record>, ys: seq<Record>) {
    forall r :: r in xs <==> r in ys
  }

  /** Records in order, with ids that differ, can be in one order only. */
  lemma {:induction false} OneOrder(xs: seq<Record>, ys: seq<Record>)
    requires Sorted(RecordLe, xs) && Sorted(RecordLe, ys) && UniqueIds(xs) && UniqueIds(ys) && SameRecords(xs, ys)
    ensures xs == ys
  {
    AsMany(xs);
    AsMany(ys);
    assert (set r | r in xs) == (set r | r in ys);
    if xs != [] {
      assert xs[0] in ys && ys[0] in xs;
      SameHead(xs, ys);
      SameTails(xs, ys);
      OneOrder(xs[1..], ys[1..]);
    }
  }

  /** There are as many records as ids. */
  lemma {:induction false} AsMany(records: seq<Record>)
    requires UniqueIds(records)
    ensures |set r | r in records| == |records|
  {
    if records != [] {
      AsMany(records[1..]);
      assert (set r | r in records) == {records[0]} + (set r | r in records[1..]);
      assert records[0] !in records[1..];
    } else {
      assert (set r | r in records) == {};
    }
  }

  lemma {:induction false} SameHead(xs: seq<Record>, ys: seq<Record>)
    requires Sorted(RecordLe, xs) && Sorted(RecordLe, ys) && UniqueIds(xs)
    requires xs != [] && ys != [] && xs[0] in ys && ys[0] in xs
    ensures xs[0] == ys[0]
  {
    var i :| 0 <= i < |ys| && ys[i] == xs[0];
    var j :| 0 <= j < |xs| && xs[j] == ys[0];
    assert i > 0 ==> RecordLe(ys[0], ys[i]);
    assert j > 0 ==> RecordLe(xs[0], xs[j]);
    SameIdSameRecord(xs, xs[0], ys[0]);
  }

  lemma {:induction false} SameTails(xs: seq<Record>, ys: seq<Record>)
    requires xs != [] && ys != [] && xs[0] == ys[0]
    requires UniqueIds(xs) && UniqueIds(ys) && SameRecords(xs, ys)
    ensures SameRecords(xs[1..], ys[1..])
  {
    forall r
      ensures r in xs[1..] <==> r in ys[1..]
    {
      assert r in xs[1..] <==> r in xs && r != xs[0];
      assert r in ys[1..] <==> r in ys && r != ys[0];
    }
  }

  lemma {:induction false} FilterIsUnique(p: Record -> bool, records: seq<Record>)
    requires UniqueIds(records)
    ensures UniqueIds(Filter(p, records))
  {
    if records != [] {
      var rest := Filter(p, records[1..]);
      FilterIsUnique(p, records[1..]);
      forall i | 0 <= i < |rest|
        ensures rest[i].chatId != records[0].chatId
      {
        assert rest[i] in records[1..];
      }
    }
  }

  lemma {:induction false} SortIsUnique(records: seq<Record>)
    requires UniqueIds(records)
    ensures UniqueIds(Sort(RecordLe, records))
  {
    SortPermutes(RecordLe, records);
    hide Sort;
    var sorted := Sort(RecordLe, records);
    forall i, j | 0 <= i < j < |sorted|
      ensures sorted[i].chatId != sorted[j].chatId
    {
      TwiceInMultiset(sorted, i, j);
      OnceInUnique(records, sorted[i]);
      assert sorted[i] in records && sorted[j] in records;
      SameIdSameRecord(records, sorted[i], sorted[j]);
    }
  }

  lemma {:induction false} TwiceInMultiset(xs: seq<Record>, i: nat, j: nat)
    requires i < j < |xs|
    ensures xs[i] == xs[j] ==> multiset(xs)[xs[i]] >= 2
  {
    assert xs == xs[..j] + [xs[j]] + xs[j + 1..];
    assert multiset(xs) == multiset(xs[..j]) + multiset{xs[j]} + multiset(xs[j + 1..]);
    assert xs[..j][i] == xs[i];
    assert xs[i] in multiset(xs[..j]);
  }

  lemma {:induction false} OnceInUnique(records: seq<Record>, r: Record)
    requires UniqueIds(records)
    ensures multiset(records)[r] <= 1
  {
    if records != [] {
      OnceInUnique(records[1..], r);
      assert records == [records[0]] + records[1..];
      assert records[0] !in records[1..];
    }
  }

  lemma {:induction false} SameIdSameRecord(records: seq<Record>, a: Record, b: Record)
    requires UniqueIds(records) && a in records && b in records
    ensures a.chatId == b.chatId ==> a == b
  {
    var i :| 0 <= i < |records| && records[i] == a;
    var j :| 0 <= j < |records| && records[j] == b;
  }

  lemma {:induction false} UniqueHasNoDuplicates(records: seq<Record>)
    requires UniqueIds(records)
    ensures Duplicates(records) == []
  {
    if records != [] {
      var rest, r := records[..|records| - 1], records[|records| - 1];
      UniqueHasNoDuplicates(rest);
      IndexHolds(rest);
      assert forall i | 0 <= i < |rest| :: rest[i] == records[i];
    }
  }

  // ----------------------------------------------------------------- chains

  /** A session that starts at its root and goes on turn by turn. */
  ghost predicate IsChain(chain: Session) {
    chain != [] && chain[0].parentId == NO_PARENT && Linked(chain)
  }

  function KeyOfChain(chain: Session): Key
    requires chain != []
  {
    Root(chain[0].chatId)
  }

  /** The records of the trace, in whatever order, are those of the chains. */
  ghost predicate Arranges(chains: seq<Session>, records: seq<Record>) {
    && UniqueIds(records)
    && (forall c | c in chains :: IsChain(c) && UniqueIds(c))
    && (forall i, j | 0 <= i < j < |chains| :: chains[i] != [] && chains[j] != [] && Apart(chains[i], chains[j]))
    && (forall c, r | c in chains && r in c :: r in records)
    && (forall r | r in records :: exists c :: c in chains && r in c)
  }

  /** No record is in both chains. */
  ghost predicate Apart(c: Session, d: Session) {
    forall r | r in c :: r !in d
  }

  lemma {:induction false} LinkedIsSorted(chain: Session)
    requires Linked(chain)
    ensures Sorted(RecordLe, chain)
  {
    forall i, j | 0 <= i < j < |chain|
      ensures RecordLe(chain[i], chain[j])
    {
      TurnsAscend(chain, i, j);
    }
  }

  lemma {:induction false} TurnsAscend(chain: Session, i: nat, j: nat)
    requires Linked(chain) && i < j < |chain|
    ensures chain[i].turn < chain[j].turn
    decreases j
  {
    assert LinkIssue(chain[j - 1], chain[j]).None?;
    if i < j - 1 {
      TurnsAscend(chain, i, j - 1);
    }
  }

  lemma {:induction false} IndexFinds(records: seq<Record>, r: Record)
    requires UniqueIds(records) && r in records
    ensures r.chatId in IndexOf(records) && IndexOf(records)[r.chatId] == r
  {
    IndexHolds(records);
    UniqueHasNoDuplicates(records);
    NoDuplicatesKeepsAll(records);
  }

  /** From turn k of a chain the walk ends at the first turn. */
  lemma {:induction false} ChainLeadsToRoot(records: seq<Record>, chain: Session, k: nat)
    requires UniqueIds(records) && IsChain(chain) && k < |chain|
    requires forall r | r in records :: r.chatId != NO_PARENT
    requires forall r | r in chain :: r in records
    ensures Chase(IndexOf(records), chain[k].chatId, k + 1) == AtRoot(chain[0].chatId)
  {
    hide IndexOf;
    var byId := IndexOf(records);
    assert chain[k] in chain;
    IndexFinds(records, chain[k]);
    assert Chase(byId, chain[k].chatId, 0) == At(chain[k].chatId);
    if k > 0 {
      assert LinkIssue(chain[k - 1], chain[k]).None?;
      assert chain[k - 1] in chain && chain[k - 1] in records;
      ChainLeadsToRoot(records, chain, k - 1);
      assert Chase(byId, chain[k].chatId, 1) == At(chain[k - 1].chatId);
      ChaseOnwards(byId, chain[k].chatId, 1, k);
    }
  }

  /** What is asked of a trace: its records are those of the chains, and have ids that are not the missing parent's. */
  ghost predicate IsArrangement(chains: seq<Session>, records: seq<Record>) {
    Arranges(chains, records) && forall r | r in records :: r.chatId != NO_PARENT
  }

  lemma {:induction false} KeyInChain(chains: seq<Session>, records: seq<Record>, c: Session, r: Record)
    requires IsArrangement(chains, records) && c in chains && r in c
    ensures r in records && c != [] && IsChain(c) && KeyOf(IndexOf(records), r) == KeyOfChain(c)
  {
    hide IndexOf, RootOf;
    var k :| 0 <= k < |c| && c[k] == r;
    ChainLeadsToRoot(records, c, k);
    WalkEndsAtRoot(IndexOf(records), r.chatId, k + 1);
  }

  /** Chains with the same key are the same chain. */
  lemma {:induction false} OneChainForAKey(chains: seq<Session>, records: seq<Record>, c: Session, d: Session)
    requires IsArrangement(chains, records) && c in chains && d in chains
    requires c != [] && d != [] && KeyOfChain(c) == KeyOfChain(d)
    ensures c == d
  {
    assert c[0] in c && d[0] in d;
    SameIdSameRecord(records, c[0], d[0]);
    var i :| 0 <= i < |chains| && chains[i] == c;
    var j :| 0 <= j < |chains| && chains[j] == d;
    assert i < j ==> Apart(chains[i], chains[j]);
    assert j < i ==> Apart(chains[j], chains[i]);
  }

  /** The records with a chain's key are the chain's. */
  lemma {:induction false} GroupIsChain(chains: seq<Session>, records: seq<Record>, c: Session)
    requires IsArrangement(chains, records) && c in chains && c != []
    ensures SameRecords(Filter(Keyed(IndexOf(records), KeyOfChain(c)), records), c)
  {
    hide KeyOf, IndexOf, Arranges;
    var keyed := Keyed(IndexOf(records), KeyOfChain(c));
    forall r
      ensures r in Filter(keyed, records) <==> r in c
    {
      if r in c {
        KeyInChain(chains, records, c, r);
        FilterKeeps(keyed, records, r);
      } else if r in Filter(keyed, records) {
        var d := ChainOf(chains, records, r);
        KeyInChain(chains, records, d, r);
        OneChainForAKey(chains, records, c, d);
      }
    }
  }

  lemma {:induction false} ChainOf(chains: seq<Session>, records: seq<Record>, r: Record) returns (c: Session)
    requires IsArrangement(chains, records) && r in records
    ensures c in chains && r in c && IsChain(c) && UniqueIds(c)
  {
    c :| c in chains && r in c;
  }

  /** Every session of an arranged trace is one of the chains. */
  lemma {:induction false} SessionIsChain(chains: seq<Session>, records: seq<Record>, i: nat) returns (c: Session)
    requires IsArrangement(chains, records) && i < |SessionsOf(records)|
    ensures c in chains && IsChain(c) && SessionsOf(records)[i] == (KeyOfChain(c), c)
  {
    hide KeyOf, IndexOf, Arranges, GroupBy, Sort, IsChain, Linked;
    UniqueRecords(chains, records);
    NoDuplicatesKeepsAll(records);
    var byId := IndexOf(records);
    var group := GroupBy(byId, records)[i];
    GroupByPartitions(byId, records);
    assert group.1 != [] && group.1 == Filter(Keyed(byId, group.0), records);
    assert group.1[0] in group.1;
    c := ChainOf(chains, records, group.1[0]);
    KeyInChain(chains, records, c, group.1[0]);
    GroupIsChain(chains, records, c);
    SortedGroup(records, group.1, c, Keyed(byId, group.0));
  }

  lemma {:induction false} UniqueRecords(chains: seq<Session>, records: seq<Record>)
    requires IsArrangement(chains, records)
    ensures UniqueIds(records) && Duplicates(records) == []
  {
    UniqueHasNoDuplicates(records);
  }

  lemma {:induction false} SortedGroup(records: seq<Record>, group: seq<Record>, c: Session, p: Record -> bool)
    requires UniqueIds(records) && group == Filter(p, records) && SameRecords(group, c)
    requires IsChain(c) && UniqueIds(c)
    ensures Sort(RecordLe, group) == c
  {
    hide RecordLe;
    FilterIsUnique(p, records);
    SortIsUnique(group);
    RecordOrder();
    SortSorted(RecordLe, group);
    SortPermutes(RecordLe, group);
    LinkedIsSorted(c);
    hide Sort;
    OneOrder(Sort(RecordLe, group), c);
  }

  /** The session is one of the chains, under its root. */
  ghost predicate IsOneOf(g: Group, chains: seq<Session>) {
    exists c :: c in chains && c != [] && g == (KeyOfChain(c), c)
  }

  /**
    However the file orders its records: if they can be arranged into chains, each from a root turn by
    turn, the trace is grouped, and its sessions are exactly those chains.
   */
  lemma {:induction false} ArrangedTraceIsGrouped(chains: seq<Session>, records: seq<Record>)
    requires IsArrangement(chains, records)
    ensures Groupable(records)
    ensures forall i | 0 <= i < |SessionsOf(records)| :: IsOneOf(SessionsOf(records)[i], chains)
    ensures forall c | c in chains :: c != [] && (KeyOfChain(c), c) in SessionsOf(records)
  {
    hide Arranges, IndexOf, GroupBy, Linked, SessionsOf, RootOf;
    UniqueRecords(chains, records);
    forall i | 0 <= i < |SessionsOf(records)|
      ensures Accepted(SessionsOf(records)[i])
      ensures IsOneOf(SessionsOf(records)[i], chains)
    {
      var c := SessionIsChain(chains, records, i);
    }
    forall r | r in records
      ensures RootOf(IndexOf(records), r.chatId).Ok?
    {
      var c := ChainOf(chains, records, r);
      KeyInChain(chains, records, c, r);
    }
    forall c | c in chains
      ensures c != [] && (KeyOfChain(c), c) in SessionsOf(records)
    {
      ChainIsSession(chains, records, c);
    }
  }

  lemma {:induction false} ChainIsSession(chains: seq<Session>, records: seq<Record>, c: Session)
    requires IsArrangement(chains, records) && c in chains
    ensures c != [] && (KeyOfChain(c), c) in SessionsOf(records)
  {
    hide SessionsOf, IndexOf, KeyOf, UniqueIds;
    assert IsChain(c) && c[0] in c;
    UniqueRecords(chains, records);
    var i, k := RecordHasItsTurn(records, c[0]);
    var d := SessionIsChain(chains, records, i);
    assert c[0] in d;
    KeyInChain(chains, records, c, c[0]);
    KeyInChain(chains, records, d, c[0]);
    OneChainForAKey(chains, records, c, d);
    assert SessionsOf(records)[i] in SessionsOf(records);
  }
}
