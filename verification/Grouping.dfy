/**
  The two ways the repository cuts a trace into linear sessions: group_linear_sessions, which
  refuses the whole trace, and classify_linear_sessions, which sets the bad sessions aside.
 */
module Grouping {
  import opened Sequences
  import opened TraceRecords
  import opened LinearSessions

  datatype Issue =
    | DuplicateChatId | CycleDetected | ParentMissing | DoesNotStartWithRoot
    | EmptySession | MissingRoot | RootTurnIsNot1
    | BranchesOrSkipsParent | NonConsecutiveTurns | TimestampsMoveBackwards
    | InputLengthShrank | CompleteBlockPrefixChanged | MissingParentOrCycle

  /** A session is keyed by its root, or by its own record when it has none. */
  datatype Key = Root(id: int) | Fragment(id: int)

  type Group = (Key, Session)

  predicate RecordLe(a: Record, b: Record) {
    a.turn < b.turn || (a.turn == b.turn
      && (a.timestamp < b.timestamp || (a.timestamp == b.timestamp && a.chatId <= b.chatId)))
  }

  // -------------------------------------------------- dictionaries of lists

  function Position(groups: seq<Group>, key: Key): (i: nat)
    ensures i <= |groups|
    ensures i < |groups| ==> groups[i].0 == key
    ensures forall j | 0 <= j < i :: groups[j].0 != key
  {
    if groups == [] then 0
    else if groups[0].0 == key then 0
    else
      var i := Position(groups[1..], key);
      assert forall j | 0 < j < i + 1 :: groups[j] == groups[1..][j - 1];
      i + 1
  }

  /** grouped[key].append(r), for a dictionary of lists in insertion order. */
  function AddTo(groups: seq<Group>, key: Key, r: Record): seq<Group> {
    var i := Position(groups, key);
    if i < |groups| then groups[i := (key, groups[i].1 + [r])] else groups + [(key, [r])]
  }

  ghost function KeyOf(byId: Index, r: Record): Key {
    match RootOf(byId, r.chatId)
    case Ok(root) => Root(root)
    case Err(_) => Fragment(r.chatId)
  }

  ghost function Keyed(byId: Index, key: Key): Record -> bool {
    (r: Record) => KeyOf(byId, r) == key
  }

  ghost function GroupBy(byId: Index, records: seq<Record>): seq<Group> {
    if records == [] then []
    else
      var r := records[|records| - 1];
      AddTo(GroupBy(byId, records[..|records| - 1]), KeyOf(byId, r), r)
  }

  ghost predicate HasKey(groups: seq<Group>, key: Key) {
    exists i :: 0 <= i < |groups| && groups[i].0 == key
  }

  /** Each group holds, in their order, exactly the records with its key, and every key has its group. */
  ghost predicate IsPartition(groups: seq<Group>, byId: Index, records: seq<Record>) {
    && (forall i, j | 0 <= i < j < |groups| :: groups[i].0 != groups[j].0)
    && (forall i | 0 <= i < |groups| ::
          groups[i].1 != [] && groups[i].1 == Filter(Keyed(byId, groups[i].0), records))
    && (forall r | r in records :: HasKey(groups, KeyOf(byId, r)))
  }

  lemma {:induction false} FilterSnoc(p: Record -> bool, records: seq<Record>, r: Record)
    ensures Filter(p, records + [r]) == Filter(p, records) + if p(r) then [r] else []
  {
    FilterConcat(p, records, [r]);
    assert Filter(p, [r]) == if p(r) then [r] else [];
  }

  lemma {:induction false} AddToGroup(groups: seq<Group>, byId: Index, records: seq<Record>, r: Record, i: nat)
    requires IsPartition(groups, byId, records)
    requires i < |AddTo(groups, KeyOf(byId, r), r)|
    ensures var g := AddTo(groups, KeyOf(byId, r), r)[i];
      g.1 != [] && g.1 == Filter(Keyed(byId, g.0), records + [r])
  {
    var key := KeyOf(byId, r);
    FilterSnoc(Keyed(byId, AddTo(groups, key, r)[i].0), records, r);
    if i == |groups| {
      forall x | x in records
        ensures KeyOf(byId, x) != key
      {
        assert HasKey(groups, KeyOf(byId, x));
      }
      FilterNone(Keyed(byId, key), records);
    }
  }

  lemma {:induction false} AddToKeys(groups: seq<Group>, key: Key, r: Record, k: Key)
    requires k == key || HasKey(groups, k)
    ensures HasKey(AddTo(groups, key, r), k)
  {
    var more := AddTo(groups, key, r);
    assert more[Position(groups, key)].0 == key;
    if k != key {
      var i :| 0 <= i < |groups| && groups[i].0 == k;
      assert more[i].0 == k;
    }
  }

  lemma {:induction false} AddToPartition(groups: seq<Group>, byId: Index, records: seq<Record>, r: Record)
    requires IsPartition(groups, byId, records)
    ensures IsPartition(AddTo(groups, KeyOf(byId, r), r), byId, records + [r])
  {
    hide HasKey, KeyOf;
    var key := KeyOf(byId, r);
    forall i | 0 <= i < |AddTo(groups, key, r)| {
      AddToGroup(groups, byId, records, r, i);
    }
    forall x | x in records + [r] {
      AddToKeys(groups, key, r, KeyOf(byId, x));
    }
  }

  lemma {:induction false} GroupByPartitions(byId: Index, records: seq<Record>)
    ensures IsPartition(GroupBy(byId, records), byId, records)
  {
    if records != [] {
      var rest, r := records[..|records| - 1], records[|records| - 1];
      GroupByPartitions(byId, rest);
      AddToPartition(GroupBy(byId, rest), byId, rest, r);
      assert rest + [r] == records;
    }
  }

  // ------------------------------------------------------- session checks

  /** What both checks ask of a turn and the one before it. */
  function LinkIssue(previous: Record, current: Record): Option<Issue> {
    if current.parentId != previous.chatId then Some(BranchesOrSkipsParent)
    else if current.turn != previous.turn + 1 then Some(NonConsecutiveTurns)
    else if current.timestamp < previous.timestamp then Some(TimestampsMoveBackwards)
    else None
  }

  predicate KeepsPrefix(previous: Record, current: Record) {
    var complete := previous.inputLength / BLOCK_SIZE;
    Take(current.hashIds, complete) == Take(previous.hashIds, complete)
  }

  /** Python's xs[:n], which stops at the end of a shorter list. */
  function Take(xs: seq<int>, n: nat): seq<int> {
    if n <= |xs| then xs[..n] else xs
  }

  /** What the classifier asks besides. */
  function GrowthIssue(previous: Record, current: Record): Option<Issue> {
    if LinkIssue(previous, current).Some? then LinkIssue(previous, current)
    else if current.inputLength < previous.inputLength then Some(InputLengthShrank)
    else if !KeepsPrefix(previous, current) then Some(CompleteBlockPrefixChanged)
    else None
  }

  /** A turn goes on from the one before it: its child, next in turn and not earlier. */
  ghost predicate GoesOn(previous: Record, current: Record) {
    && current.parentId == previous.chatId && current.turn == previous.turn + 1
    && previous.timestamp <= current.timestamp
  }

  /** Its input is no shorter and has the same hashes for all complete blocks of the one before it. */
  ghost predicate GrowsFrom(previous: Record, current: Record) {
    && previous.inputLength <= current.inputLength
    && forall b | 0 <= b < previous.inputLength / 16 ::
         HashOrNone(current, b) == HashOrNone(previous, b)
  }

  function HashOrNone(record: Record, b: nat): Option<int> {
    if b < |record.hashIds| then Some(record.hashIds[b]) else None
  }

  lemma {:induction false} LinkIssueMeans(previous: Record, current: Record)
    ensures LinkIssue(previous, current).None? <==> GoesOn(previous, current)
    ensures LinkIssue(previous, current) == Some(BranchesOrSkipsParent) <==> current.parentId != previous.chatId
    ensures LinkIssue(previous, current) == Some(NonConsecutiveTurns) <==>
      current.parentId == previous.chatId && current.turn != previous.turn + 1
  {
  }

  /** What the classifier finds between two turns: nothing if the second goes on from and outgrows the first. */
  lemma {:induction false} GrowthIssueMeans(previous: Record, current: Record)
    ensures GrowthIssue(previous, current).None? <==> GoesOn(previous, current) && GrowsFrom(previous, current)
    ensures GrowthIssue(previous, current) == Some(InputLengthShrank) <==>
      GoesOn(previous, current) && current.inputLength < previous.inputLength
    ensures GrowthIssue(previous, current) == Some(CompleteBlockPrefixChanged) <==>
      GoesOn(previous, current) && previous.inputLength <= current.inputLength && !GrowsFrom(previous, current)
    ensures !GoesOn(previous, current) ==> GrowthIssue(previous, current) == LinkIssue(previous, current)
  {
    LinkIssueMeans(previous, current);
    KeepsPrefixMeans(previous, current);
    hide KeepsPrefix;
  }

  lemma {:induction false} KeepsPrefixMeans(previous: Record, current: Record)
    ensures KeepsPrefix(previous, current) <==>
      forall b | 0 <= b < previous.inputLength / 16 :: HashOrNone(current, b) == HashOrNone(previous, b)
  {
    var n := previous.inputLength / BLOCK_SIZE;
    var xs, ys := Take(current.hashIds, n), Take(previous.hashIds, n);
    assert forall b | 0 <= b < n :: HashOrNone(current, b) == if b < |xs| then Some(xs[b]) else None;
    assert forall b | 0 <= b < n :: HashOrNone(previous, b) == if b < |ys| then Some(ys[b]) else None;
    if forall b | 0 <= b < n :: HashOrNone(current, b) == HashOrNone(previous, b) {
      SameHashesSameLength(previous, current, n);
      assert forall b | 0 <= b < |xs| :: Some(xs[b]) == Some(ys[b]);
    }
  }

  lemma {:induction false} SameHashesSameLength(previous: Record, current: Record, n: nat)
    requires forall b | 0 <= b < n :: HashOrNone(current, b) == HashOrNone(previous, b)
    ensures |Take(current.hashIds, n)| == |Take(previous.hashIds, n)|
  {
    var a, b := Min(|current.hashIds|, n), Min(|previous.hashIds|, n);
    assert a < n ==> HashOrNone(current, a).None?;
    assert b < n ==> HashOrNone(previous, b).None?;
  }

  /** Every turn passes the check against the one before it. */
  ghost predicate AllLinks(s: Session, issue: (Record, Record) -> Option<Issue>) {
    forall i | 0 < i < |s| :: issue(s[i - 1], s[i]).None?
  }

  ghost predicate Linked(s: Session) {
    AllLinks(s, LinkIssue)
  }

  ghost predicate Growing(s: Session) {
    AllLinks(s, GrowthIssue)
  }

  /** The first turn that does not pass fails for the given reason. */
  ghost predicate FirstFails(s: Session, issue: (Record, Record) -> Option<Issue>, reason: Issue) {
    exists i :: 0 < i < |s| && issue(s[i - 1], s[i]) == Some(reason) && AllLinks(s[..i], issue)
  }

  method FirstIssue(s: Session, issue: (Record, Record) -> Option<Issue>) returns (found: Option<Issue>)
    ensures found.None? <==> AllLinks(s, issue)
    ensures found.Some? ==> FirstFails(s, issue, found.value)
  {
    found := None;
    var i := 1;
    while i < |s|
      invariant 1 <= i && found.None?
      invariant forall j | 0 < j < |s| && j < i :: issue(s[j - 1], s[j]).None?
    {
      found := issue(s[i - 1], s[i]);
      if found.Some? {
        assert AllLinks(s[..i], issue);
        return;
      }
      i := i + 1;
    }
  }

  ghost predicate StartsAtRoot(key: Key, s: Session) {
    |s| > 0 && s[0].parentId == NO_PARENT && key == Root(s[0].chatId)
  }

  /** The check of group_linear_sessions. */
  ghost predicate Accepted(g: Group) {
    StartsAtRoot(g.0, g.1) && Linked(g.1)
  }

  /** The reason is the first of the classifier's checks that the session fails. */
  ghost predicate Refuses(s: Session, reason: Issue) {
    && (reason == EmptySession <==> s == [])
    && (reason == MissingRoot <==> s != [] && s[0].parentId != NO_PARENT)
    && (reason == RootTurnIsNot1 <==> s != [] && s[0].parentId == NO_PARENT && s[0].turn != 1)
    && (s != [] && s[0].parentId == NO_PARENT && s[0].turn == 1 ==> FirstFails(s, GrowthIssue, reason))
  }

  /** The check of _linear_session_issue: the first issue found, or None. */
  method LinearSessionIssue(s: Session) returns (issue: Option<Issue>)
    ensures issue.None? <==> |s| > 0 && s[0].parentId == NO_PARENT && s[0].turn == 1 && Growing(s)
    ensures issue.Some? ==> Refuses(s, issue.value)
  {
    if s == [] {
      return Some(EmptySession);
    }
    if s[0].parentId != NO_PARENT {
      return Some(MissingRoot);
    }
    if s[0].turn != 1 {
      return Some(RootTurnIsNot1);
    }
    issue := FirstIssue(s, GrowthIssue);
  }

  lemma {:induction false} PassesBefore(s: Session, issue: (Record, Record) -> Option<Issue>, i: nat, j: nat)
    requires 0 < i < j < |s| && AllLinks(s[..j], issue)
    ensures issue(s[i - 1], s[i]).None?
  {
    assert s[..j][i - 1] == s[i - 1] && s[..j][i] == s[i];
  }

  lemma {:induction false} OneFirstFailure(s: Session, issue: (Record, Record) -> Option<Issue>, a: Issue, b: Issue)
    requires FirstFails(s, issue, a) && FirstFails(s, issue, b)
    ensures a == b
  {
    hide AllLinks;
    var i :| 0 < i < |s| && issue(s[i - 1], s[i]) == Some(a) && AllLinks(s[..i], issue);
    var j :| 0 < j < |s| && issue(s[j - 1], s[j]) == Some(b) && AllLinks(s[..j], issue);
    if i < j {
      PassesBefore(s, issue, i, j);
    } else if j < i {
      PassesBefore(s, issue, j, i);
    }
  }

  /** A session is refused for one reason only. */
  lemma {:induction false} OneReason(s: Session, a: Issue, b: Issue)
    requires Refuses(s, a) && Refuses(s, b)
    ensures a == b
  {
    hide FirstFails;
    if s != [] && s[0].parentId == NO_PARENT && s[0].turn == 1 {
      OneFirstFailure(s, GrowthIssue, a, b);
    }
  }

  /** A session that starts at a root and is properly linked can only be refused for its root turn or its growth. */
  lemma {:induction false} LinkedRefusals(s: Session, reason: Issue)
    requires Refuses(s, reason) && Linked(s) && s != [] && s[0].parentId == NO_PARENT
    ensures reason in {RootTurnIsNot1, InputLengthShrank, CompleteBlockPrefixChanged}
  {
    if s[0].turn == 1 {
      var i :| 0 < i < |s| && GrowthIssue(s[i - 1], s[i]) == Some(reason);
      assert LinkIssue(s[i - 1], s[i]).None?;
    }
  }

  // ------------------------------------------------------------- indexing

  /** The first record of each chat id. */
  function IndexOf(records: seq<Record>): Index {
    if records == [] then map[]
    else
      var index, r := IndexOf(records[..|records| - 1]), records[|records| - 1];
      if r.chatId in index then index else index[r.chatId := r]
  }

  /** The records that the index keeps, in their order. */
  function Kept(records: seq<Record>): seq<Record> {
    if records == [] then []
    else
      var rest, r := records[..|records| - 1], records[|records| - 1];
      Kept(rest) + if r.chatId in IndexOf(rest) then [] else [r]
  }

  function Duplicates(records: seq<Record>): seq<int> {
    if records == [] then []
    else
      var rest, r := records[..|records| - 1], records[|records| - 1];
      Duplicates(rest) + if r.chatId in IndexOf(rest) then [r.chatId] else []
  }

  lemma {:induction false} IndexHolds(records: seq<Record>)
    ensures forall id :: id in IndexOf(records) <==> exists i :: 0 <= i < |records| && records[i].chatId == id
    ensures forall id | id in IndexOf(records) :: IndexOf(records)[id].chatId == id
    ensures forall r :: r in Kept(records) <==> r.chatId in IndexOf(records) && IndexOf(records)[r.chatId] == r
  {
    if records != [] {
      var rest, r := records[..|records| - 1], records[|records| - 1];
      IndexHolds(rest);
      assert forall i | 0 <= i < |rest| :: rest[i] == records[i];
      assert records[|records| - 1] == r;
    }
  }

  lemma {:induction false} NoDuplicatesKeepsAll(records: seq<Record>)
    requires Duplicates(records) == []
    ensures Kept(records) == records
  {
    if records != [] {
      NoDuplicatesKeepsAll(records[..|records| - 1]);
      assert records == records[..|records| - 1] + [records[|records| - 1]];
    }
  }

  // ------------------------------------------------------------- grouping

  function SortGroups(groups: seq<Group>): (sorted: seq<Group>)
    ensures |sorted| == |groups|
    ensures forall i | 0 <= i < |groups| :: sorted[i] == (groups[i].0, Sort(RecordLe, groups[i].1))
  {
    seq(|groups|, i requires 0 <= i < |groups| => (groups[i].0, Sort(RecordLe, groups[i].1)))
  }

  /** The sessions of the trace, each in order of turn, by first appearance of their keys. */
  ghost function SessionsOf(records: seq<Record>): seq<Group> {
    SortGroups(GroupBy(IndexOf(records), Kept(records)))
  }

  /** What group_linear_sessions asks of a whole trace. */
  ghost predicate Groupable(records: seq<Record>) {
    && Duplicates(records) == []
    && (forall r | r in records :: RootOf(IndexOf(records), r.chatId).Ok?)
    && (forall i | 0 <= i < |SessionsOf(records)| :: Accepted(SessionsOf(records)[i]))
  }

  method BuildIndex(records: seq<Record>) returns (byId: Index, kept: seq<Record>, duplicates: seq<int>)
    ensures byId == IndexOf(records) && kept == Kept(records) && duplicates == Duplicates(records)
  {
    byId, kept, duplicates := map[], [], [];
    for k := 0 to |records|
      invariant byId == IndexOf(records[..k])
      invariant kept == Kept(records[..k]) && duplicates == Duplicates(records[..k])
    {
      var r := records[k];
      assert records[..k + 1][..k] == records[..k];
      if r.chatId in byId {
        duplicates := duplicates + [r.chatId];
      } else {
        byId := byId[r.chatId := r];
        kept := kept + [r];
      }
    }
    assert records[..|records|] == records;
  }

  lemma {:induction false} EmptyGroupBy(byId: Index, records: seq<Record>)
    requires records == []
    ensures GroupBy(byId, records) == []
  {
  }

  lemma {:induction false} GroupBySnoc(byId: Index, records: seq<Record>, k: nat)
    requires k < |records|
    ensures GroupBy(byId, records[..k + 1])
         == AddTo(GroupBy(byId, records[..k]), KeyOf(byId, records[k]), records[k])
  {
    assert records[..k + 1][..k] == records[..k];
  }

  /** The first record whose walk finds no root has that issue. */
  ghost predicate FirstWalkFails(byId: Index, records: seq<Record>, issue: WalkIssue) {
    exists k :: 0 <= k < |records| && RootOf(byId, records[k].chatId) == Err(issue)
      && forall j | 0 <= j < k :: RootOf(byId, records[j].chatId).Ok?
  }

  lemma {:induction false} GroupsHaveRecords(byId: Index, records: seq<Record>)
    ensures forall i | 0 <= i < |GroupBy(byId, records)| :: GroupBy(byId, records)[i].1 != []
  {
    GroupByPartitions(byId, records);
  }

  /** The first loop of group_linear_sessions: every record goes to the group of its root. */
  method GroupByRoot(byId: Index, records: seq<Record>) returns (r: Result<seq<Group>, Issue>)
    ensures r.Ok? <==> forall x | x in records :: RootOf(byId, x.chatId).Ok?
    ensures r.Ok? ==> r.value == GroupBy(byId, records)
    ensures r.Err? ==> FirstWalkFails(byId, records, if r.error.CycleDetected? then Cycle else MissingParent)
    ensures r.Err? ==> r.error in {CycleDetected, ParentMissing}
  {
    hide GroupBy, RootOf;
    var finder := new RootFinder(byId);
    var groups: seq<Group> := [];
    EmptyGroupBy(byId, records[..0]);
    for k := 0 to |records|
      invariant finder.Valid() && fresh(finder)
      invariant groups == GroupBy(byId, records[..k])
      invariant forall j | 0 <= j < k :: RootOf(byId, records[j].chatId).Ok?
    {
      var root := finder.FindRoot(records[k].chatId);
      if root.Err? {
        assert records[k] in records;
        return Err(if root.error.Cycle? then CycleDetected else ParentMissing);
      }
      GroupBySnoc(byId, records, k);
      groups := AddTo(groups, Root(root.value), records[k]);
      assert records[..k + 1] == records[..k] + [records[k]];
    }
    assert records[..|records|] == records;
    r := Ok(groups);
  }

  /** The first check of group_linear_sessions that the session fails is the one reported. */
  ghost predicate Rejects(g: Group, error: Issue) {
    if StartsAtRoot(g.0, g.1) then FirstFails(g.1, LinkIssue, error) else error == DoesNotStartWithRoot
  }

  ghost predicate FirstRejected(sessions: seq<Group>, error: Issue) {
    exists k :: 0 <= k < |sessions| && Rejects(sessions[k], error) && forall i | 0 <= i < k :: Accepted(sessions[i])
  }

  /** The check of one sorted session, and the error it makes. */
  method CheckSession(key: Key, session: Session) returns (error: Option<Issue>)
    requires session != []
    ensures error.None? <==> Accepted((key, session))
    ensures error.Some? ==> Rejects((key, session), error.value)
    ensures error.Some? ==>
      error.value in {DoesNotStartWithRoot, BranchesOrSkipsParent, NonConsecutiveTurns, TimestampsMoveBackwards}
  {
    if key != Root(session[0].chatId) || session[0].parentId != NO_PARENT {
      return Some(DoesNotStartWithRoot);
    }
    error := FirstIssue(session, LinkIssue);
  }

  /** The second loop: sort every group and check it. */
  method CheckSessions(groups: seq<Group>) returns (r: Result<seq<Group>, Issue>)
    requires forall i | 0 <= i < |groups| :: groups[i].1 != []
    ensures r.Ok? <==> forall i | 0 <= i < |groups| :: Accepted(SortGroups(groups)[i])
    ensures r.Ok? ==> r.value == SortGroups(groups)
    ensures r.Err? ==> FirstRejected(SortGroups(groups), r.error)
    ensures r.Err? ==>
      r.error in {DoesNotStartWithRoot, BranchesOrSkipsParent, NonConsecutiveTurns, TimestampsMoveBackwards}
  {
    hide Accepted, Rejects, Sort;
    ghost var sessions := SortGroups(groups);
    var result: seq<Group> := [];
    for k := 0 to |groups|
      invariant result == sessions[..k]
      invariant forall i | 0 <= i < k :: Accepted(sessions[i])
    {
      var session := Sort(RecordLe, groups[k].1);
      SortPermutes(RecordLe, groups[k].1);
      assert sessions[k] == (groups[k].0, session);
      var error := CheckSession(groups[k].0, session);
      if error.Some? {
        return Err(error.value);
      }
      result := result + [(groups[k].0, session)];
    }
    r := Ok(result);
  }

  method GroupLinearSessions(records: seq<Record>) returns (r: Result<seq<Group>, Issue>)
    ensures r.Ok? <==> Groupable(records)
    ensures r.Ok? ==> r.value == SessionsOf(records)
    ensures r == Err(DuplicateChatId) <==> Duplicates(records) != []
    ensures r == Err(CycleDetected) ==> FirstWalkFails(IndexOf(records), records, Cycle)
    ensures r == Err(ParentMissing) ==> FirstWalkFails(IndexOf(records), records, MissingParent)
    ensures r.Err? && r.error !in {DuplicateChatId, CycleDetected, ParentMissing} ==>
      FirstRejected(SessionsOf(records), r.error)
  {
    hide GroupBy, RootOf, Accepted, IndexOf, Kept, Duplicates, FirstWalkFails, IsPartition, FirstRejected;
    // The program stops at the first duplicate instead of collecting them.
    var byId, kept, duplicates := BuildIndex(records);
    if duplicates != [] {
      return Err(DuplicateChatId);
    }
    NoDuplicatesKeepsAll(records);
    var groups := GroupByRoot(byId, records);
    if groups.Err? {
      return Err(groups.error);
    }
    GroupsHaveRecords(byId, records);
    r := CheckSessions(groups.value);
    assert SessionsOf(records) == SortGroups(groups.value);
    assert Groupable(records) <==> forall i | 0 <= i < |SessionsOf(records)| :: Accepted(SessionsOf(records)[i]);
  }

  // ----------------------------------------------------------- classifying

  datatype Incomplete = Incomplete(rootChatId: int, session: Session, reason: Issue)

  datatype Classified = Classified(complete: seq<Group>, incomplete: seq<Incomplete>, duplicates: seq<int>)

  /** A session the classifier lets through. */
  ghost predicate IsComplete(g: Group) {
    && g.0.Root? && |g.1| > 0
    && g.1[0].parentId == NO_PARENT && g.1[0].turn == 1 && Growing(g.1)
  }

  ghost function Completeness(): Group -> bool {
    (g: Group) => IsComplete(g)
  }

  ghost function Incompleteness(): Group -> bool {
    (g: Group) => !IsComplete(g)
  }

  /** The report on a session that is set aside: whose it is, and the first check that it fails. */
  ghost predicate Reports(report: Incomplete, g: Group) {
    && report.session == g.1
    && match g.0
       case Fragment(_) =>
         report.reason == MissingParentOrCycle && (g.1 != [] ==> report.rootChatId == g.1[0].chatId)
       case Root(id) =>
         report.rootChatId == id && Refuses(g.1, report.reason)
  }

  /** The complete sessions, and one report for each of the others, both in the order of the sessions. */
  ghost predicate Splits(sessions: seq<Group>, complete: seq<Group>, incomplete: seq<Incomplete>) {
    var refused := Filter(Incompleteness(), sessions);
    && complete == Filter(Completeness(), sessions)
    && |incomplete| == |refused|
    && forall i | 0 <= i < |refused| :: Reports(incomplete[i], refused[i])
  }

  method ClassifyLinearSessions(records: seq<Record>) returns (c: Classified)
    ensures c.duplicates == Duplicates(records)
    ensures Splits(SessionsOf(records), c.complete, c.incomplete)
  {
    hide GroupBy, RootOf;
    var byId, kept, duplicates := BuildIndex(records);
    var groups: seq<Group> := [];
    EmptyGroupBy(byId, kept[..0]);
    for k := 0 to |kept|
      invariant groups == GroupBy(byId, kept[..k])
    {
      var root := ResolveRoot(kept[k].chatId, byId);
      GroupBySnoc(byId, kept, k);
      groups := AddTo(groups, if root.Ok? then Root(root.value) else Fragment(kept[k].chatId), kept[k]);
    }
    assert kept[..|kept|] == kept;
    GroupsHaveRecords(byId, kept);
    var complete, incomplete := SplitSessions(groups);
    c := Classified(complete, incomplete, duplicates);
  }

  /** What becomes of one session: nothing to report, or a report. */
  method Assess(key: Key, session: Session) returns (report: Option<Incomplete>)
    requires session != []
    ensures report.None? <==> IsComplete((key, session))
    ensures report.Some? ==> Reports(report.value, (key, session))
  {
    if key.Fragment? {
      return Some(Incomplete(session[0].chatId, session, MissingParentOrCycle));
    }
    var issue := LinearSessionIssue(session);
    if issue.None? {
      return None;
    }
    report := Some(Incomplete(key.id, session, issue.value));
  }

  method SplitSessions(groups: seq<Group>) returns (complete: seq<Group>, incomplete: seq<Incomplete>)
    requires forall i | 0 <= i < |groups| :: groups[i].1 != []
    ensures Splits(SortGroups(groups), complete, incomplete)
  {
    hide IsComplete, Reports, Splits;
    ghost var sessions := SortGroups(groups);
    complete, incomplete := [], [];
    NothingToSplit(sessions);
    for k := 0 to |groups|
      invariant Splits(sessions[..k], complete, incomplete)
    {
      var key, session := groups[k].0, Sort(RecordLe, groups[k].1);
      SortPermutes(RecordLe, groups[k].1);
      assert sessions[k] == (key, session);
      var report := Assess(key, session);
      if report.Some? {
        SplitsMore(sessions, k, complete, incomplete, report.value);
        incomplete := incomplete + [report.value];
      } else {
        SplitsComplete(sessions, k, complete, incomplete);
        complete := complete + [(key, session)];
      }
    }
    assert sessions[..|groups|] == sessions;
  }

  lemma {:induction false} NothingToSplit(sessions: seq<Group>)
    ensures Splits(sessions[..0], [], [])
  {
  }

  lemma {:induction false} SplitSnoc(sessions: seq<Group>, k: nat)
    requires k < |sessions|
    ensures Filter(Completeness(), sessions[..k + 1])
         == Filter(Completeness(), sessions[..k]) + if IsComplete(sessions[k]) then [sessions[k]] else []
    ensures Filter(Incompleteness(), sessions[..k + 1])
         == Filter(Incompleteness(), sessions[..k]) + if IsComplete(sessions[k]) then [] else [sessions[k]]
  {
    hide IsComplete;
    assert sessions[..k + 1] == sessions[..k] + [sessions[k]];
    FilterConcat(Completeness(), sessions[..k], [sessions[k]]);
    FilterConcat(Incompleteness(), sessions[..k], [sessions[k]]);
    assert Filter(Completeness(), [sessions[k]]) == if IsComplete(sessions[k]) then [sessions[k]] else [];
    assert Filter(Incompleteness(), [sessions[k]]) == if IsComplete(sessions[k]) then [] else [sessions[k]];
  }

  lemma {:induction false} SplitsMore(
      sessions: seq<Group>, k: nat, complete: seq<Group>, incomplete: seq<Incomplete>, report: Incomplete)
    requires k < |sessions| && Splits(sessions[..k], complete, incomplete)
    requires !IsComplete(sessions[k]) && Reports(report, sessions[k])
    ensures Splits(sessions[..k + 1], complete, incomplete + [report])
  {
    hide IsComplete, Reports;
    SplitSnoc(sessions, k);
  }

  lemma {:induction false} SplitsComplete(
      sessions: seq<Group>, k: nat, complete: seq<Group>, incomplete: seq<Incomplete>)
    requires k < |sessions| && Splits(sessions[..k], complete, incomplete) && IsComplete(sessions[k])
    ensures Splits(sessions[..k + 1], complete + [sessions[k]], incomplete)
  {
    hide IsComplete, Reports;
    SplitSnoc(sessions, k);
  }

  // ------------------------------------------------------- how they compare

  lemma {:induction false} EmptyFilter<T>(p: T -> bool, xs: seq<T>)
    requires Filter(p, xs) == []
    ensures forall x | x in xs :: !p(x)
  {
    if xs != [] {
      EmptyFilter(p, xs[1..]);
    }
  }

  /** A group that begins with a root belongs to that root. */
  lemma {:induction false} RootHeadsItsGroup(records: seq<Record>, i: nat)
    requires Duplicates(records) == [] && i < |SessionsOf(records)|
    requires SessionsOf(records)[i].1 != [] && SessionsOf(records)[i].1[0].parentId == NO_PARENT
    ensures StartsAtRoot(SessionsOf(records)[i].0, SessionsOf(records)[i].1)
  {
    var byId, groups := IndexOf(records), GroupBy(IndexOf(records), Kept(records));
    var first := SessionsOf(records)[i].1[0];
    GroupByPartitions(byId, Kept(records));
    SortPermutes(RecordLe, groups[i].1);
    assert first in SessionsOf(records)[i].1;
    assert first in groups[i].1;
    IndexHolds(records);
    assert Chase(byId, first.chatId, 0) == At(first.chatId);
    WalkEndsAtRoot(byId, first.chatId, 1);
  }

  lemma {:induction false} GroupMembers(records: seq<Record>, i: nat)
    requires i < |SessionsOf(records)|
    ensures var g := SessionsOf(records)[i];
      g.1 != [] && forall r | r in g.1 :: r in records && KeyOf(IndexOf(records), r) == g.0
  {
    hide KeyOf, IndexOf, GroupBy;
    var byId, groups := IndexOf(records), GroupBy(IndexOf(records), Kept(records));
    GroupByPartitions(byId, Kept(records));
    SortPermutes(RecordLe, groups[i].1);
    forall r | r in SessionsOf(records)[i].1
      ensures r in records
    {
      KeptIsFromRecords(records, r);
    }
  }

  /** Every session of the trace has a record, and each of its records has its key. */
  lemma {:induction false} SessionsAreGroups(records: seq<Record>)
    ensures forall g | g in SessionsOf(records) ::
      g.1 != [] && forall r | r in g.1 :: r in records && KeyOf(IndexOf(records), r) == g.0
    ensures forall r | r in Kept(records) :: HasKey(SessionsOf(records), KeyOf(IndexOf(records), r))
  {
    hide KeyOf, IndexOf, GroupBy, Kept, Sort;
    var byId, groups, sessions := IndexOf(records), GroupBy(IndexOf(records), Kept(records)), SessionsOf(records);
    forall g | g in sessions
      ensures g.1 != [] && forall r | r in g.1 :: r in records && KeyOf(byId, r) == g.0
    {
      var i :| 0 <= i < |sessions| && sessions[i] == g;
      GroupMembers(records, i);
    }
    GroupByPartitions(byId, Kept(records));
    forall r | r in Kept(records)
      ensures HasKey(sessions, KeyOf(byId, r))
    {
      var i :| 0 <= i < |groups| && groups[i].0 == KeyOf(byId, r);
      assert sessions[i].0 == KeyOf(byId, r);
    }
  }

  /** Every record of a trace without duplicates is a turn of one of its sessions. */
  lemma {:induction false} RecordHasItsTurn(records: seq<Record>, r: Record) returns (i: nat, k: nat)
    requires Duplicates(records) == [] && r in records
    ensures i < |SessionsOf(records)| && k < |SessionsOf(records)[i].1| && SessionsOf(records)[i].1[k] == r
  {
    hide KeyOf, IsPartition, GroupBy;
    var byId, groups := IndexOf(records), GroupBy(IndexOf(records), records);
    NoDuplicatesKeepsAll(records);
    GroupByPartitions(byId, records);
    i := GroupOfRecord(groups, byId, records, r);
    SortPermutes(RecordLe, groups[i].1);
    k :| 0 <= k < |SessionsOf(records)[i].1| && SessionsOf(records)[i].1[k] == r;
  }

  lemma {:induction false} GroupOfRecord(
      groups: seq<Group>, byId: Index, records: seq<Record>, r: Record) returns (i: nat)
    requires IsPartition(groups, byId, records) && r in records
    ensures i < |groups| && groups[i].0 == KeyOf(byId, r) && r in groups[i].1
  {
    hide KeyOf;
    i :| 0 <= i < |groups| && groups[i].0 == KeyOf(byId, r);
    FilterKeeps(Keyed(byId, groups[i].0), records, r);
  }

  lemma {:induction false} KeptIsFromRecords(records: seq<Record>, r: Record)
    requires r in Kept(records)
    ensures r in records
  {
    var rest := records[..|records| - 1];
    if r in Kept(rest) {
      KeptIsFromRecords(rest, r);
    }
  }

  /** A trace the classifier has nothing against is grouped, into the same sessions. */
  lemma {:induction false} CleanTraceIsGroupable(records: seq<Record>, c: Classified)
    requires c.duplicates == Duplicates(records) && Splits(SessionsOf(records), c.complete, c.incomplete)
    requires c.duplicates == [] && c.incomplete == []
    ensures Groupable(records) && c.complete == SessionsOf(records)
  {
    var sessions := SessionsOf(records);
    EmptyFilter(Incompleteness(), sessions);
    FilterAll(Completeness(), sessions);
    SessionsAreGroups(records);
    NoDuplicatesKeepsAll(records);
    forall i | 0 <= i < |sessions|
      ensures Accepted(sessions[i])
    {
      assert sessions[i] in sessions && Completeness()(sessions[i]);
      RootHeadsItsGroup(records, i);
      assert forall j | 0 < j < |sessions[i].1| :: GrowthIssue(sessions[i].1[j - 1], sessions[i].1[j]).None?;
    }
    forall r | r in records
      ensures RootOf(IndexOf(records), r.chatId).Ok?
    {
      var i :| 0 <= i < |sessions| && sessions[i].0 == KeyOf(IndexOf(records), r);
      assert sessions[i] in sessions && Completeness()(sessions[i]);
    }
  }

  /** Of a trace that is grouped, the classifier can refuse only sessions whose root turn or growth is wrong. */
  lemma {:induction false} GroupableTraceClassified(records: seq<Record>, c: Classified)
    requires c.duplicates == Duplicates(records) && Splits(SessionsOf(records), c.complete, c.incomplete)
    requires Groupable(records)
    ensures c.duplicates == []
    ensures forall g | g in c.complete :: g in SessionsOf(records)
    ensures forall report | report in c.incomplete ::
      report.reason in {RootTurnIsNot1, InputLengthShrank, CompleteBlockPrefixChanged}
  {
    var sessions := SessionsOf(records);
    forall report | report in c.incomplete
      ensures report.reason in {RootTurnIsNot1, InputLengthShrank, CompleteBlockPrefixChanged}
    {
      var refused := Filter(Incompleteness(), sessions);
      var j :| 0 <= j < |refused| && c.incomplete[j] == report;
      assert Reports(report, refused[j]) && refused[j] in refused;
      var i :| 0 <= i < |sessions| && sessions[i] == refused[j];
      assert Accepted(sessions[i]);
      LinkedRefusals(sessions[i].1, report.reason);
    }
  }

  /** Sessions that either program lets through never go back in time, as the occupancy sweep relies on. */
  lemma {:induction false} LinkedSessionsAreChronological(s: Session)
    ensures Linked(s) ==> Chronological(s)
    ensures Growing(s) ==> Linked(s)
  {
    if Linked(s) {
      forall i | 0 <= i < |s| - 1
        ensures s[i].timestamp <= s[i + 1].timestamp
      {
        assert LinkIssue(s[i + 1 - 1], s[i + 1]).None?;
      }
    }
    if Growing(s) {
      forall i | 0 < i < |s|
        ensures LinkIssue(s[i - 1], s[i]).None?
      {
        assert GrowthIssue(s[i - 1], s[i]).None?;
      }
    }
  }
}
