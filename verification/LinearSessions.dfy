/**
  Parent chains of the trace: the plain root walk and classifier of analyze_qwen_bailian_workload.py,
  and the memoised root search and grouping of qwen_bailian_trace.py.
 */
module LinearSessions {
  import opened Sequences
  import opened TraceRecords

  type Index = map<int, Record>

  // ---------------------------------------------------------- parent walks

  datatype WalkIssue = Cycle | MissingParent

  datatype Chased = At(id: int) | AtRoot(root: int) | Lost

  /** Where n steps from child to parent lead; a root and a missing record end the walk. */
  function Chase(byId: Index, id: int, n: nat): Chased {
    if n == 0 then At(id)
    else
      match Chase(byId, id, n - 1)
      case At(at) =>
        if at !in byId then Lost
        else if byId[at].parentId == NO_PARENT then AtRoot(byId[at].chatId)
        else At(byId[at].parentId)
      case ended => ended
  }

  /** The walk's end if it has one; a walk that has none goes round a cycle. */
  ghost function RootOf(byId: Index, id: int): Result<int, WalkIssue> {
    if n: nat :| Chase(byId, id, n).AtRoot? then Ok(Chase(byId, id, n).root)
    else if exists n: nat :: Chase(byId, id, n).Lost? then Err(MissingParent)
    else Err(Cycle)
  }

  lemma {:induction false} EndedStaysEnded(byId: Index, id: int, m: nat, n: nat)
    requires m <= n && !Chase(byId, id, m).At?
    ensures Chase(byId, id, n) == Chase(byId, id, m)
    decreases n
  {
    if m < n {
      EndedStaysEnded(byId, id, m, n - 1);
    }
  }

  lemma {:induction false} ChaseOnwards(byId: Index, id: int, m: nat, n: nat)
    requires Chase(byId, id, m).At?
    ensures Chase(byId, id, m + n) == Chase(byId, Chase(byId, id, m).id, n)
  {
    if n > 0 {
      ChaseOnwards(byId, id, m, n - 1);
    }
  }

  /** A walk that returns to where it was never ends. */
  lemma {:induction false} RevisitNeverEnds(byId: Index, id: int, i: nat, j: nat, n: nat)
    requires i < j && Chase(byId, id, i).At? && Chase(byId, id, j) == Chase(byId, id, i)
    ensures Chase(byId, id, n).At?
    decreases n
  {
    if n <= j {
      if !Chase(byId, id, n).At? {
        EndedStaysEnded(byId, id, n, j);
      }
    } else {
      RevisitNeverEnds(byId, id, i, j, n - (j - i));
      ChaseOnwards(byId, id, i, n - j);
      ChaseOnwards(byId, id, j, n - j);
    }
  }

  lemma {:induction false} WalkEndsAtRoot(byId: Index, id: int, n: nat)
    requires Chase(byId, id, n).AtRoot?
    ensures RootOf(byId, id) == Ok(Chase(byId, id, n).root)
  {
    var m: nat :| Chase(byId, id, m).AtRoot? && RootOf(byId, id) == Ok(Chase(byId, id, m).root);
    if m <= n {
      EndedStaysEnded(byId, id, m, n);
    } else {
      EndedStaysEnded(byId, id, n, m);
    }
  }

  lemma {:induction false} WalkIsLost(byId: Index, id: int, n: nat)
    requires Chase(byId, id, n).Lost?
    ensures RootOf(byId, id) == Err(MissingParent)
  {
    forall m: nat
      ensures !Chase(byId, id, m).AtRoot?
    {
      if m <= n {
        if !Chase(byId, id, m).At? {
          EndedStaysEnded(byId, id, m, n);
        }
      } else {
        EndedStaysEnded(byId, id, n, m);
      }
    }
  }

  lemma {:induction false} WalkIsCycle(byId: Index, id: int, i: nat, j: nat)
    requires i < j && Chase(byId, id, i).At? && Chase(byId, id, j) == Chase(byId, id, i)
    ensures RootOf(byId, id) == Err(Cycle)
  {
    forall n: nat
      ensures Chase(byId, id, n).At?
    {
      RevisitNeverEnds(byId, id, i, j, n);
    }
  }

  /** Every record on the way to a root has that root. */
  lemma {:induction false} RootOfVisited(byId: Index, id: int, i: nat, n: nat)
    requires i <= n && Chase(byId, id, i).At? && Chase(byId, id, n).AtRoot?
    ensures RootOf(byId, Chase(byId, id, i).id) == Ok(Chase(byId, id, n).root)
  {
    ChaseOnwards(byId, id, i, n - i);
    WalkEndsAtRoot(byId, Chase(byId, id, i).id, n - i);
  }

  /** path lists the ids visited in the first |path| steps. */
  ghost predicate IsPath(byId: Index, id: int, path: seq<int>) {
    forall i | 0 <= i < |path| :: Chase(byId, id, i) == At(path[i])
  }

  /** The analysis script's walk, with no memory between calls. */
  method ResolveRoot(chatId: int, byId: Index) returns (r: Result<int, WalkIssue>)
    ensures r == RootOf(byId, chatId)
  {
    var current := chatId;
    var seen: set<int> := {};
    ghost var path: seq<int> := [];
    while true
      invariant IsPath(byId, chatId, path) && Chase(byId, chatId, |path|) == At(current)
      invariant forall id :: id in seen <==> id in path
      invariant seen <= byId.Keys
      decreases byId.Keys - seen
    {
      if current in seen {
        ghost var i :| 0 <= i < |path| && path[i] == current;
        WalkIsCycle(byId, chatId, i, |path|);
        return Err(Cycle);
      }
      seen := seen + {current};
      if current !in byId {
        WalkIsLost(byId, chatId, |path| + 1);
        return Err(MissingParent);
      }
      var record := byId[current];
      if record.parentId == NO_PARENT {
        WalkEndsAtRoot(byId, chatId, |path| + 1);
        return Ok(record.chatId);
      }
      path := path + [current];
      current := record.parentId;
    }
  }

  /** The replay script's search: every id on a successful walk is remembered with its root. */
  class RootFinder {
    const byId: Index
    var cache: map<int, int>

    ghost predicate Valid()
      reads this
    {
      forall id | id in cache :: RootOf(byId, id) == Ok(cache[id])
    }

    constructor (byId: Index)
      ensures this.byId == byId && Valid()
    {
      this.byId := byId;
      cache := map[];
    }

    method FindRoot(chatId: int) returns (r: Result<int, WalkIssue>)
      requires Valid()
      modifies this`cache
      ensures Valid()
      ensures r == RootOf(byId, chatId)
    {
      if chatId in cache {
        return Ok(cache[chatId]);
      }
      var current := chatId;
      var path: seq<int> := [];
      var seen: set<int> := {};
      var root: int;
      while true
        invariant IsPath(byId, chatId, path) && Chase(byId, chatId, |path|) == At(current)
        invariant forall id :: id in seen <==> id in path
        invariant seen <= byId.Keys
        decreases byId.Keys - seen
      {
        if current in seen {
          ghost var i :| 0 <= i < |path| && path[i] == current;
          WalkIsCycle(byId, chatId, i, |path|);
          return Err(Cycle);
        }
        seen := seen + {current};
        path := path + [current];
        if current !in byId {
          WalkIsLost(byId, chatId, |path|);
          return Err(MissingParent);
        }
        if byId[current].parentId == NO_PARENT {
          root := byId[current].chatId;
          break;
        }
        current := byId[current].parentId;
      }
      WalkEndsAtRoot(byId, chatId, |path|);
      for k := 0 to |path|
        invariant Valid()
        invariant k > 0 ==> path[0] in cache
      {
        RootOfVisited(byId, chatId, k, |path|);
        cache := cache[path[k] := root];
      }
      r := Ok(root);
    }
  }
}
