/** Sums, filters and the stable sort that several of the modelled programs share. */
module Sequences {

  datatype Option<+T> = None | Some(value: T) {
    function GetOr(default: T): T {
      if Some? then value else default
    }
  }

  datatype Result<+T, +E> = Ok(value: T) | Err(error: E)

  function Max(a: int, b: int): int {
    if a < b then b else a
  }

  function Min(a: int, b: int): int {
    if a < b then a else b
  }

  /** Least integer not below x: Python's math.ceil. */
  function Ceil(x: real): (c: int)
    ensures c as real - 1.0 < x <= c as real
  {
    -((-x).Floor)
  }

  // ---------------------------------------------------------------- sums

  function Sum<T>(f: T -> int, xs: seq<T>): int {
    if xs == [] then 0 else f(xs[0]) + Sum(f, xs[1..])
  }

  lemma {:induction false} SumConcat<T>(f: T -> int, xs: seq<T>, ys: seq<T>)
    ensures Sum(f, xs + ys) == Sum(f, xs) + Sum(f, ys)
  {
    if xs == [] {
      assert xs + ys == ys;
    } else {
      assert (xs + ys)[1..] == xs[1..] + ys;
      SumConcat(f, xs[1..], ys);
    }
  }

  lemma {:induction false} SumSnoc<T>(f: T -> int, xs: seq<T>, k: nat)
    requires k < |xs|
    ensures Sum(f, xs[..k + 1]) == Sum(f, xs[..k]) + f(xs[k])
  {
    assert xs[..k + 1] == xs[..k] + [xs[k]];
    SumConcat(f, xs[..k], [xs[k]]);
  }

  lemma {:induction false} SumAgrees<T>(f: T -> int, g: T -> int, xs: seq<T>)
    requires forall x | x in xs :: f(x) == g(x)
    ensures Sum(f, xs) == Sum(g, xs)
  {
    if xs != [] {
      assert xs[0] in xs;
      SumAgrees(f, g, xs[1..]);
    }
  }

  lemma {:induction false} SumVanishes<T>(f: T -> int, xs: seq<T>)
    requires forall x | x in xs :: f(x) == 0
    ensures Sum(f, xs) == 0
  {
    if xs != [] {
      assert xs[0] in xs;
      SumVanishes(f, xs[1..]);
    }
  }

  // -------------------------------------------------------------- filter

  function Filter<T>(p: T -> bool, xs: seq<T>): (ys: seq<T>)
    ensures forall y | y in ys :: y in xs && p(y)
  {
    if xs == [] then []
    else (if p(xs[0]) then [xs[0]] else []) + Filter(p, xs[1..])
  }

  lemma {:induction false} FilterConcat<T>(p: T -> bool, xs: seq<T>, ys: seq<T>)
    ensures Filter(p, xs + ys) == Filter(p, xs) + Filter(p, ys)
  {
    if xs == [] {
      assert xs + ys == ys;
    } else {
      assert (xs + ys)[1..] == xs[1..] + ys;
      FilterConcat(p, xs[1..], ys);
    }
  }

  lemma {:induction false} FilterKeeps<T>(p: T -> bool, xs: seq<T>, x: T)
    requires x in xs && p(x)
    ensures x in Filter(p, xs)
  {
    if xs[0] != x {
      FilterKeeps(p, xs[1..], x);
    }
  }

  lemma {:induction false} FilterAll<T>(p: T -> bool, xs: seq<T>)
    requires forall x | x in xs :: p(x)
    ensures Filter(p, xs) == xs
  {
    if xs != [] {
      assert xs[0] in xs;
      FilterAll(p, xs[1..]);
    }
  }

  lemma {:induction false} FilterNone<T>(p: T -> bool, xs: seq<T>)
    requires forall x | x in xs :: !p(x)
    ensures Filter(p, xs) == []
  {
    if xs != [] {
      assert xs[0] in xs;
      FilterNone(p, xs[1..]);
    }
  }

  // ---------------------------------------------------------------- sort

  ghost predicate TotalPreorder<T(!new)>(le: (T, T) -> bool) {
    && (forall x, y :: le(x, y) || le(y, x))
    && (forall x, y, z :: le(x, y) && le(y, z) ==> le(x, z))
  }

  ghost predicate Sorted<T>(le: (T, T) -> bool, xs: seq<T>) {
    forall i, j | 0 <= i < j < |xs| :: le(xs[i], xs[j])
  }

  function Insert<T>(le: (T, T) -> bool, x: T, ys: seq<T>): seq<T> {
    if ys == [] then [x]
    else if le(x, ys[0]) then [x] + ys
    else [ys[0]] + Insert(le, x, ys[1..])
  }

  /** What Python's sorted(xs, key=...) returns: the stable sort under the key order. */
  function Sort<T>(le: (T, T) -> bool, xs: seq<T>): seq<T> {
    if xs == [] then [] else Insert(le, xs[0], Sort(le, xs[1..]))
  }

  lemma {:induction false} InsertPermutes<T>(le: (T, T) -> bool, x: T, ys: seq<T>)
    ensures multiset(Insert(le, x, ys)) == multiset{x} + multiset(ys)
  {
    if ys != [] && !le(x, ys[0]) {
      InsertPermutes(le, x, ys[1..]);
      assert ys == [ys[0]] + ys[1..];
    }
  }

  lemma {:induction false} SortPermutes<T>(le: (T, T) -> bool, xs: seq<T>)
    ensures multiset(Sort(le, xs)) == multiset(xs)
    ensures |Sort(le, xs)| == |xs|
    ensures forall x :: x in Sort(le, xs) <==> x in xs
  {
    if xs != [] {
      SortPermutes(le, xs[1..]);
      InsertPermutes(le, xs[0], Sort(le, xs[1..]));
      assert xs == [xs[0]] + xs[1..];
    }
    SameElements(Sort(le, xs), xs);
  }

  lemma {:induction false} SameElements<T>(xs: seq<T>, ys: seq<T>)
    requires multiset(xs) == multiset(ys)
    ensures |xs| == |ys| && forall x :: x in xs <==> x in ys
  {
    assert |multiset(xs)| == |multiset(ys)|;
    forall x
      ensures x in xs <==> x in ys
    {
      assert x in xs <==> x in multiset(xs);
    }
  }

  lemma {:induction false} InsertSorted<T(!new)>(le: (T, T) -> bool, x: T, ys: seq<T>)
    requires TotalPreorder(le) && Sorted(le, ys)
    ensures Sorted(le, Insert(le, x, ys))
  {
    if ys != [] {
      if le(x, ys[0]) {
        forall j | 0 <= j < |ys|
          ensures le(x, ys[j])
        {
          assert j == 0 || le(ys[0], ys[j]);
        }
      } else {
        var rest := Insert(le, x, ys[1..]);
        InsertSorted(le, x, ys[1..]);
        InsertPermutes(le, x, ys[1..]);
        forall j | 0 <= j < |rest|
          ensures le(ys[0], rest[j])
        {
          assert rest[j] in multiset(rest);
          assert rest[j] == x || rest[j] in ys[1..];
        }
      }
    }
  }

  lemma {:induction false} SortSorted<T(!new)>(le: (T, T) -> bool, xs: seq<T>)
    requires TotalPreorder(le)
    ensures Sorted(le, Sort(le, xs))
  {
    if xs != [] {
      SortSorted(le, xs[1..]);
      InsertSorted(le, xs[0], Sort(le, xs[1..]));
    }
  }

  lemma {:induction false} SortFixed<T>(le: (T, T) -> bool, xs: seq<T>)
    requires Sorted(le, xs)
    ensures Sort(le, xs) == xs
  {
    if xs != [] {
      SortFixed(le, xs[1..]);
      assert |xs| > 1 ==> le(xs[0], xs[1]);
    }
  }

  lemma {:induction false} FilterInsert<T>(le: (T, T) -> bool, p: T -> bool, x: T, ys: seq<T>)
    requires forall i | 0 <= i < |ys| && le(x, ys[i]) :: forall j | i <= j < |ys| :: le(x, ys[j])
    ensures Filter(p, Insert(le, x, ys))
         == if p(x) then Insert(le, x, Filter(p, ys)) else Filter(p, ys)
  {
    if ys == [] {
    } else if le(x, ys[0]) {
      assert ([x] + ys)[1..] == ys;
      assert Filter(p, ys) != [] ==> Filter(p, ys)[0] in ys;
    } else {
      var y, rest := ys[0], ys[1..];
      FilterInsert(le, p, x, rest);
      assert Insert(le, x, ys) == [y] + Insert(le, x, rest);
      assert ([y] + Insert(le, x, rest))[1..] == Insert(le, x, rest);
      if p(y) {
        assert Filter(p, ys) == [y] + Filter(p, rest);
        assert ([y] + Filter(p, rest))[1..] == Filter(p, rest);
      } else {
        assert Filter(p, ys) == Filter(p, rest);
      }
    }
  }

  /** Stability: sorting commutes with keeping only some of the elements. */
  lemma {:induction false} FilterSort<T(!new)>(le: (T, T) -> bool, p: T -> bool, xs: seq<T>)
    requires TotalPreorder(le)
    ensures Filter(p, Sort(le, xs)) == Sort(le, Filter(p, xs))
  {
    if xs != [] {
      var x, rest := xs[0], xs[1..];
      var ys := Sort(le, rest);
      FilterSort(le, p, rest);
      assert forall i | 0 <= i < |ys| && le(x, ys[i]) :: forall j | i <= j < |ys| :: le(x, ys[j]) by {
        SortSorted(le, rest);
      }
      FilterInsert(le, p, x, ys);
      if p(x) {
        assert Filter(p, xs) == [x] + Filter(p, rest);
        assert ([x] + Filter(p, rest))[1..] == Filter(p, rest);
      } else {
        assert Filter(p, xs) == Filter(p, rest);
      }
    }
  }

  lemma {:induction false} SumInsert<T>(f: T -> int, le: (T, T) -> bool, x: T, ys: seq<T>)
    ensures Sum(f, Insert(le, x, ys)) == f(x) + Sum(f, ys)
  {
    if ys != [] {
      if le(x, ys[0]) {
        assert ([x] + ys)[1..] == ys;
      } else {
        SumInsert(f, le, x, ys[1..]);
        assert ([ys[0]] + Insert(le, x, ys[1..]))[1..] == Insert(le, x, ys[1..]);
      }
    }
  }

  lemma {:induction false} SumSort<T>(f: T -> int, le: (T, T) -> bool, xs: seq<T>)
    ensures Sum(f, Sort(le, xs)) == Sum(f, xs)
  {
    if xs != [] {
      SumSort(f, le, xs[1..]);
      SumInsert(f, le, xs[0], Sort(le, xs[1..]));
    }
  }
}
