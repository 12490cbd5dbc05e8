/**
 * Python's `list.sort` / `sorted`: a stable sort. Modelled as an insertion
 * sort over a comparison `le` ("sorts no later than").
 */
module Sorting {
  ghost predicate TotalPreorder<T(!new)>(le: (T, T) -> bool)
  {
    (forall a, b :: le(a, b) || le(b, a))
    && (forall a, b, c :: le(a, b) && le(b, c) ==> le(a, c))
  }

  ghost predicate Sorted<T>(s: seq<T>, le: (T, T) -> bool)
  {
    forall i, j :: 0 <= i < j < |s| ==> le(s[i], s[j])
  }

  /** Puts `x` in front of the first element it sorts no later than. */
  function Insert<T>(x: T, s: seq<T>, le: (T, T) -> bool): (r: seq<T>)
    ensures multiset(r) == multiset(s) + multiset{x}
  {
    if s == [] || le(x, s[0]) then [x] + s
    else
      assert s == [s[0]] + s[1..];
      [s[0]] + Insert(x, s[1..], le)
  }

  /**
   * Stable: the first element is inserted in front of every element it
   * ties with, so equal elements keep their input order.
   */
  function SortBy<T>(s: seq<T>, le: (T, T) -> bool): (r: seq<T>)
    ensures multiset(r) == multiset(s)
    ensures |r| == |s|
  {
    if s == [] then []
    else
      assert s == [s[0]] + s[1..];
      Insert(s[0], SortBy(s[1..], le), le)
  }

  lemma {:induction false} InsertSorted<T(!new)>(x: T, s: seq<T>, le: (T, T) -> bool)
    requires TotalPreorder(le) && Sorted(s, le)
    ensures Sorted(Insert(x, s, le), le)
  {
    if s == [] || le(x, s[0]) {
    } else {
      InsertSorted(x, s[1..], le);
      var rest := Insert(x, s[1..], le);
      forall j | 0 <= j < |rest| ensures le(s[0], rest[j]) {
        assert rest[j] in multiset(rest);
        assert rest[j] == x || rest[j] in s[1..];
      }
    }
  }

  lemma {:induction false} SortBySorted<T(!new)>(s: seq<T>, le: (T, T) -> bool)
    requires TotalPreorder(le)
    ensures Sorted(SortBy(s, le), le)
  {
    if s != [] {
      SortBySorted(s[1..], le);
      InsertSorted(s[0], SortBy(s[1..], le), le);
    }
  }

  /** Elements that `le` ties keep the order `le2` gives them. */
  ghost predicate KeepsTies<T>(s: seq<T>, le: (T, T) -> bool, le2: (T, T) -> bool)
  {
    forall i, j :: 0 <= i < j < |s| && le(s[i], s[j]) && le(s[j], s[i]) ==> le2(s[i], s[j])
  }

  lemma {:induction false} InsertKeepsTies<T>(x: T, t: seq<T>, le: (T, T) -> bool, le2: (T, T) -> bool)
    requires KeepsTies(t, le, le2)
    requires forall y :: y in t ==> le2(x, y)
    ensures KeepsTies(Insert(x, t, le), le, le2)
  {
    if t == [] || le(x, t[0]) {
      forall j | 0 <= j < |t| && le(x, t[j]) && le(t[j], x)
        ensures le2(x, t[j])
      {
        assert t[j] in t;
      }
      KeepsTiesPrepend(x, t, le, le2);
    } else {
      var tail := t[1..];
      KeepsTiesTail(t, le, le2);
      forall y | y in tail
        ensures le2(x, y)
      {
        assert y in t;
      }
      InsertKeepsTies(x, tail, le, le2);
      var rest := Insert(x, tail, le);
      forall j | 0 <= j < |rest| && le(t[0], rest[j]) && le(rest[j], t[0])
        ensures le2(t[0], rest[j])
      {
        assert rest[j] in multiset(rest);
        if rest[j] != x {
          assert rest[j] in multiset(tail);
          var k :| 0 <= k < |tail| && tail[k] == rest[j];
          assert t[k + 1] == rest[j];
        }
      }
      KeepsTiesPrepend(t[0], rest, le, le2);
    }
  }

  lemma KeepsTiesTail<T>(t: seq<T>, le: (T, T) -> bool, le2: (T, T) -> bool)
    requires t != [] && KeepsTies(t, le, le2)
    ensures KeepsTies(t[1..], le, le2)
  {
    var tail := t[1..];
    forall i, j | 0 <= i < j < |tail| && le(tail[i], tail[j]) && le(tail[j], tail[i])
      ensures le2(tail[i], tail[j])
    {
      assert tail[i] == t[i + 1] && tail[j] == t[j + 1];
    }
  }

  lemma KeepsTiesPrepend<T>(a: T, s: seq<T>, le: (T, T) -> bool, le2: (T, T) -> bool)
    requires KeepsTies(s, le, le2)
    requires forall j :: 0 <= j < |s| && le(a, s[j]) && le(s[j], a) ==> le2(a, s[j])
    ensures KeepsTies([a] + s, le, le2)
  {
    var r := [a] + s;
    forall i, j | 0 <= i < j < |r| && le(r[i], r[j]) && le(r[j], r[i])
      ensures le2(r[i], r[j])
    {
      if i == 0 {
        assert r[j] == s[j - 1];
      } else {
        assert r[i] == s[i - 1] && r[j] == s[j - 1];
      }
    }
  }

  /**
   * Stability: sorting by `le` an input already ordered by `le2` leaves the
   * elements `le` ties ordered by `le2`.
   */
  lemma {:induction false} SortByKeepsTies<T>(s: seq<T>, le: (T, T) -> bool, le2: (T, T) -> bool)
    requires Sorted(s, le2)
    ensures KeepsTies(SortBy(s, le), le, le2)
  {
    if s != [] {
      var tail := s[1..];
      assert Sorted(tail, le2) by {
        forall i, j | 0 <= i < j < |tail| ensures le2(tail[i], tail[j]) {
          assert tail[i] == s[i + 1] && tail[j] == s[j + 1];
        }
      }
      SortByKeepsTies(tail, le, le2);
      var sorted := SortBy(tail, le);
      forall y | y in sorted ensures le2(s[0], y) {
        assert y in multiset(sorted);
        var k :| 0 <= k < |tail| && tail[k] == y;
        assert s[k + 1] == y;
      }
      InsertKeepsTies(s[0], sorted, le, le2);
    }
  }
}
