/** Sorting by a given order. */
module Sorting {

  ghost predicate IsOrder<T(!new)>(leq: (T, T) -> bool) {
    && (forall a, b :: leq(a, b) || leq(b, a))
    && (forall a, b, c :: leq(a, b) && leq(b, c) ==> leq(a, c))
  }

  predicate Sorted<T>(s: seq<T>, leq: (T, T) -> bool) {
    forall i, j | 0 <= i < j < |s| :: leq(s[i], s[j])
  }

  function Insert<T>(x: T, s: seq<T>, leq: (T, T) -> bool): seq<T> {
    if s == [] || leq(x, s[0]) then [x] + s else [s[0]] + Insert(x, s[1..], leq)
  }

  function Sort<T>(s: seq<T>, leq: (T, T) -> bool): seq<T> {
    if s == [] then [] else Insert(s[0], Sort(s[1..], leq), leq)
  }

  lemma SortedCons<T(!new)>(x: T, s: seq<T>, leq: (T, T) -> bool)
    requires Sorted(s, leq) && forall y | y in s :: leq(x, y)
    ensures Sorted([x] + s, leq)
  {
  }

  lemma BelowAll<T(!new)>(x: T, s: seq<T>, leq: (T, T) -> bool)
    requires IsOrder(leq) && Sorted(s, leq) && (s != [] ==> leq(x, s[0]))
    ensures forall y | y in s :: leq(x, y)
  {
    forall j | 0 <= j < |s|
      ensures leq(x, s[j])
    {
      assert j > 0 ==> leq(s[0], s[j]);
    }
  }

  lemma {:induction false} InsertAdds<T>(x: T, s: seq<T>, leq: (T, T) -> bool)
    ensures multiset(Insert(x, s, leq)) == multiset(s) + multiset{x}
  {
    if s != [] && !leq(x, s[0]) {
      InsertAdds(x, s[1..], leq);
      assert s == [s[0]] + s[1..];
    }
  }

  lemma {:induction false} InsertSorts<T(!new)>(x: T, s: seq<T>, leq: (T, T) -> bool)
    requires IsOrder(leq) && Sorted(s, leq)
    ensures Sorted(Insert(x, s, leq), leq)
  {
    if s == [] || leq(x, s[0]) {
      BelowAll(x, s, leq);
      SortedCons(x, s, leq);
    } else {
      var tail := Insert(x, s[1..], leq);
      InsertSorts(x, s[1..], leq);
      InsertAdds(x, s[1..], leq);
      forall y | y in tail
        ensures leq(s[0], y)
      {
        assert y in multiset(tail);
        if y != x {
          var j :| 0 <= j < |s[1..]| && s[1..][j] == y;
          assert leq(s[0], s[j + 1]);
        }
      }
      SortedCons(s[0], tail, leq);
    }
  }

  lemma {:induction false} SortSorts<T(!new)>(s: seq<T>, leq: (T, T) -> bool)
    requires IsOrder(leq)
    ensures Sorted(Sort(s, leq), leq) && multiset(Sort(s, leq)) == multiset(s)
  {
    if s != [] {
      SortSorts(s[1..], leq);
      InsertSorts(s[0], Sort(s[1..], leq), leq);
      InsertAdds(s[0], Sort(s[1..], leq), leq);
      assert s == [s[0]] + s[1..];
    }
  }
}
