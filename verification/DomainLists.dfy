/** Lists of domain names: joined with commas and split again, and compared whatever their order. */
module DomainLists {
  import Sorting

  function CommaIndex(s: string): (i: nat)
    ensures i <= |s| && (i < |s| ==> s[i] == ',')
    ensures ',' !in s[..i]
  {
    if s == "" || s[0] == ',' then 0
    else
      var i := CommaIndex(s[1..]);
      assert s[..i + 1] == [s[0]] + s[1..][..i];
      i + 1
  }

  /** strings.Join with a comma. */
  function Join(names: seq<string>): string {
    if names == [] then ""
    else if |names| == 1 then names[0]
    else names[0] + "," + Join(names[1..])
  }

  /** strings.Split at commas: never empty. */
  function Split(s: string): (names: seq<string>)
    ensures names != []
    decreases |s|
  {
    var i := CommaIndex(s);
    if i == |s| then [s] else [s[..i]] + Split(s[i + 1..])
  }

  predicate CommaFree(names: seq<string>) {
    forall i | 0 <= i < |names| :: ',' !in names[i]
  }

  lemma CommaIndexIs(a: string, b: string)
    requires ',' !in a
    ensures CommaIndex(a + "," + b) == |a|
  {
    var s := a + "," + b;
    var i := CommaIndex(s);
    assert s[|a|] == ',';
    assert forall k | 0 <= k < |a| :: s[k] == a[k];
    assert forall k | 0 <= k < i :: s[..i][k] == s[k];
  }

  /** Splitting takes the first name off. */
  lemma SplitFirst(a: string, b: string)
    requires ',' !in a
    ensures Split(a + "," + b) == [a] + Split(b)
  {
    var s := a + "," + b;
    CommaIndexIs(a, b);
    assert s[..|a|] == a && s[|a| + 1..] == b;
  }

  lemma JoinFirst(a: string, names: seq<string>)
    requires names != []
    ensures Join([a] + names) == a + "," + Join(names)
  {
    assert ([a] + names)[1..] == names;
  }

  lemma AroundComma(s: string, i: nat)
    requires i < |s| && s[i] == ','
    ensures s == s[..i] + "," + s[i + 1..]
  {
    assert s == s[..i] + [s[i]] + s[i + 1..];
  }

  /** Joining what was split gives the text back, always. */
  lemma {:induction false} JoinSplit(s: string)
    ensures Join(Split(s)) == s
    decreases |s|
  {
    var i := CommaIndex(s);
    if i < |s| {
      var first, rest := s[..i], s[i + 1..];
      var names := Split(rest);
      assert Split(s) == [first] + names;
      JoinSplit(rest);
      JoinFirst(first, names);
      AroundComma(s, i);
    } else {
      assert Split(s) == [s];
    }
  }

  lemma {:induction false} SplitIsCommaFree(s: string)
    ensures CommaFree(Split(s))
    decreases |s|
  {
    var i := CommaIndex(s);
    if i < |s| {
      SplitIsCommaFree(s[i + 1..]);
    } else {
      assert s[..i] == s;
    }
  }

  lemma {:induction false} SplitJoinCommaFree(names: seq<string>)
    requires names != [] && CommaFree(names)
    ensures Split(Join(names)) == names
  {
    if |names| == 1 {
      assert CommaIndex(names[0]) == |names[0]|;
    } else {
      SplitJoinCommaFree(names[1..]);
      SplitFirst(names[0], Join(names[1..]));
    }
  }

  /** A list survives joining and splitting if and only if no name has a comma. */
  lemma SplitJoin(names: seq<string>)
    requires names != []
    ensures Split(Join(names)) == names <==> CommaFree(names)
  {
    SplitIsCommaFree(Join(names));
    if CommaFree(names) {
      SplitJoinCommaFree(names);
    }
  }

  /** The order of sort.Strings. */
  predicate Leq(a: string, b: string) {
    a == "" || (b != "" && (a[0] < b[0] || (a[0] == b[0] && Leq(a[1..], b[1..]))))
  }

  lemma {:induction false} LeqTotal(a: string, b: string)
    ensures Leq(a, b) || Leq(b, a)
    ensures Leq(a, b) && Leq(b, a) ==> a == b
  {
    if a != "" && b != "" {
      LeqTotal(a[1..], b[1..]);
      assert a == [a[0]] + a[1..] && b == [b[0]] + b[1..];
    }
  }

  lemma {:induction false} LeqTransitive(a: string, b: string, c: string)
    requires Leq(a, b) && Leq(b, c)
    ensures Leq(a, c)
  {
    if a != "" && a[0] == b[0] == c[0] {
      LeqTransitive(a[1..], b[1..], c[1..]);
    }
  }

  predicate SortedNames(names: seq<string>) {
    Sorting.Sorted(names, Leq)
  }

  /** sort.Strings: the sorted permutation. */
  function Sort(names: seq<string>): seq<string> {
    Sorting.Sort(names, Leq)
  }

  lemma LeqIsOrder()
    ensures Sorting.IsOrder(Leq)
  {
    forall a: string, b: string
      ensures Leq(a, b) || Leq(b, a)
    {
      LeqTotal(a, b);
    }
    forall a: string, b: string, c: string | Leq(a, b) && Leq(b, c)
      ensures Leq(a, c)
    {
      LeqTransitive(a, b, c);
    }
  }

  lemma SortSorts(names: seq<string>)
    ensures SortedNames(Sort(names)) && multiset(Sort(names)) == multiset(names)
  {
    LeqIsOrder();
    Sorting.SortSorts(names, Leq);
  }

  lemma FirstIsLeast(names: seq<string>, name: string)
    requires SortedNames(names) && name in names
    ensures Leq(names[0], name)
  {
    LeqTotal(name, name);
  }

  lemma FirstRemoved(names: seq<string>)
    requires names != []
    ensures multiset(names[1..]) == multiset(names) - multiset{names[0]} && names[0] in multiset(names)
  {
    assert names == [names[0]] + names[1..];
  }

  lemma SameFirst(a: seq<string>, b: seq<string>)
    requires a != [] && b != [] && SortedNames(a) && SortedNames(b) && multiset(a) == multiset(b)
    ensures a[0] == b[0]
  {
    FirstRemoved(a);
    FirstRemoved(b);
    assert b[0] in a && a[0] in b;
    FirstIsLeast(a, b[0]);
    FirstIsLeast(b, a[0]);
    LeqTotal(a[0], b[0]);
  }

  lemma {:induction false} SortedIsUnique(a: seq<string>, b: seq<string>)
    requires SortedNames(a) && SortedNames(b) && multiset(a) == multiset(b)
    ensures a == b
  {
    assert |a| == |multiset(a)| == |multiset(b)| == |b|;
    if a != [] {
      SameFirst(a, b);
      FirstRemoved(a);
      FirstRemoved(b);
      SortedIsUnique(a[1..], b[1..]);
      assert a == [a[0]] + a[1..] && b == [b[0]] + b[1..];
    }
  }

  /** Comparing sorted copies compares the lists whatever their order, with multiplicity. */
  lemma SameSortedIffPermutation(a: seq<string>, b: seq<string>)
    ensures Sort(a) == Sort(b) <==> multiset(a) == multiset(b)
  {
    SortSorts(a);
    SortSorts(b);
    if multiset(a) == multiset(b) {
      SortedIsUnique(Sort(a), Sort(b));
    }
  }
}
