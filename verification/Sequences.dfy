/** Sequence vocabulary shared by the models: filtering, mapping, stable sorting. */
module Sequences {

  datatype Option<+T> = None | Some(value: T)

  function Filter<T(!new)>(p: T -> bool, s: seq<T>): (r: seq<T>)
    ensures forall x :: x in r <==> x in s && p(x)
    ensures |r| <= |s|
  {
    if s == [] then [] else (if p(s[0]) then [s[0]] else []) + Filter(p, s[1..])
  }

  lemma {:induction false} FilterConcat<T(!new)>(p: T -> bool, a: seq<T>, b: seq<T>)
    ensures Filter(p, a + b) == Filter(p, a) + Filter(p, b)
  {
    if a == [] {
      assert a + b == b;
    } else {
      assert (a + b)[1..] == a[1..] + b;
      FilterConcat(p, a[1..], b);
    }
  }

  lemma {:induction false} FilterAll<T(!new)>(p: T -> bool, s: seq<T>)
    requires forall x :: x in s ==> p(x)
    ensures Filter(p, s) == s
  {
    if s != [] {
      FilterAll(p, s[1..]);
    }
  }

  lemma {:induction false} FilterNone<T(!new)>(p: T -> bool, s: seq<T>)
    requires forall x :: x in s ==> !p(x)
    ensures Filter(p, s) == []
  {
    if s != [] {
      FilterNone(p, s[1..]);
    }
  }

  /** Selecting keeps every copy of what is selected. */
  lemma {:induction false} FilterCounts<T(!new)>(p: T -> bool, s: seq<T>, x: T)
    ensures multiset(Filter(p, s))[x] == if p(x) then multiset(s)[x] else 0
  {
    if s != [] {
      FilterCounts(p, s[1..], x);
      assert s == [s[0]] + s[1..];
    }
  }

  ghost predicate Comparable<T>(le: (T, T) -> bool, x: T, y: T) {
    le(x, y) || le(y, x)
  }

  ghost predicate Chains<T>(le: (T, T) -> bool, x: T, y: T, z: T) {
    le(x, y) && le(y, z) ==> le(x, z)
  }

  /** `le` orders `T` totally, possibly with ties. */
  ghost predicate TotalPreorder<T(!new)>(le: (T, T) -> bool) {
    && (forall x, y :: Comparable(le, x, y))
    && (forall x, y, z :: Chains(le, x, y, z))
  }

  ghost predicate Sorted<T>(le: (T, T) -> bool, s: seq<T>) {
    forall i, j :: 0 <= i < j < |s| ==> le(s[i], s[j])
  }

  function Insert<T>(le: (T, T) -> bool, x: T, s: seq<T>): (r: seq<T>)
    ensures |r| == |s| + 1
  {
    if s == [] || le(x, s[0]) then [x] + s
    else [s[0]] + Insert(le, x, s[1..])
  }

  /** Stable ascending sort. */
  function Sort<T>(le: (T, T) -> bool, s: seq<T>): (r: seq<T>)
    ensures |r| == |s|
  {
    if s == [] then [] else Insert(le, s[0], Sort(le, s[1..]))
  }

  lemma {:induction false} InsertPermutes<T>(le: (T, T) -> bool, x: T, s: seq<T>)
    ensures multiset(Insert(le, x, s)) == multiset(s) + multiset{x}
  {
    if s != [] && !le(x, s[0]) {
      InsertPermutes(le, x, s[1..]);
      assert s == [s[0]] + s[1..];
    }
  }

  lemma {:induction false} SortPermutes<T>(le: (T, T) -> bool, s: seq<T>)
    ensures multiset(Sort(le, s)) == multiset(s)
  {
    if s != [] {
      SortPermutes(le, s[1..]);
      InsertPermutes(le, s[0], Sort(le, s[1..]));
      assert s == [s[0]] + s[1..];
    }
  }

  lemma SameElements<T(!new)>(a: seq<T>, b: seq<T>)
    requires multiset(a) == multiset(b)
    ensures forall x :: x in a <==> x in b
  {
    forall x ensures x in a <==> x in b {
      assert x in a <==> x in multiset(a);
      assert x in b <==> x in multiset(b);
    }
  }

  lemma {:induction false} InsertSorted<T(!new)>(le: (T, T) -> bool, x: T, s: seq<T>)
    requires TotalPreorder(le) && Sorted(le, s)
    ensures Sorted(le, Insert(le, x, s))
  {
    if s != [] && !le(x, s[0]) {
      InsertSorted(le, x, s[1..]);
      assert Comparable(le, x, s[0]);
      InsertPermutes(le, x, s[1..]);
      var r := Insert(le, x, s[1..]);
      forall y | y in r ensures le(s[0], y) {
        assert y in multiset(r);
        assert y == x || y in multiset(s[1..]);
      }
    } else if s != [] {
      forall j | 0 <= j < |s| ensures le(x, s[j]) {
        assert Chains(le, x, s[0], s[j]);
      }
    }
  }

  lemma {:induction false} SortSorts<T(!new)>(le: (T, T) -> bool, s: seq<T>)
    requires TotalPreorder(le)
    ensures Sorted(le, Sort(le, s))
  {
    if s != [] {
      SortSorts(le, s[1..]);
      InsertSorted(le, s[0], Sort(le, s[1..]));
    }
  }

  lemma {:induction false} SortedIsFixed<T>(le: (T, T) -> bool, s: seq<T>)
    requires Sorted(le, s)
    ensures Sort(le, s) == s
  {
    if s != [] {
      SortedIsFixed(le, s[1..]);
      assert s == [s[0]] + s[1..];
    }
  }

  lemma {:induction false} FilterInsert<T(!new)>(le: (T, T) -> bool, p: T -> bool, x: T, s: seq<T>)
    requires TotalPreorder(le) && Sorted(le, s)
    ensures Filter(p, Insert(le, x, s)) == if p(x) then Insert(le, x, Filter(p, s)) else Filter(p, s)
  {
    if s == [] || le(x, s[0]) {
      assert ([x] + s)[1..] == s;
      var f := Filter(p, s);
      if f != [] {
        assert f[0] in s;
        assert Chains(le, x, s[0], f[0]);
      }
    } else {
      FilterInsert(le, p, x, s[1..]);
      var r := Insert(le, x, s[1..]);
      assert ([s[0]] + r)[1..] == r;
      if p(s[0]) {
        var f := Filter(p, s[1..]);
        assert ([s[0]] + f)[1..] == f;
      } else if p(x) {
        var f := Filter(p, s[1..]);
        assert Filter(p, s) == f;
      }
    }
  }

  lemma SortCons<T(!new)>(le: (T, T) -> bool, x: T, s: seq<T>)
    ensures Sort(le, [x] + s) == Insert(le, x, Sort(le, s))
  {
    assert ([x] + s)[1..] == s;
  }

  /** One step of `FilterSort`: selecting before or after inserting gives the same list. */
  lemma FilterSortStep<T(!new)>(le: (T, T) -> bool, p: T -> bool, x: T, s: seq<T>)
    requires TotalPreorder(le)
    requires Filter(p, Sort(le, s)) == Sort(le, Filter(p, s))
    ensures Filter(p, Insert(le, x, Sort(le, s))) == Sort(le, (if p(x) then [x] else []) + Filter(p, s))
  {
    var f, t := Filter(p, s), Sort(le, s);
    assert Filter(p, Insert(le, x, t)) == if p(x) then Insert(le, x, Filter(p, t)) else Filter(p, t) by {
      SortSorts(le, s);
      FilterInsert(le, p, x, t);
    }
    if p(x) {
      SortCons(le, x, f);
    } else {
      assert [] + f == f;
    }
  }

  /** Because the sort is stable, selecting before or after sorting gives the same list. */
  lemma {:induction false} FilterSort<T(!new)>(le: (T, T) -> bool, p: T -> bool, s: seq<T>)
    requires TotalPreorder(le)
    ensures Filter(p, Sort(le, s)) == Sort(le, Filter(p, s))
  {
    if s != [] {
      FilterSort(le, p, s[1..]);
      FilterSortStep(le, p, s[0], s[1..]);
    }
  }

  lemma {:induction false} FilterTwice<T(!new)>(p: T -> bool, q: T -> bool, both: T -> bool, s: seq<T>)
    requires forall x :: both(x) <==> p(x) && q(x)
    ensures Filter(p, Filter(q, s)) == Filter(both, s)
  {
    if s != [] {
      FilterTwice(p, q, both, s[1..]);
      var kept, rest := if q(s[0]) then [s[0]] else [], Filter(q, s[1..]);
      FilterConcat(p, kept, rest);
    }
  }

  /** Elements that tie keep their order. */
  lemma SortKeepsTies<T(!new)>(le: (T, T) -> bool, p: T -> bool, s: seq<T>)
    requires TotalPreorder(le) && forall x, y :: p(x) && p(y) ==> le(x, y)
    ensures Filter(p, Sort(le, s)) == Filter(p, s)
  {
    FilterSort(le, p, s);
    var f := Filter(p, s);
    assert forall i :: 0 <= i < |f| ==> f[i] in f;
    SortedIsFixed(le, f);
  }

  /** The head of a sorted list is the least element of any list with the same elements. */
  lemma SortedHead<T(!new)>(le: (T, T) -> bool, a: seq<T>, b: seq<T>)
    requires a != [] && b != [] && b[0] in a && Sorted(le, a)
    ensures a[0] == b[0] || le(a[0], b[0])
  {
    var j :| 0 <= j < |a| && a[j] == b[0];
    if j > 0 {
      assert le(a[0], a[j]);
    }
  }

  lemma TailElements<T(!new)>(a: seq<T>)
    requires a != []
    ensures multiset(a[1..]) == multiset(a) - multiset{a[0]}
  {
    assert a == [a[0]] + a[1..];
  }

  ghost predicate Antisym<T>(le: (T, T) -> bool, x: T, y: T) {
    le(x, y) && le(y, x) ==> x == y
  }

  /** Two sorted permutations of each other are equal. */
  lemma {:induction false} SortedUnique<T(!new)>(le: (T, T) -> bool, a: seq<T>, b: seq<T>)
    requires multiset(a) == multiset(b)
    requires Sorted(le, a) && Sorted(le, b)
    requires forall x, y :: x in a && y in a ==> Antisym(le, x, y)
    ensures a == b
  {
    assert |a| == |multiset(a)| == |multiset(b)| == |b|;
    if a != [] {
      assert a[0] in b && b[0] in a by { SameElements(a, b); }
      assert a[0] == b[0] by {
        SortedHead(le, a, b);
        SortedHead(le, b, a);
        assert a[0] in a;
        assert Antisym(le, a[0], b[0]);
      }
      TailElements(a);
      TailElements(b);
      assert Sorted(le, a[1..]) && Sorted(le, b[1..]);
      SortedUnique(le, a[1..], b[1..]);
      assert a == [a[0]] + a[1..] && b == [b[0]] + b[1..];
    }
  }

  lemma {:induction false} InsertBefore<T(!new)>(le: (T, T) -> bool, x: T, s: seq<T>, t: seq<T>)
    requires forall y :: y in t ==> le(x, y)
    ensures Insert(le, x, s + t) == Insert(le, x, s) + t
  {
    if s == [] {
      assert s + t == t;
      assert t != [] ==> t[0] in t;
    } else if !le(x, s[0]) {
      assert (s + t)[1..] == s[1..] + t;
      InsertBefore(le, x, s[1..], t);
    }
  }

  /** Sorting two lists already in order of each other sorts each on its own. */
  lemma {:induction false} SortAppend<T(!new)>(le: (T, T) -> bool, a: seq<T>, b: seq<T>)
    requires forall x, y :: x in a && y in b ==> le(x, y)
    ensures Sort(le, a + b) == Sort(le, a) + Sort(le, b)
  {
    if a == [] {
      assert a + b == b;
    } else {
      assert (a + b)[1..] == a[1..] + b;
      SortAppend(le, a[1..], b);
      SortPermutes(le, b);
      SameElements(Sort(le, b), b);
      InsertBefore(le, a[0], Sort(le, a[1..]), Sort(le, b));
    }
  }

  // ----- Sets of integers in ascending order

  ghost predicate IsLeast(m: int, s: set<int>) {
    m in s && forall y :: y in s ==> m <= y
  }

  lemma {:induction false} LeastExists(s: set<int>)
    requires |s| > 0
    ensures exists m :: IsLeast(m, s)
    decreases |s|
  {
    assert (forall x :: x !in s) ==> s == {};
    var x :| x in s;
    var rest := s - {x};
    assert s == rest + {x};
    if |rest| == 0 {
      assert IsLeast(x, s);
    } else {
      LeastExists(rest);
      var m :| IsLeast(m, rest);
      forall y | y in s ensures (if x < m then x else m) <= y {
        assert y == x || y in rest;
      }
      assert IsLeast(if x < m then x else m, s);
    }
  }

  /** The smallest element. */
  function Least(s: set<int>): (m: int)
    requires |s| > 0
    ensures IsLeast(m, s)
  {
    LeastExists(s);
    var m :| m in s && forall y :: y in s ==> m <= y;
    m
  }

  /** The elements of `s`, each once, smallest first. */
  function Ascending(s: set<int>): (r: seq<int>)
    ensures |r| == |s|
    decreases |s|
  {
    if |s| == 0 then [] else [Least(s)] + Ascending(s - {Least(s)})
  }

  ghost predicate Increasing(s: seq<int>) {
    forall i, j :: 0 <= i < j < |s| ==> s[i] < s[j]
  }

  lemma {:induction false} AscendingMembers(s: set<int>, x: int)
    ensures x in Ascending(s) <==> x in s
    decreases |s|
  {
    if |s| > 0 {
      var m := Least(s);
      var rest := s - {m};
      AscendingMembers(rest, x);
      assert x in [m] + Ascending(rest) <==> x == m || x in Ascending(rest);
    } else {
      assert s == {};
    }
  }

  lemma IncreasingCons(m: int, rest: seq<int>)
    requires Increasing(rest) && forall x :: x in rest ==> m < x
    ensures Increasing([m] + rest)
  {
    var r := [m] + rest;
    forall i, j | 0 <= i < j < |r| ensures r[i] < r[j] {
      assert r[j] == rest[j - 1] && rest[j - 1] in rest;
    }
  }

  lemma {:induction false} AscendingIncreases(s: set<int>)
    ensures Increasing(Ascending(s))
    decreases |s|
  {
    if |s| > 0 {
      var m := Least(s);
      var rest := s - {m};
      AscendingIncreases(rest);
      forall x | x in Ascending(rest) ensures m < x {
        AscendingMembers(rest, x);
      }
      IncreasingCons(m, Ascending(rest));
    }
  }

  lemma AscendingLists(s: set<int>)
    ensures forall x :: x in Ascending(s) <==> x in s
    ensures forall i, j :: 0 <= i < j < |s| ==> Ascending(s)[i] < Ascending(s)[j]
  {
    AscendingIncreases(s);
    forall x ensures x in Ascending(s) <==> x in s {
      AscendingMembers(s, x);
    }
  }

  lemma HeadIsLeast(a: seq<int>, b: seq<int>)
    requires Increasing(a) && a != [] && b != [] && b[0] in a
    ensures a[0] <= b[0]
  {
    var j :| 0 <= j < |a| && a[j] == b[0];
    assert j > 0 ==> a[0] < a[j];
  }

  lemma SomeMember(s: seq<int>) returns (x: int)
    requires s != []
    ensures x in s
  {
    x := s[0];
  }

  /** An increasing sequence is determined by its elements. */
  lemma {:induction false} IncreasingUnique(a: seq<int>, b: seq<int>)
    requires Increasing(a) && Increasing(b) && forall x :: x in a <==> x in b
    ensures a == b
  {
    if b != [] {
      var x := SomeMember(b);
    }
    if a != [] {
      assert a[0] in a && a[0] in b && b != [] && b[0] in b && b[0] in a;
      HeadIsLeast(a, b);
      HeadIsLeast(b, a);
      forall x ensures x in a[1..] <==> x in b[1..] {
        assert x in a <==> x == a[0] || x in a[1..];
        assert x in b <==> x == b[0] || x in b[1..];
      }
      IncreasingUnique(a[1..], b[1..]);
      assert a == [a[0]] + a[1..] && b == [b[0]] + b[1..];
    }
  }
}
