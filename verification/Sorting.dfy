/** Stable sorting by a total preorder, and when its result does not depend on the input order. */
module Sorting {
  ghost predicate Preorder<T(!new)>(le: (T, T) -> bool) {
    && (forall x, y :: le(x, y) || le(y, x))
    && (forall x, y, z :: le(x, y) && le(y, z) ==> le(x, z))
  }

  ghost predicate Sorted<T>(s: seq<T>, le: (T, T) -> bool) {
    forall i, j :: 0 <= i < j < |s| ==> le(s[i], s[j])
  }

  /** No two different elements tie. */
  ghost predicate NoTies<T>(s: seq<T>, le: (T, T) -> bool) {
    forall x, y :: x in s && y in s && le(x, y) && le(y, x) ==> x == y
  }

  function Insert<T>(s: seq<T>, x: T, le: (T, T) -> bool): seq<T> {
    if |s| == 0 then [x]
    else if le(s[|s| - 1], x) then s + [x]
    else Insert(s[..|s| - 1], x, le) + [s[|s| - 1]]
  }

  function Sort<T>(s: seq<T>, le: (T, T) -> bool): seq<T> {
    if |s| == 0 then [] else Insert(Sort(s[..|s| - 1], le), s[|s| - 1], le)
  }

  lemma AppendSorts<T(!new)>(s: seq<T>, x: T, le: (T, T) -> bool)
    requires Sorted(s, le) && forall y :: y in s ==> le(y, x)
    ensures Sorted(s + [x], le)
  {
  }

  lemma LastIsGreatest<T(!new)>(s: seq<T>, x: T, le: (T, T) -> bool)
    requires Preorder(le) && |s| > 0 && Sorted(s, le) && le(s[|s| - 1], x)
    ensures forall y :: y in s ==> le(y, x)
  {
    var last := s[|s| - 1];
    forall y | y in s ensures le(y, x) {
      assert le(y, last) by {
        assert le(last, last) || le(last, last);
      }
    }
  }

  lemma {:induction false} InsertSorts<T(!new)>(s: seq<T>, x: T, le: (T, T) -> bool)
    requires Preorder(le) && Sorted(s, le)
    ensures Sorted(Insert(s, x, le), le)
    ensures multiset(Insert(s, x, le)) == multiset(s) + multiset{x}
  {
    hide Preorder;
    if |s| > 0 {
      var init, last := s[..|s| - 1], s[|s| - 1];
      assert s == init + [last];
      InitSorted(init, last, le);
      if le(last, x) {
        LastIsGreatest(s, x, le);
        AppendSorts(s, x, le);
      } else {
        InsertSorts(init, x, le);
        Comparable(last, x, le);
        InsertedBelow(init, Insert(init, x, le), x, last, le);
        AppendSorts(Insert(init, x, le), last, le);
      }
    }
  }

  lemma Comparable<T(!new)>(a: T, b: T, le: (T, T) -> bool)
    requires Preorder(le)
    ensures le(a, b) || le(b, a)
  {
  }

  lemma InitSorted<T>(init: seq<T>, last: T, le: (T, T) -> bool)
    requires Sorted(init + [last], le)
    ensures Sorted(init, le)
    ensures forall y :: y in init ==> le(y, last)
  {
    var s := init + [last];
    assert forall i :: 0 <= i < |init| ==> s[i] == init[i] && le(s[i], s[|init|]);
  }

  lemma InsertedBelow<T(!new)>(s: seq<T>, t: seq<T>, x: T, top: T, le: (T, T) -> bool)
    requires multiset(t) == multiset(s) + multiset{x}
    requires le(x, top) && forall y :: y in s ==> le(y, top)
    ensures forall y :: y in t ==> le(y, top)
  {
    forall y | y in t ensures le(y, top) {
      assert y in multiset(t);
    }
  }

  lemma {:induction false} SortSorts<T(!new)>(s: seq<T>, le: (T, T) -> bool)
    requires Preorder(le)
    ensures Sorted(Sort(s, le), le)
    ensures multiset(Sort(s, le)) == multiset(s)
  {
    hide Preorder, Sorted;
    if |s| > 0 {
      assert s == s[..|s| - 1] + [s[|s| - 1]];
      SortSorts(s[..|s| - 1], le);
      InsertSorts(Sort(s[..|s| - 1], le), s[|s| - 1], le);
    } else {
      EmptySorted(s, le);
    }
  }

  lemma EmptySorted<T>(s: seq<T>, le: (T, T) -> bool)
    requires |s| == 0
    ensures Sorted(s, le)
  {
  }

  lemma {:induction false} SortedIsUnique<T(!new)>(a: seq<T>, b: seq<T>, le: (T, T) -> bool)
    requires multiset(a) == multiset(b) && Sorted(a, le) && Sorted(b, le) && NoTies(a, le)
    ensures a == b
  {
    if |a| == 0 {
      assert |multiset(b)| == 0;
    } else {
      assert |multiset(a)| == |multiset(b)|;
      SameElements(a, b);
      SameHead(a, b, le);
      assert a == [a[0]] + a[1..] && b == [b[0]] + b[1..];
      assert multiset(a[1..]) == multiset(a) - multiset{a[0]};
      assert multiset(b[1..]) == multiset(b) - multiset{b[0]};
      TailSorted(a, le);
      TailSorted(b, le);
      SortedIsUnique(a[1..], b[1..], le);
    }
  }

  lemma SameHead<T(!new)>(a: seq<T>, b: seq<T>, le: (T, T) -> bool)
    requires |a| > 0 && |b| > 0 && forall x :: x in a <==> x in b
    requires Sorted(a, le) && Sorted(b, le) && NoTies(a, le)
    ensures a[0] == b[0]
  {
    assert a[0] in a && b[0] in b;
  }

  lemma TailSorted<T>(s: seq<T>, le: (T, T) -> bool)
    requires |s| > 0 && Sorted(s, le)
    ensures Sorted(s[1..], le)
  {
  }

  /** Two orders of the same elements sort to the same sequence when no two elements tie. */
  lemma SortIgnoresOrder<T(!new)>(a: seq<T>, b: seq<T>, le: (T, T) -> bool)
    requires Preorder(le) && multiset(a) == multiset(b) && NoTies(a, le)
    ensures Sort(a, le) == Sort(b, le)
  {
    SortSorts(a, le);
    SortSorts(b, le);
    SameElements(Sort(a, le), a);
    SortedIsUnique(Sort(a, le), Sort(b, le), le);
  }

  lemma SortOne<T>(x: T, le: (T, T) -> bool)
    ensures Sort([x], le) == [x]
  {
    assert [x][..0] == [];
    assert Sort([], le) == [];
  }

  lemma SameElements<T>(a: seq<T>, b: seq<T>)
    requires multiset(a) == multiset(b)
    ensures forall x :: x in a <==> x in b
  {
    assert forall x :: x in a <==> x in multiset(a);
    assert forall x :: x in b <==> x in multiset(b);
  }
}
