/** Rows stamped with an instant (microseconds), and the views of them a point in time may use. */
module Timeline {
  datatype Timed<+T> = Timed(at: int, row: T)

  /** The rows stamped at or before `hi`, in their original order. */
  function UpTo<T>(s: seq<Timed<T>>, hi: int): (r: seq<Timed<T>>)
    ensures forall i :: 0 <= i < |r| ==> r[i].at <= hi && r[i] in s
  {
    if |s| == 0 then []
    else
      var init, last := UpTo(s[..|s| - 1], hi), s[|s| - 1];
      if last.at <= hi then init + [last] else init
  }

  /** The rows stamped after `lo` and at or before `hi`. */
  function Between<T>(s: seq<Timed<T>>, lo: int, hi: int): (r: seq<Timed<T>>)
    ensures forall i :: 0 <= i < |r| ==> lo < r[i].at <= hi && r[i] in s
  {
    if |s| == 0 then []
    else
      var init, last := Between(s[..|s| - 1], lo, hi), s[|s| - 1];
      if lo < last.at && last.at <= hi then init + [last] else init
  }

  /** The rows stamped exactly `at`. */
  function At<T>(s: seq<Timed<T>>, at: int): (r: seq<Timed<T>>)
    ensures forall i :: 0 <= i < |r| ==> r[i].at == at && r[i] in s
  {
    if |s| == 0 then []
    else
      var init, last := At(s[..|s| - 1], at), s[|s| - 1];
      if last.at == at then init + [last] else init
  }

  /** Removing what happened after `cut` changes no view that ends at or before `cut`. */
  lemma {:induction false} ViewsIgnoreTheFuture<T>(s: seq<Timed<T>>, cut: int, lo: int, hi: int)
    requires hi <= cut
    ensures UpTo(UpTo(s, cut), hi) == UpTo(s, hi)
    ensures Between(UpTo(s, cut), lo, hi) == Between(s, lo, hi)
    ensures At(UpTo(s, cut), hi) == At(s, hi)
  {
    if |s| > 0 {
      ViewsIgnoreTheFuture(s[..|s| - 1], cut, lo, hi);
      var u := UpTo(s[..|s| - 1], cut);
      if s[|s| - 1].at <= cut {
        assert UpTo(s, cut)[..|UpTo(s, cut)| - 1] == u;
      }
    }
  }

  lemma {:induction false} UpToKeeps<T>(s: seq<Timed<T>>, hi: int, x: Timed<T>)
    ensures x in UpTo(s, hi) <==> x in s && x.at <= hi
  {
    if |s| > 0 {
      UpToKeeps(s[..|s| - 1], hi, x);
      assert s == s[..|s| - 1] + [s[|s| - 1]];
    }
  }

  ghost predicate Ascending(s: seq<int>) {
    forall i, j :: 0 <= i < j < |s| ==> s[i] < s[j]
  }

  /** One insertion into an ordered set of instants. */
  function Insert(s: seq<int>, t: int): (r: seq<int>)
    requires Ascending(s)
    ensures Ascending(r)
    ensures forall x :: x in r <==> x in s || x == t
  {
    if |s| == 0 then [t]
    else
      var last := s[|s| - 1];
      assert s == s[..|s| - 1] + [last];
      if last < t then s + [t]
      else if last == t then s
      else
        var init := Insert(s[..|s| - 1], t);
        assert forall i :: 0 <= i < |init| ==> init[i] in init && init[i] < last;
        init + [last]
  }

  function InsertAll<T>(points: seq<int>, s: seq<Timed<T>>): (r: seq<int>)
    requires Ascending(points)
    ensures Ascending(r)
    ensures forall x :: x in r <==> x in points || exists i :: 0 <= i < |s| && s[i].at == x
  {
    if |s| == 0 then points
    else
      var init := InsertAll(points, s[..|s| - 1]);
      Insert(init, s[|s| - 1].at)
  }

  /** How many of the ordered instants are at or before `cut`. */
  function CountUpTo(points: seq<int>, cut: int): (k: nat)
    requires Ascending(points)
    ensures k <= |points|
    ensures forall i :: 0 <= i < k ==> points[i] <= cut
    ensures forall i :: k <= i < |points| ==> cut < points[i]
  {
    if |points| == 0 then 0
    else if points[|points| - 1] <= cut then |points|
    else CountUpTo(points[..|points| - 1], cut)
  }

  lemma InInit(s: seq<int>, z: int)
    requires Ascending(s) && |s| > 0
    ensures z in s[..|s| - 1] <==> z in s && z != s[|s| - 1]
  {
    assert s == s[..|s| - 1] + [s[|s| - 1]];
  }

  lemma LastIsGreatest(s: seq<int>, z: int)
    requires Ascending(s) && z in s
    ensures z <= s[|s| - 1]
  {
  }

  /** An ordered set of instants is determined by its elements. */
  lemma {:induction false} AscendingUnique(a: seq<int>, b: seq<int>)
    requires Ascending(a) && Ascending(b)
    requires forall x :: x in a <==> x in b
    ensures a == b
  {
    assert |a| == 0 || a[|a| - 1] in a;
    assert |b| == 0 || b[|b| - 1] in b;
    if |a| > 0 {
      LastIsGreatest(b, a[|a| - 1]);
      LastIsGreatest(a, b[|b| - 1]);
      var a', b' := a[..|a| - 1], b[..|b| - 1];
      forall z ensures z in a' <==> z in b' {
        InInit(a, z);
        InInit(b, z);
      }
      AscendingUnique(a', b');
      assert a == a' + [a[|a| - 1]] && b == b' + [b[|b| - 1]];
    }
  }
}
