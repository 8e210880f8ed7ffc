/** Cardinalities of finite sets. */
module Sets {
  lemma SubsetIsSmaller<T>(a: set<T>, b: set<T>)
    requires a <= b
    ensures |a| <= |b|
    ensures a != b ==> |a| < |b|
  {
    if a != {} {
      var x :| x in a;
      SubsetIsSmaller(a - {x}, b - {x});
    }
  }

  lemma AddDisjoint<T>(s: set<T>, x: T, t: set<T>)
    ensures (s + {x}) * t == {} <==> s * t == {} && x !in t
  {
    if s * t == {} && x !in t {
      assert (s + {x}) * t == s * t;
    } else if x !in t {
      var y :| y in s * t;
      assert y in (s + {x}) * t;
    } else {
      assert x in (s + {x}) * t;
    }
  }
}
