module Sets {

  lemma SubsetSize<T>(a: set<T>, b: set<T>)
    requires a <= b
    ensures |a| <= |b|
  {
    assert a + (b - a) == b;
  }

  /** A set contains another one exactly when their common part is as large. */
  lemma PartSize<T>(a: set<T>, p: set<T>)
    ensures |a * p| <= |p|
    ensures |a * p| == |p| <==> p <= a
  {
    assert a * p + (p - a) == p;
    assert p <= a <==> p - a == {};
  }

  /** How the sizes of a set, and of its part in another one, change when an element is added. */
  lemma AddOne<T>(a: set<T>, p: set<T>, x: T)
    ensures |a + {x}| == |a| + (if x in a then 0 else 1)
    ensures |(a + {x}) * p| == |a * p| + (if x in p && x !in a then 1 else 0)
    ensures |(a + {x}) * p| <= |a + {x}|
  {
    assert x in a ==> a + {x} == a;
    assert (a + {x}) * p == a * p + (if x in p then {x} else {});
    assert x in p && x in a ==> a * p + {x} == a * p;
    SubsetSize((a + {x}) * p, a + {x});
  }
}
