/** Sizes of finite sets. */
module Sets {
  lemma SubsetSize<T>(a: set<T>, b: set<T>)
    requires a <= b
    ensures |a| <= |b| && (|a| == |b| ==> a == b)
  {
    assert b == a + (b - a);
  }

  lemma OneMore<T>(a: set<T>, b: set<T>, x: T)
    requires a <= b + {x}
    ensures |a| <= |b| + 1
  {
    SubsetSize(a, b + {x});
    assert x in b ==> b + {x} == b;
  }

  lemma {:induction false} UpperBound(a: set<nat>) returns (n: nat)
    ensures forall x :: x in a ==> x < n
    decreases |a|
  {
    n := 0;
    if a != {} {
      var x :| x in a;
      n := UpperBound(a - {x});
      if n <= x { n := x + 1; }
      assert forall y :: y in a ==> y == x || y in a - {x};
    }
  }

  lemma Fresh(a: set<nat>) returns (n: nat)
    ensures n !in a
  {
    n := UpperBound(a);
  }
}
