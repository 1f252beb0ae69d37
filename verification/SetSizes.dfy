/** Cardinalities of finite sets. */
module SetSizes {
  lemma SubsetSize<T>(a: set<T>, b: set<T>)
    requires a <= b
    ensures |a| <= |b|
  {
    assert b == a + (b - a);
  }

  lemma UnionBound<T>(whole: set<T>, a: set<T>, b: set<T>)
    requires whole <= a + b
    ensures |whole| <= |a| + |b|
  {
    SubsetSize(whole, a + b);
    assert a + b == a + (b - a);
    SubsetSize(b - a, b);
  }

  lemma AtMostOne<T>(a: set<T>)
    requires forall x, y | x in a && y in a :: x == y
    ensures |a| <= 1
  {
    if a != {} {
      var x :| x in a;
      assert a == {x};
    }
  }
}
