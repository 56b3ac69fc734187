/** Sizes of finite sets. */
module Sets {

  lemma Subset<T>(a: set<T>, b: set<T>)
    requires a <= b
    ensures |a| <= |b|
  {
    assert b == a + (b - a);
  }

  lemma StrictSubset<T>(a: set<T>, b: set<T>)
    requires a < b
    ensures |a| < |b|
  {
    var x :| x in b && x !in a;
    assert a <= b - {x};
    Subset(a, b - {x});
  }

  /** Of a larger part less is left out. */
  lemma SmallerRest<T>(a: set<T>, b: set<T>, all: set<T>)
    requires a < b <= all
    ensures |all - b| < |all - a|
  {
    assert all - b < all - a by {
      var x :| x in b && x !in a;
      assert x in all - a && x !in all - b;
    }
    StrictSubset(all - b, all - a);
  }
}
