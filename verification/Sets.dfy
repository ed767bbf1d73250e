/** Cardinality facts used by several components. */
module Sets {

  lemma {:induction false} SubsetCard<T>(a: set<T>, b: set<T>)
    requires a <= b
    ensures |a| <= |b|
  {
    if a != {} {
      var x :| x in a;
      SubsetCard(a - {x}, b - {x});
    }
  }

  lemma StrictSubsetCard<T>(a: set<T>, b: set<T>, y: T)
    requires a <= b && y in b && y !in a
    ensures |a| < |b|
  {
    SubsetCard(a, b - {y});
  }
}
