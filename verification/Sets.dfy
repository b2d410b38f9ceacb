/** Cardinality facts shared by the counting arguments. */
module Sets {
  lemma SizeAfter<T>(x: set<T>, x': set<T>, c: T)
    requires x - {c} == x' - {c}
    ensures |x'| == |x| - (if c in x then 1 else 0) + (if c in x' then 1 else 0)
  {
    var rest := x - {c};
    if c in x { assert x == rest + {c}; } else { assert x == rest; }
    if c in x' { assert x' == rest + {c}; } else { assert x' == rest; }
  }

  lemma SubsetSize<T>(a: set<T>, b: set<T>)
    requires a <= b
    ensures |a| <= |b|
  {
    assert b == a + (b - a);
  }
}
