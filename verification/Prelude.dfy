// A datatype and a set lemma shared by the other modules.
module Prelude {
  datatype Option<+T> = None | Some(value: T)

  lemma SubsetOfSameSize<T>(a: set<T>, b: set<T>)
    requires a <= b && |a| == |b|
    ensures a == b
  {
    assert b == a + (b - a);
    assert |b| == |a| + |b - a|;
  }
}
