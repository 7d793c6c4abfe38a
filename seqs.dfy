/** Facts about sequences shared by several modules. */
module Seqs {

  /** No value occurs twice. */
  predicate Distinct<T(==)>(r: seq<T>)
  {
    forall a, b :: 0 <= a < b < |r| ==> r[a] != r[b]
  }

  /** Appending a value not yet present keeps a sequence free of repeats. */
  lemma AppendDistinct<T>(r: seq<T>, x: T)
    requires Distinct(r) && x !in r
    ensures Distinct(r + [x])
  {
    var s := r + [x];
    forall a, b | 0 <= a < b < |s| ensures s[a] != s[b] {
      if b == |r| {
        assert s[a] == r[a] && r[a] in r;
      } else {
        assert s[a] == r[a] && s[b] == r[b];
      }
    }
  }

  /** Without its last element a distinct sequence stays distinct and lacks that element. */
  lemma DistinctFront<T>(r: seq<T>)
    requires r != [] && Distinct(r)
    ensures Distinct(r[..|r| - 1]) && r[|r| - 1] !in r[..|r| - 1]
  {
  }
}
