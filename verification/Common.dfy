/** Definitions that several modules share. */
module Common {

  datatype Option<T> = None | Some(value: T)

  /** No two elements of a list are the same. */
  predicate Distinct(q: seq<nat>)
  {
    forall i, j :: 0 <= i < j < |q| ==> q[i] != q[j]
  }

  lemma DistinctConcat(a: seq<nat>, b: seq<nat>)
    requires Distinct(a) && Distinct(b) && forall x :: x in a ==> x !in b
    ensures Distinct(a + b)
  {
    forall i, j | 0 <= i < j < |a + b| ensures (a + b)[i] != (a + b)[j] {
      if i < |a| <= j {
        assert a[i] in a && b[j - |a|] in b;
      }
    }
  }
}
