/** Properties of sequences that several components share. */
module Sequences {

  ghost predicate Distinct<T>(q: seq<T>) {
    forall i: nat, j: nat :: i < j < |q| ==> q[i] != q[j]
  }

  ghost predicate Ascending(q: seq<nat>) {
    forall i: nat, j: nat :: i < j < |q| ==> q[i] < q[j]
  }
}
