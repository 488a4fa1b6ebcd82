/** Assignment of dense ids to elements, in the order of their first insertion. */
module Compressors {
  import opened Sequences

  datatype Option<+T> = None | Some(value: T)

  class Compressor<T(==)> {
    var toInt: map<T, nat>
    var fromInt: seq<T>

    /** The two directions are inverse to each other. */
    ghost predicate Valid()
      reads this
    {
      && (forall e :: e in toInt ==> toInt[e] < |fromInt| && fromInt[toInt[e]] == e)
      && (forall i: nat :: i < |fromInt| ==> fromInt[i] in toInt && toInt[fromInt[i]] == i)
    }

    constructor ()
      ensures Valid() && fromInt == []
    {
      toInt, fromInt := map[], [];
    }

    /** Returns the id of the element and whether the element is new. Known elements keep their id, a new
        element gets the next free one. */
    method Insert(elem: T) returns (id: nat, inserted: bool)
      requires Valid()
      modifies this
      ensures Valid()
      ensures inserted == (elem !in old(fromInt))
      ensures fromInt == if inserted then old(fromInt) + [elem] else old(fromInt)
      ensures id < |fromInt| && fromInt[id] == elem
    {
      inserted := elem !in toInt;
      if inserted {
        toInt := toInt[elem := |fromInt|];
        fromInt := fromInt + [elem];
      }
      id := toInt[elem];
    }

    method GetOrInsert(elem: T) returns (id: nat)
      requires Valid()
      modifies this
      ensures Valid()
      ensures fromInt == if elem in old(fromInt) then old(fromInt) else old(fromInt) + [elem]
      ensures id < |fromInt| && fromInt[id] == elem
    {
      var inserted;
      id, inserted := Insert(elem);
    }

    method GetOrNull(elem: T) returns (id: Option<nat>)
      requires Valid()
      ensures id.Some? <==> elem in fromInt
      ensures id.Some? ==> id.value < |fromInt| && fromInt[id.value] == elem
    {
      id := if elem in toInt then Some(toInt[elem]) else None;
    }
  }

  lemma ValidIsDistinct<T>(c: Compressor<T>)
    requires c.Valid()
    ensures Distinct(c.fromInt)
  {
    forall i: nat, j: nat | i < j < |c.fromInt|
      ensures c.fromInt[i] != c.fromInt[j]
    {
      assert c.toInt[c.fromInt[i]] == i && c.toInt[c.fromInt[j]] == j;
    }
  }
}
