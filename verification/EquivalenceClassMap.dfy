/** Maps that keep the keys of equal values together in one class. */
module EquivalenceClassMaps {
  import opened Compressors

  type Key(==, !new)
  type Value(==, !new)

  datatype Class = Class(keys: set<Key>, value: Value)

  /** The classes are those of a plain table from keys to values: each value has one class, with all its keys. */
  ghost predicate Represents(classes: seq<Class>, table: map<Key, Value>) {
    && (forall i: nat, k :: i < |classes| && k in classes[i].keys ==> k in table && table[k] == classes[i].value)
    && (forall k :: k in table ==> Covered(classes, k))
    && (forall i: nat :: i < |classes| ==> classes[i].keys != {})
    && (forall i: nat, j: nat :: i < j < |classes| ==> classes[i].value != classes[j].value)
  }

  ghost predicate Covered(classes: seq<Class>, k: Key) {
    exists i: nat :: i < |classes| && k in classes[i].keys
  }

  /** Each key is in exactly one class. */
  lemma OneClassEach(classes: seq<Class>, table: map<Key, Value>, k: Key)
    requires Represents(classes, table)
    ensures k in table <==> Covered(classes, k)
    ensures forall i: nat, j: nat :: i < |classes| && j < |classes| && k in classes[i].keys && k in classes[j].keys ==> i == j
  {
  }

  lemma ValueOfKey(classes: seq<Class>, table: map<Key, Value>, i: nat, k: Key)
    requires Represents(classes, table) && i < |classes| && k in classes[i].keys
    ensures k in table && table[k] == classes[i].value
  {
  }

  /** The number of classes is the number of different values. */
  lemma ClassPerValue(classes: seq<Class>, table: map<Key, Value>)
    requires Represents(classes, table)
    ensures |classes| == |table.Values|
  {
    CountValues(classes);
    var values := set i: nat | i < |classes| :: classes[i].value;
    forall v | v in values
      ensures v in table.Values
    {
      var i: nat :| i < |classes| && classes[i].value == v;
      var k :| k in classes[i].keys;
      assert table[k] == v;
    }
    assert values == table.Values;
  }

  lemma {:induction false} CountValues(classes: seq<Class>)
    requires forall i: nat, j: nat :: i < j < |classes| ==> classes[i].value != classes[j].value
    ensures |set i: nat | i < |classes| :: classes[i].value| == |classes|
  {
    if classes != [] {
      var init, last := classes[..|classes| - 1], classes[|classes| - 1];
      CountValues(init);
      var before := set i: nat | i < |init| :: init[i].value;
      var after := set i: nat | i < |classes| :: classes[i].value;
      assert last.value !in before;
      forall v
        ensures v in after <==> v in before + {last.value}
      {
        if v in before {
          var i: nat :| i < |init| && init[i].value == v;
          assert classes[i].value == v;
        }
        if v in after {
          var i: nat :| i < |classes| && classes[i].value == v;
          assert i < |init| ==> init[i].value == v;
        }
        assert classes[|init|].value == last.value;
      }
      assert after == before + {last.value};
    }
  }

  /** The first class of a value, or the number of classes. */
  function ClassOf(classes: seq<Class>, v: Value): (i: nat)
    ensures i <= |classes| && (i < |classes| ==> classes[i].value == v)
    ensures forall j: nat :: j < i ==> classes[j].value != v
  {
    if classes == [] then 0
    else
      var i := ClassOf(classes[..|classes| - 1], v);
      if i < |classes| - 1 || classes[|classes| - 1].value == v then i else i + 1
  }

  function Inserted(classes: seq<Class>, k: Key, v: Value): seq<Class> {
    var i := ClassOf(classes, v);
    if i < |classes| then classes[i := Class(classes[i].keys + {k}, v)] else classes + [Class({k}, v)]
  }

  lemma InsertedCovers(classes: seq<Class>, k: Key, v: Value, k': Key)
    ensures Covered(Inserted(classes, k, v), k') <==> k' == k || Covered(classes, k')
  {
    var classes', i0 := Inserted(classes, k, v), ClassOf(classes, v);
    assert k in classes'[i0].keys;
    if i: nat :| i < |classes| && k' in classes[i].keys {
      assert k' in classes'[i].keys;
    }
    if k' != k && Covered(classes', k') {
      var i: nat :| i < |classes'| && k' in classes'[i].keys;
      assert i < |classes| && k' in classes[i].keys;
    }
  }

  lemma InsertedRepresents(classes: seq<Class>, table: map<Key, Value>, k: Key, v: Value)
    requires Represents(classes, table) && (k in table ==> table[k] == v)
    ensures Represents(Inserted(classes, k, v), table[k := v])
  {
    var classes', table' := Inserted(classes, k, v), table[k := v];
    forall k' | k' in table || k' == k
      ensures Covered(classes', k')
    {
      InsertedCovers(classes, k, v, k');
    }
    forall i: nat, k' | i < |classes'| && k' in classes'[i].keys
      ensures k' in table' && table'[k'] == classes'[i].value
    {
      if k' != k {
        assert k' in classes[i].keys;
      }
      if k' == k && i < |classes| && k in classes[i].keys {
        assert table[k] == classes[i].value;
      }
    }
  }

  /** An insertion keeps every key in one class exactly if the key is new or has this value already. */
  lemma InsertKeepsClasses(classes: seq<Class>, table: map<Key, Value>, k: Key, v: Value)
    requires Represents(classes, table)
    ensures (exists table' :: Represents(Inserted(classes, k, v), table')) <==> (k in table ==> table[k] == v)
  {
    if k in table ==> table[k] == v {
      InsertedRepresents(classes, table, k, v);
    } else {
      assert Covered(classes, k);
      var i: nat :| i < |classes| && k in classes[i].keys;
      var classes', j := Inserted(classes, k, v), ClassOf(classes, v);
      assert k in classes'[i].keys && classes'[i].value == table[k] && k in classes'[j].keys && classes'[j].value == v;
      forall table'
        ensures !Represents(classes', table')
      {
        if Represents(classes', table') {
          ValueOfKey(classes', table', i, k);
          ValueOfKey(classes', table', j, k);
        }
      }
    }
  }

  class EquivalenceClassMap {
    var storedData: seq<Class>
    /** The first value of every key. */
    ghost var table: map<Key, Value>

    ghost predicate Valid()
      reads this
    {
      Represents(storedData, table)
    }

    constructor ()
      ensures Valid() && table == map[]
    {
      storedData, table := [], map[];
    }

    /** Nothing keeps a caller from inserting one key with two values. */
    method TryEmplace(key: Key, val: Value) returns (inserted: bool)
      modifies `storedData
      ensures storedData == Inserted(old(storedData), key, val)
      ensures inserted <==> storedData != old(storedData)
      ensures (forall i: nat :: i < |old(storedData)| ==> old(storedData)[i].value != val) ==>
                storedData == old(storedData) + [Class({key}, val)]
      ensures forall i: nat :: i < |old(storedData)| && old(storedData)[i].value == val &&
                               (forall j: nat :: j < i ==> old(storedData)[j].value != val) ==>
                storedData == old(storedData)[i := Class(old(storedData)[i].keys + {key}, val)]
    {
      ghost var i0 := ClassOf(storedData, val);
      for i := 0 to |storedData|
        invariant i <= i0 && storedData == old(storedData)
      {
        if storedData[i].value == val {
          inserted := key !in storedData[i].keys;
          storedData := storedData[i := Class(storedData[i].keys + {key}, val)];
          assert !inserted ==> storedData[i] == old(storedData[i]);
          assert inserted ==> storedData[i].keys != old(storedData[i].keys);
          return;
        }
      }
      storedData := storedData + [Class({key}, val)];
      inserted := true;
    }

    /** The value is made only for a new key. */
    method GetOrInsertLazy(key: Key, makeV: () -> Value) returns (val: Value, hit: bool)
      requires Valid()
      modifies this
      ensures Valid() && hit == (key in old(table))
      ensures table == if hit then old(table) else old(table)[key := makeV()]
      ensures key in table && val == table[key]
    {
      for i := 0 to |storedData|
        invariant forall j: nat :: j < i ==> key !in storedData[j].keys
      {
        if key in storedData[i].keys {
          return storedData[i].value, true;
        }
      }
      val, hit := makeV(), false;
      InsertedRepresents(storedData, table, key, val);
      table := table[key := val];
      var _ := TryEmplace(key, val);
    }

    method FindValue(key: Key) returns (val: Option<Value>)
      requires Valid()
      ensures val == if key in table then Some(table[key]) else None
    {
      for i := 0 to |storedData|
        invariant forall j: nat :: j < i ==> key !in storedData[j].keys
      {
        if key in storedData[i].keys {
          return Some(storedData[i].value);
        }
      }
      val := None;
    }
  }

  function Zipped(keys: seq<set<Key>>, values: seq<Value>): (r: seq<Class>)
    requires |values| == |keys|
    ensures |r| == |keys| && forall i: nat :: i < |keys| ==> r[i].keys == keys[i] && r[i].value == values[i]
  {
    seq(|values|, i requires 0 <= i < |values| => Class(keys[i], values[i]))
  }

  /** The same, with values and key sets in two sequences. */
  class EquivalenceClassMapNG {
    var values: seq<Value>
    var keys: seq<set<Key>>
    ghost var table: map<Key, Value>

    ghost function Classes(): seq<Class>
      requires |values| == |keys|
      reads `values, `keys
    {
      Zipped(keys, values)
    }

    ghost predicate Valid()
      reads this
    {
      |values| == |keys| && Represents(Classes(), table)
    }

    constructor ()
      ensures Valid() && table == map[]
    {
      values, keys, table := [], [], map[];
    }

    method Insert(key: Key, val: Value) returns (i: nat, inserted: bool)
      requires |values| == |keys|
      modifies `values, `keys
      ensures |values| == |keys| && Classes() == Inserted(old(Classes()), key, val)
      ensures i == ClassOf(old(Classes()), val) < |values| && values[i] == val
      ensures inserted <==> Classes() != old(Classes())
    {
      ghost var classes := Classes();
      i := 0;
      while i != |values|
        invariant i <= |values| && i <= ClassOf(classes, val)
      {
        if values[i] == val {
          assert classes[i].value == val;
          inserted := key !in keys[i];
          keys := keys[i := keys[i] + {key}];
          assert Classes()[i].keys == classes[i].keys + {key};
          assert !inserted ==> Classes()[i] == classes[i];
          assert inserted ==> Classes()[i].keys != classes[i].keys;
          return;
        }
        assert classes[i].value != val;
        i := i + 1;
      }
      values := values + [val];
      keys := keys + [{key}];
      inserted := true;
    }

    method GetOrInsertLazy(key: Key, makeV: () -> Value) returns (val: Value, hit: bool)
      requires Valid()
      modifies this
      ensures Valid() && hit == (key in old(table))
      ensures table == if hit then old(table) else old(table)[key := makeV()]
      ensures key in table && val == table[key]
    {
      ghost var classes := Classes();
      for i := 0 to |keys|
        invariant forall j: nat :: j < i ==> key !in classes[j].keys
      {
        if key in keys[i] {
          assert key in classes[i].keys;
          return values[i], true;
        }
      }
      hit := false;
      InsertedRepresents(classes, table, key, makeV());
      table := table[key := makeV()];
      var i, _ := Insert(key, makeV());
      val := values[i];
    }
  }
}
