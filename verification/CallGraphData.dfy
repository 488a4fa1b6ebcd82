/** Saving a call graph as JSON and loading it again. */
module CallGraphJson {
  import opened Compressors
  import opened CallGraphs
  import opened Sequences

  type Name = string
  type Id = nat

  type CallGraphData = map<Name, seq<Id>>

  /** Lists are told apart by whether all their elements are numbers. */
  datatype Json = Null | Array(ids: seq<Id>) | MixedArray | Object(members: map<Name, Json>) | Other

  function Mapped<A, B>(s: seq<A>, f: A -> B): seq<B> {
    seq(|s|, i requires 0 <= i < |s| => f(s[i]))
  }

  ghost predicate IsListing<T(!new)>(order: seq<T>, keys: set<T>) {
    && (forall x :: x in order <==> x in keys)
    && Distinct(order)
  }

  lemma ListOneMore<T(!new)>(order: seq<T>, keys: set<T>, x: T)
    requires IsListing(order, keys) && x !in keys
    ensures IsListing(order + [x], keys + {x}) && (order + [x])[..|order|] == order
  {
  }

  /** The data after the functions in the given order have been printed; functions of one name share an entry. */
  ghost function Printed(g: CallGraph, nameOf: Function -> Name, idOf: CallSite -> Id, order: seq<Function>): CallGraphData
    requires forall f :: f in order ==> f in g.callersOf
  {
    if order == [] then map[]
    else
      var data, f := Printed(g, nameOf, idOf, order[..|order| - 1]), order[|order| - 1];
      data[nameOf(f) := Entry(data, nameOf(f)) + Mapped(g.callersOf[f], idOf)]
  }

  function Entry(data: CallGraphData, name: Name): seq<Id> {
    if name in data then data[name] else []
  }

  method PushIds(entry: seq<Id>, callers: seq<CallSite>, idOf: CallSite -> Id) returns (r: seq<Id>)
    ensures r == entry + Mapped(callers, idOf)
    ensures |r| == |entry| + |callers| && entry <= r && forall i: nat :: i < |callers| ==> r[|entry| + i] == idOf(callers[i])
  {
    r := entry;
    for i := 0 to |callers|
      invariant r == entry + Mapped(callers[..i], idOf)
    {
      r := r + [idOf(callers[i])];
    }
    assert callers[..|callers|] == callers;
  }

  method PrintData(g: CallGraph, nameOf: Function -> Name, idOf: CallSite -> Id)
    returns (data: CallGraphData, ghost order: seq<Function>)
    ensures IsListing(order, g.callersOf.Keys) && data == Printed(g, nameOf, idOf, order)
    ensures forall name :: name in data <==> exists f :: f in g.callersOf && nameOf(f) == name
    ensures forall name, id :: name in data ==>
              (id in data[name] <==> exists f, cs :: f in g.callersOf && nameOf(f) == name && cs in g.callersOf[f] && idOf(cs) == id)
  {
    data, order := map[], [];
    var todo := g.callersOf.Keys;
    while todo != {}
      invariant todo <= g.callersOf.Keys && IsListing(order, g.callersOf.Keys - todo)
      invariant data == Printed(g, nameOf, idOf, order)
      decreases todo
    {
      var f :| f in todo;
      todo := todo - {f};
      var entry := PushIds(Entry(data, nameOf(f)), g.callersOf[f], idOf);
      data := data[nameOf(f) := entry];
      ListOneMore(order, g.callersOf.Keys - todo - {f}, f);
      assert g.callersOf.Keys - todo - {f} + {f} == g.callersOf.Keys - todo;
      order := order + [f];
    }
    forall name
      ensures name in data <==> exists f :: f in g.callersOf && nameOf(f) == name
    {
      PrintedNames(g, nameOf, idOf, order, name);
    }
    forall name, id | name in data
      ensures id in data[name] <==> exists f, cs :: f in g.callersOf && nameOf(f) == name && cs in g.callersOf[f] && idOf(cs) == id
    {
      PrintedMembers(g, nameOf, idOf, order, name, id);
    }
  }

  ghost predicate NameIn(nameOf: Function -> Name, order: seq<Function>, name: Name) {
    exists f :: f in order && nameOf(f) == name
  }

  lemma {:induction false} PrintedNames(g: CallGraph, nameOf: Function -> Name, idOf: CallSite -> Id, order: seq<Function>, name: Name)
    requires forall f :: f in order ==> f in g.callersOf
    ensures name in Printed(g, nameOf, idOf, order) <==> NameIn(nameOf, order, name)
  {
    if order != [] {
      var init, last := order[..|order| - 1], order[|order| - 1];
      PrintedNames(g, nameOf, idOf, init, name);
      if f :| f in order && nameOf(f) == name {
        assert f in init || f == last;
      }
      assert last in order && forall f :: f in init ==> f in order;
    }
  }

  /** Functions that share a name share its entry, with the ids of all their callers. */
  lemma {:induction false} PrintedMembers(g: CallGraph, nameOf: Function -> Name, idOf: CallSite -> Id, order: seq<Function>,
                                          name: Name, id: Id)
    requires forall f :: f in order ==> f in g.callersOf
    ensures id in Entry(Printed(g, nameOf, idOf, order), name) <==> PrintedFrom(g, nameOf, idOf, order, name, id)
  {
    if order != [] {
      var init, last := order[..|order| - 1], order[|order| - 1];
      PrintedMembers(g, nameOf, idOf, init, name, id);
      MappedMembers(g.callersOf[last], idOf, id);
      if f, cs :| f in order && nameOf(f) == name && cs in g.callersOf[f] && idOf(cs) == id {
        assert f in init || f == last;
      }
      assert last in order && forall f :: f in init ==> f in order;
    }
  }

  ghost predicate PrintedFrom(g: CallGraph, nameOf: Function -> Name, idOf: CallSite -> Id, order: seq<Function>, name: Name, id: Id)
    requires forall f :: f in order ==> f in g.callersOf
  {
    exists f, cs :: f in order && nameOf(f) == name && cs in g.callersOf[f] && idOf(cs) == id
  }

  lemma MappedMembers<A, B>(s: seq<A>, f: A -> B, y: B)
    ensures y in Mapped(s, f) <==> exists x :: x in s && f(x) == y
  {
    if x :| x in s && f(x) == y {
      var i: nat :| i < |s| && s[i] == x;
      assert Mapped(s, f)[i] == y;
    }
  }

  /** Empty lists become null, and so does an empty call graph. */
  ghost function JsonFrom(data: CallGraphData): Json {
    if data == map[] then Null
    else Object(map name | name in data :: if data[name] == [] then Null else Array(data[name]))
  }

  method PushBackAll(ids: seq<Id>) returns (callers: Json)
    ensures callers == if ids == [] then Null else Array(ids)
  {
    callers := Null;
    for i := 0 to |ids|
      invariant callers == if i == 0 then Null else Array(ids[..i])
    {
      callers := Array((if callers.Array? then callers.ids else []) + [ids[i]]);
    }
    assert ids[..|ids|] == ids;
  }

  lemma OneMoreMember(data: CallGraphData, name: Name, ids: seq<Id>)
    requires name !in data
    ensures JsonFrom(data[name := ids]).Object?
    ensures var members: map<Name, Json> := if data == map[] then map[] else JsonFrom(data).members;
            JsonFrom(data[name := ids]).members == members[name := if ids == [] then Null else Array(ids)]
  {
    assert name in data[name := ids];
  }

  method PrintAsJson(data: CallGraphData) returns (json: Json)
    ensures json == JsonFrom(data) && (data == map[] ==> json.Null?)
    ensures data != map[] ==> json.Object? && json.members.Keys == data.Keys
    ensures data != map[] ==> forall name :: name in data ==>
              if data[name] == [] then json.members[name].Null? else json.members[name] == Array(data[name])
  {
    JsonByMembers(data);
    hide JsonFrom;
    json := Null;
    ghost var done: CallGraphData := map[];
    EmptyIsNull();
    var todo := data.Keys;
    while todo != {}
      invariant todo <= data.Keys && done == map name | name in data && name !in todo :: data[name]
      invariant json == JsonFrom(done) && (json.Object? <==> done != map[])
      decreases todo
    {
      var name :| name in todo;
      var members := if json.Object? then json.members else map[];
      var callers := PushBackAll(data[name]);
      OneMoreMember(done, name, data[name]);
      json := Object(members[name := callers]);
      todo := todo - {name};
      done := done[name := data[name]];
      assert name in done;
    }
    assert done == data;
  }

  lemma JsonByMembers(data: CallGraphData)
    ensures data == map[] ==> JsonFrom(data).Null?
    ensures data != map[] ==> JsonFrom(data).Object? && JsonFrom(data).members.Keys == data.Keys
    ensures data != map[] ==> forall name :: name in data ==>
              if data[name] == [] then JsonFrom(data).members[name].Null? else JsonFrom(data).members[name] == Array(data[name])
  {
  }

  lemma EmptyIsNull()
    ensures JsonFrom(map[]) == Null
  {
  }

  /** Members that are no lists count as empty; a list with anything but numbers, and anything but an object, is an
      error. */
  ghost function DataFrom(json: Json): Option<CallGraphData> {
    if json.Object? && forall name :: name in json.members ==> !json.members[name].MixedArray?
    then Some(map name | name in json.members :: if json.members[name].Array? then json.members[name].ids else [])
    else None
  }

  method GetDataFromJson(json: Json) returns (r: Option<CallGraphData>)
    ensures r == DataFrom(json)
    ensures r.Some? <==> json.Object? && forall name :: name in json.members ==> !json.members[name].MixedArray?
    ensures r.Some? ==> r.value.Keys == json.members.Keys && forall name :: name in r.value ==>
              r.value[name] == if json.members[name].Array? then json.members[name].ids else []
  {
    if !json.Object? {
      return None;
    }
    var data: CallGraphData := map[];
    var todo := json.members.Keys;
    while todo != {}
      invariant todo <= json.members.Keys
      invariant forall name :: name in json.members && name !in todo ==> !json.members[name].MixedArray?
      invariant data == map name | name in json.members && name !in todo ::
                          if json.members[name].Array? then json.members[name].ids else []
      decreases todo
    {
      var name :| name in todo;
      todo := todo - {name};
      data := data[name := []];
      match json.members[name]
      case Array(ids) => data := data[name := ids];
      case MixedArray => return None;
      case _ =>
    }
    assert data == map name | name in json.members :: if json.members[name].Array? then json.members[name].ids else [];
    r := Some(data);
  }

  /** The call graph after the named functions have been loaded in the given order; unknown names are skipped. */
  ghost function Loaded(data: CallGraphData, functionOf: Name -> Option<Function>, instOf: Id -> CallSite, order: seq<Name>): CallGraph
    requires forall name :: name in order ==> name in data
  {
    if order == [] then CallGraph(map[], map[])
    else
      var g, name := Loaded(data, functionOf, instOf, order[..|order| - 1]), order[|order| - 1];
      if functionOf(name).None? then g
      else g.WithFunction(functionOf(name).value).WithEdges(functionOf(name).value, Mapped(data[name], instOf))
  }

  method Deserialize(data: CallGraphData, functionOf: Name -> Option<Function>, instOf: Id -> CallSite)
    returns (g: CallGraph, ghost order: seq<Name>)
    ensures IsListing(order, data.Keys) && g == Loaded(data, functionOf, instOf, order) && Inverse(g)
    ensures forall f :: f in g.callersOf <==> exists name :: name in data && functionOf(name) == Some(f)
    ensures forall f, cs :: f in g.callersOf ==>
              (cs in g.callersOf[f] <==> exists name, id :: name in data && functionOf(name) == Some(f) && id in data[name] && instOf(id) == cs)
  {
    var builder := new CallGraphBuilder();
    order := [];
    var todo := data.Keys;
    while todo != {}
      invariant fresh(builder) && builder.Valid()
      invariant todo <= data.Keys && IsListing(order, data.Keys - todo)
      invariant builder.Graph() == Loaded(data, functionOf, instOf, order)
      decreases todo
    {
      hide Inverse, Indexed;
      var name :| name in todo;
      todo := todo - {name};
      if functionOf(name).Some? {
        AddCallers(builder, functionOf(name).value, Mapped(data[name], instOf));
      }
      ListOneMore(order, data.Keys - todo - {name}, name);
      assert data.Keys - todo - {name} + {name} == data.Keys - todo;
      order := order + [name];
    }
    g := builder.Graph();
    LoadedMembers(data, functionOf, instOf, order);
  }

  /** Names of one function add to the callers of that function. */
  lemma {:induction false} LoadedMembers(data: CallGraphData, functionOf: Name -> Option<Function>, instOf: Id -> CallSite,
                                         order: seq<Name>)
    requires forall name :: name in order ==> name in data
    ensures var g := Loaded(data, functionOf, instOf, order);
            && (forall f :: f in g.callersOf <==> exists name :: name in order && functionOf(name) == Some(f))
            && forall f, cs :: f in g.callersOf ==> (cs in g.callersOf[f] <==> LoadedFromAny(data, functionOf, instOf, order, f, cs))
  {
    if order != [] {
      var init, last := order[..|order| - 1], order[|order| - 1];
      LoadedMembers(data, functionOf, instOf, init);
      var before, g := Loaded(data, functionOf, instOf, init), Loaded(data, functionOf, instOf, order);
      assert forall name :: name in order <==> name in init || name == last;
      if functionOf(last).Some? {
        var h := functionOf(last).value;
        EdgesAreAppended(before.WithFunction(h), h, Mapped(data[last], instOf));
        forall f, cs | f in g.callersOf
          ensures cs in g.callersOf[f] <==> LoadedFromAny(data, functionOf, instOf, order, f, cs)
        {
          assert f in before.callersOf ==> (cs in before.callersOf[f] <==> LoadedFromAny(data, functionOf, instOf, init, f, cs));
          assert f !in before.callersOf ==> !LoadedFromAny(data, functionOf, instOf, init, f, cs);
          MappedMembers(data[last], instOf, cs);
        }
      }
    }
  }

  ghost predicate LoadedFromAny(data: CallGraphData, functionOf: Name -> Option<Function>, instOf: Id -> CallSite, order: seq<Name>,
                                f: Function, cs: CallSite)
    requires forall name :: name in order ==> name in data
  {
    exists name, id :: name in order && functionOf(name) == Some(f) && id in data[name] && instOf(id) == cs
  }

  method AddCallers(builder: CallGraphBuilder, f: Function, callers: seq<CallSite>)
    requires builder.Valid()
    modifies builder
    ensures builder.Valid() && builder.Graph() == old(builder.Graph()).WithFunction(f).WithEdges(f, callers)
  {
    hide Inverse, Indexed, CallGraph.WithEdge;
    ghost var g := builder.Graph().WithFunction(f);
    var vtx := builder.AddFunctionVertex(f);
    for i := 0 to |callers|
      invariant builder.Valid() && builder.Graph() == g.WithEdges(f, callers[..i])
      invariant f in builder.callersOf && builder.callersOf[f] == vtx
    {
      builder.AddCallEdgeTo(callers[i], f, vtx);
      assert callers[..i + 1][..i] == callers[..i];
    }
    assert callers[..|callers|] == callers;
  }

  /** Different functions have different names. */
  ghost predicate NamesApart(g: CallGraph, nameOf: Function -> Name) {
    forall f, f' :: f in g.callersOf && f' in g.callersOf && nameOf(f) == nameOf(f') ==> f == f'
  }

  lemma {:induction false} PrintedExactly(g: CallGraph, nameOf: Function -> Name, idOf: CallSite -> Id, order: seq<Function>)
    requires NamesApart(g, nameOf) && (forall f :: f in order ==> f in g.callersOf)
    requires Distinct(order)
    ensures var data := Printed(g, nameOf, idOf, order);
            && (forall name :: name in data ==> exists f :: f in order && nameOf(f) == name)
            && (forall f :: f in order ==> nameOf(f) in data && data[nameOf(f)] == Mapped(g.callersOf[f], idOf))
  {
    if order != [] {
      var init, last := order[..|order| - 1], order[|order| - 1];
      PrintedExactly(g, nameOf, idOf, init);
      assert last !in init;
      var data := Printed(g, nameOf, idOf, init);
      assert nameOf(last) !in data;
      assert [] + Mapped(g.callersOf[last], idOf) == Mapped(g.callersOf[last], idOf);
      assert forall f :: f in order <==> f in init || f == last;
    }
  }

  /** No function has two names. */
  ghost predicate FunctionsApart(functionOf: Name -> Option<Function>, order: seq<Name>) {
    forall i: nat, j: nat :: i < j < |order| && functionOf(order[i]).Some? ==> functionOf(order[i]) != functionOf(order[j])
  }

  /** name is the entry of f. */
  ghost predicate LoadedFrom(data: CallGraphData, functionOf: Name -> Option<Function>, instOf: Id -> CallSite, g: CallGraph,
                             name: Name, f: Function) {
    functionOf(name) == Some(f) && name in data && f in g.callersOf && g.callersOf[f] == Mapped(data[name], instOf)
  }

  lemma {:induction false} LoadedExactly(data: CallGraphData, functionOf: Name -> Option<Function>, instOf: Id -> CallSite,
                                         order: seq<Name>)
    requires (forall name :: name in order ==> name in data) && FunctionsApart(functionOf, order)
    ensures var g := Loaded(data, functionOf, instOf, order);
            && Inverse(g) && AllCalling(g)
            && (forall name :: name in order && functionOf(name).Some? ==>
                  LoadedFrom(data, functionOf, instOf, g, name, functionOf(name).value))
            && (forall f :: f in g.callersOf ==> exists name :: name in order && functionOf(name) == Some(f))
  {
    hide Inverse;
    if order == [] {
      EmptyGraph();
    } else {
      var init, last := order[..|order| - 1], order[|order| - 1];
      LoadedExactly(data, functionOf, instOf, init);
      assert forall name :: name in order <==> name in init || name == last;
      if functionOf(last).Some? {
        var g, f := Loaded(data, functionOf, instOf, init), functionOf(last).value;
        assert f !in g.callersOf;
        FunctionKeepsInverse(g, f);
        EdgesAreAppended(g.WithFunction(f), f, Mapped(data[last], instOf));
        assert [] + Mapped(data[last], instOf) == Mapped(data[last], instOf);
      }
    }
  }

  lemma EmptyGraph()
    ensures Inverse(CallGraph(map[], map[]))
  {
  }

  /** The readers undo the writers: on functions, and on the call sites that call them. */
  ghost predicate Undoes(g: CallGraph, nameOf: Function -> Name, idOf: CallSite -> Id,
                         functionOf: Name -> Option<Function>, instOf: Id -> CallSite) {
    && (forall f :: f in g.callersOf ==> functionOf(nameOf(f)) == Some(f))
    && (forall f, cs :: f in g.callersOf && cs in g.callersOf[f] ==> instOf(idOf(cs)) == cs)
  }

  /** The same functions with the same callers, and the same callees up to their order; call sites without
      callees are dropped. */
  ghost predicate Restored(g: CallGraph, h: CallGraph) {
    && h.callersOf == g.callersOf
    && (forall cs :: multiset(h.Callees(cs)) == multiset(g.Callees(cs)))
    && (forall cs :: cs in h.calleesAt <==> g.Callees(cs) != [])
  }

  /** Every function has its entry, and there are no other entries. */
  ghost predicate Written(g: CallGraph, nameOf: Function -> Name, idOf: CallSite -> Id, data: CallGraphData) {
    && (forall f :: f in g.callersOf ==> nameOf(f) in data && data[nameOf(f)] == Mapped(g.callersOf[f], idOf))
    && (forall name :: name in data ==> exists f :: f in g.callersOf && nameOf(f) == name)
  }

  lemma PrintedForListing(g: CallGraph, nameOf: Function -> Name, idOf: CallSite -> Id,
                          functionOf: Name -> Option<Function>, instOf: Id -> CallSite, order: seq<Function>)
    requires Undoes(g, nameOf, idOf, functionOf, instOf) && IsListing(order, g.callersOf.Keys)
    ensures Written(g, nameOf, idOf, Printed(g, nameOf, idOf, order))
  {
    hide Mapped, Printed;
    PrintedExactly(g, nameOf, idOf, order);
  }

  /** The readers tell apart what the writers have told apart. */
  lemma WrittenApart(g: CallGraph, nameOf: Function -> Name, idOf: CallSite -> Id,
                     functionOf: Name -> Option<Function>, instOf: Id -> CallSite, data: CallGraphData, names: seq<Name>)
    requires Undoes(g, nameOf, idOf, functionOf, instOf) && Written(g, nameOf, idOf, data) && IsListing(names, data.Keys)
    ensures FunctionsApart(functionOf, names)
  {
    forall i: nat, j: nat | i < j < |names| && functionOf(names[i]).Some?
      ensures functionOf(names[i]) != functionOf(names[j])
    {
      assert names[i] in names && names[j] in names;
      var f :| f in g.callersOf && nameOf(f) == names[i];
      var f' :| f' in g.callersOf && nameOf(f') == names[j];
      assert functionOf(names[i]) == Some(f) && functionOf(names[j]) == Some(f');
    }
  }

  lemma MappedBack(g: CallGraph, nameOf: Function -> Name, idOf: CallSite -> Id,
                   functionOf: Name -> Option<Function>, instOf: Id -> CallSite, f: Function)
    requires Undoes(g, nameOf, idOf, functionOf, instOf) && f in g.callersOf
    ensures Mapped(Mapped(g.callersOf[f], idOf), instOf) == g.callersOf[f]
  {
    var twice := Mapped(Mapped(g.callersOf[f], idOf), instOf);
    forall i: nat | i < |g.callersOf[f]|
      ensures twice[i] == g.callersOf[f][i]
    {
      assert g.callersOf[f][i] in g.callersOf[f];
    }
  }

  /** What has been printed for a function is what is loaded for it. */
  lemma EntryRestored(g: CallGraph, nameOf: Function -> Name, idOf: CallSite -> Id,
                      functionOf: Name -> Option<Function>, instOf: Id -> CallSite, data: CallGraphData, h: CallGraph, f: Function)
    requires Undoes(g, nameOf, idOf, functionOf, instOf) && f in g.callersOf
    requires nameOf(f) in data && data[nameOf(f)] == Mapped(g.callersOf[f], idOf)
    requires LoadedFrom(data, functionOf, instOf, h, nameOf(f), f)
    ensures f in h.callersOf && h.callersOf[f] == g.callersOf[f]
  {
    MappedBack(g, nameOf, idOf, functionOf, instOf, f);
  }

  lemma EntriesRestored(g: CallGraph, nameOf: Function -> Name, idOf: CallSite -> Id, functionOf: Name -> Option<Function>,
                        instOf: Id -> CallSite, data: CallGraphData, names: seq<Name>, h: CallGraph)
    requires Undoes(g, nameOf, idOf, functionOf, instOf) && Written(g, nameOf, idOf, data) && IsListing(names, data.Keys)
    requires forall name :: name in names && functionOf(name).Some? ==>
      LoadedFrom(data, functionOf, instOf, h, name, functionOf(name).value)
    requires forall f :: f in h.callersOf ==> exists name :: name in names && functionOf(name) == Some(f)
    ensures h.callersOf == g.callersOf
  {
    hide Mapped;
    forall f | f in g.callersOf
      ensures f in h.callersOf && h.callersOf[f] == g.callersOf[f]
    {
      assert nameOf(f) in names;
      EntryRestored(g, nameOf, idOf, functionOf, instOf, data, h, f);
    }
    forall f | f in h.callersOf
      ensures f in g.callersOf
    {
      var name :| name in names && functionOf(name) == Some(f);
      assert name in data;
      var f' :| f' in g.callersOf && nameOf(f') == name;
    }
  }

  /** Loading what was printed restores the functions and their callers. */
  lemma CallersRestored(g: CallGraph, nameOf: Function -> Name, idOf: CallSite -> Id,
                        functionOf: Name -> Option<Function>, instOf: Id -> CallSite, order: seq<Function>, names: seq<Name>)
    requires Undoes(g, nameOf, idOf, functionOf, instOf) && IsListing(order, g.callersOf.Keys)
    requires IsListing(names, Printed(g, nameOf, idOf, order).Keys)
    ensures var h := Loaded(Printed(g, nameOf, idOf, order), functionOf, instOf, names);
            Inverse(h) && AllCalling(h) && h.callersOf == g.callersOf
  {
    hide Inverse, Printed, Loaded, Mapped, AllCalling, FunctionsApart, Written, Undoes;
    var data := Printed(g, nameOf, idOf, order);
    PrintedForListing(g, nameOf, idOf, functionOf, instOf, order);
    WrittenApart(g, nameOf, idOf, functionOf, instOf, data, names);
    LoadedExactly(data, functionOf, instOf, names);
    EntriesRestored(g, nameOf, idOf, functionOf, instOf, data, names, Loaded(data, functionOf, instOf, names));
  }

  /** Graphs with the same callers have the same callees. */
  lemma CalleesRestored(g: CallGraph, h: CallGraph)
    requires Inverse(g) && Inverse(h) && AllCalling(h) && h.callersOf == g.callersOf
    ensures Restored(g, h)
  {
    forall cs
      ensures multiset(h.Callees(cs)) == multiset(g.Callees(cs)) && (cs in h.calleesAt <==> g.Callees(cs) != [])
    {
      forall f
        ensures multiset(h.Callees(cs))[f] == multiset(g.Callees(cs))[f]
      {
        assert SameCount(g, cs, f) && SameCount(h, cs, f);
      }
      assert multiset(h.Callees(cs)) == multiset(g.Callees(cs));
      assert |h.Callees(cs)| == |multiset(h.Callees(cs))| == |multiset(g.Callees(cs))| == |g.Callees(cs)|;
    }
  }

  /** The JSON text carries the data faithfully, but for the empty graph, which cannot be loaded again. */
  lemma DataSurvivesJson(data: CallGraphData)
    ensures DataFrom(JsonFrom(data)) == if data == map[] then None else Some(data)
  {
    if data != map[] {
      var members := JsonFrom(data).members;
      assert data == map name | name in members :: if members[name].Array? then members[name].ids else [];
    }
  }

  /** Saves a call graph and loads it again. */
  method RoundTrip(g: CallGraph, nameOf: Function -> Name, idOf: CallSite -> Id,
                   functionOf: Name -> Option<Function>, instOf: Id -> CallSite)
    returns (r: Option<CallGraph>)
    requires Inverse(g) && Undoes(g, nameOf, idOf, functionOf, instOf)
    ensures r.Some? <==> g.callersOf != map[]
    ensures r.Some? ==> Restored(g, r.value)
  {
    ghost var order, names;
    var data, json, loaded, h;
    data, order := PrintData(g, nameOf, idOf);
    json := PrintAsJson(data);
    loaded := GetDataFromJson(json);
    DataSurvivesJson(data);
    PrintedExactly(g, nameOf, idOf, order);
    assert data == map[] <==> g.callersOf == map[] by {
      if f :| f in g.callersOf {
        assert f in order && nameOf(f) in data;
      }
      if name :| name in data {
        var f :| f in order && nameOf(f) == name;
        assert f in g.callersOf;
      }
    }
    if loaded.None? {
      return None;
    }
    h, names := Deserialize(loaded.value, functionOf, instOf);
    CallersRestored(g, nameOf, idOf, functionOf, instOf, order, names);
    CalleesRestored(g, h);
    r := Some(h);
  }
}
