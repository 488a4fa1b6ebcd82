/** The results of the union-find alias analyses: two queries that have to agree with each other, their
    intersection, and a lazily filled cache in front of them. */
module AliasResults {
  import opened UnionFinds
  import opened Sequences

  type ValueId = nat
  type ObjectId = nat
  type RepId = nat

  /** Basic: one class per value. CallingContextSens: one class per calling context of the value.
      Intersection: both results have to report the alias. */
  datatype RawResult =
    | Basic(backwardView: seq<set<ValueId>>, var2Rep: seq<RepId>)
    | CallingContextSens(backwardView: seq<set<ValueId>>, var2Reps: seq<seq<RepId>>)
    | Intersection(first: RawResult, second: RawResult)
  {
    function Size(): nat {
      match this
      case Basic(_, var2Rep) => |var2Rep|
      case CallingContextSens(_, var2Reps) => |var2Reps|
      case Intersection(first, _) => first.Size()
    }

    /** Representatives are indexes of the backward view; intersected results are about the same values. */
    predicate Valid() {
      match this
      case Basic(view, var2Rep) => forall v: nat :: v < |var2Rep| ==> var2Rep[v] < |view|
      case CallingContextSens(view, var2Reps) =>
        forall v: nat, i: nat :: v < |var2Reps| && i < |var2Reps[v]| ==> var2Reps[v][i] < |view|
      case Intersection(first, second) => first.Valid() && second.Valid() && first.Size() == second.Size()
    }

    function GetRawAliasSet(v: ValueId): set<ValueId>
      requires Valid() && v < Size()
    {
      match this
      case Basic(view, var2Rep) => view[var2Rep[v]]
      case CallingContextSens(view, var2Reps) => UnionOf(view, var2Reps[v])
      case Intersection(first, second) => first.GetRawAliasSet(v) * second.GetRawAliasSet(v)
    }

    predicate MayAlias(v: ValueId, w: ValueId) {
      match this
      case Basic(_, var2Rep) =>
        v == w || (v < |var2Rep| && w < |var2Rep| && var2Rep[v] == var2Rep[w])
      case CallingContextSens(_, var2Reps) =>
        v == w || (v < |var2Reps| && w < |var2Reps| && exists rep :: rep in var2Reps[v] && rep in var2Reps[w])
      case Intersection(first, second) => first.MayAlias(v, w) && second.MayAlias(v, w)
    }
  }

  function UnionOf(view: seq<set<ValueId>>, reps: seq<RepId>): set<ValueId>
    requires forall i: nat :: i < |reps| ==> reps[i] < |view|
  {
    if reps == [] then {}
    else UnionOf(view, reps[..|reps| - 1]) + view[reps[|reps| - 1]]
  }

  lemma UnionOfMember(view: seq<set<ValueId>>, reps: seq<RepId>, w: ValueId)
    requires forall i: nat :: i < |reps| ==> reps[i] < |view|
    ensures w in UnionOf(view, reps) <==> exists rep :: rep in reps && w in view[rep]
  {
    if reps != [] {
      var init, last := reps[..|reps| - 1], reps[|reps| - 1];
      assert last in reps && reps == init + [last];
      UnionOfMember(view, init, w);
    }
  }

  ghost predicate InvertsBasic(view: seq<set<ValueId>>, var2Rep: seq<RepId>, included: set<ValueId>) {
    forall c: nat, w: nat {:trigger w in view[c]} :: c < |view| ==> (w in view[c] <==> w < |var2Rep| && w in included && var2Rep[w] == c)
  }

  /** The backward view inverts the representatives of the first n values. */
  ghost predicate Inverts(view: seq<set<ValueId>>, var2Reps: seq<seq<RepId>>, n: nat, included: set<ValueId>) {
    forall c: nat, w: nat :: c < |view| ==>
      (w in view[c] <==> w < n && w < |var2Reps| && w in included && c in var2Reps[w])
  }

  /** The result that a consume loop builds: the backward view inverts the map to representatives, restricted
      to the included values. */
  ghost predicate IsConsumed(r: RawResult, included: set<ValueId>) {
    r.Valid() &&
    match r
    case Basic(view, var2Rep) => InvertsBasic(view, var2Rep, included)
    case CallingContextSens(view, var2Reps) => Inverts(view, var2Reps, |var2Reps|, included)
    case Intersection(first, second) => IsConsumed(first, included) && IsConsumed(second, included)
  }

  /** A value that no class represents; it has an empty alias set and yet may alias itself. */
  ghost predicate Unrepresented(r: RawResult, v: ValueId) {
    match r
    case Basic(_, _) => false
    case CallingContextSens(_, var2Reps) => v < |var2Reps| && var2Reps[v] == []
    case Intersection(first, second) => Unrepresented(first, v) || Unrepresented(second, v)
  }

  /** The two queries agree on every included value, except on v itself when no class represents v. */
  lemma {:induction false} QueriesAgree(r: RawResult, included: set<ValueId>, v: ValueId, w: ValueId)
    requires IsConsumed(r, included) && v < r.Size() && w in included
    ensures w in r.GetRawAliasSet(v) <==> r.MayAlias(v, w) && !(v == w && Unrepresented(r, v))
  {
    match r
    case Basic(_, _) =>
    case CallingContextSens(view, var2Reps) =>
      UnionOfMember(view, var2Reps[v], w);
      if v == w && var2Reps[v] != [] {
        assert var2Reps[v][0] in var2Reps[v];
      }
    case Intersection(first, second) =>
      QueriesAgree(first, included, v, w);
      QueriesAgree(second, included, v, w);
  }

  /** Alias sets never contain values that were filtered out. */
  lemma {:induction false} OnlyIncluded(r: RawResult, included: set<ValueId>, v: ValueId, w: ValueId)
    requires IsConsumed(r, included) && v < r.Size() && w in r.GetRawAliasSet(v)
    ensures w in included && w < r.Size()
  {
    match r
    case Basic(_, _) =>
    case CallingContextSens(view, var2Reps) =>
      UnionOfMember(view, var2Reps[v], w);
    case Intersection(first, second) =>
      OnlyIncluded(first, included, v, w);
  }

  /** The queries agree everywhere exactly when every included value is represented. */
  lemma AgreementCondition(r: RawResult, included: set<ValueId>)
    requires IsConsumed(r, included)
    ensures (forall v: nat, w: nat :: v < r.Size() && w in included ==> (r.MayAlias(v, w) <==> w in r.GetRawAliasSet(v))) <==>
            (forall v: nat :: v < r.Size() && v in included ==> !Unrepresented(r, v))
  {
    forall v: nat, w: nat | v < r.Size() && w in included
      ensures w in r.GetRawAliasSet(v) <==> r.MayAlias(v, w) && !(v == w && Unrepresented(r, v))
    {
      QueriesAgree(r, included, v, w);
    }
    forall v: nat
      ensures r.MayAlias(v, v)
    {
      SelfAlias(r, v);
    }
    if v: nat :| v < r.Size() && v in included && Unrepresented(r, v) {
      assert !(r.MayAlias(v, v) <==> v in r.GetRawAliasSet(v));
    }
  }

  lemma {:induction r} SelfAlias(r: RawResult, v: ValueId)
    ensures r.MayAlias(v, v)
  {
  }

  /** Memoises alias sets; every set is computed at most once, on first access. */
  class CachedResult {
    const aaRes: RawResult
    const cacheMayAlias: bool
    var cache: map<ValueId, set<ValueId>>

    ghost predicate Valid()
      reads this
    {
      && aaRes.Valid()
      && (forall v :: v in cache ==> v < aaRes.Size() && cache[v] == aaRes.GetRawAliasSet(v))
    }

    constructor (aaRes: RawResult, cacheMayAlias: bool)
      requires aaRes.Valid()
      ensures Valid() && this.aaRes == aaRes && this.cacheMayAlias == cacheMayAlias
    {
      this.aaRes, this.cacheMayAlias, cache := aaRes, cacheMayAlias, map[];
    }

    method GetRawAliasSet(v: ValueId) returns (s: set<ValueId>)
      requires Valid() && v < aaRes.Size()
      modifies this
      ensures Valid()
      ensures s == aaRes.GetRawAliasSet(v)
      ensures v in cache && cache == old(cache)[v := s]
    {
      if v !in cache {
        cache := cache[v := aaRes.GetRawAliasSet(v)];
      }
      s := cache[v];
    }

    /** In every state of the cache the answer is the one of the uncached result, for every included value
        but a value without representative itself. */
    method MayAlias(v: ValueId, w: ValueId, ghost included: set<ValueId>) returns (b: bool)
      requires Valid() && v < aaRes.Size() && IsConsumed(aaRes, included)
      modifies this
      ensures Valid()
      ensures cacheMayAlias && w in included ==> b == (aaRes.MayAlias(v, w) && !(v == w && Unrepresented(aaRes, v)))
      ensures cacheMayAlias && w !in included ==> !b
      ensures !cacheMayAlias ==> b == aaRes.MayAlias(v, w) && cache == old(cache)
    {
      if cacheMayAlias {
        var s := GetRawAliasSet(v);
        b := w in s;
        if w in included {
          QueriesAgree(aaRes, included, v, w);
        } else if b {
          OnlyIncluded(aaRes, included, v, w);
        }
      } else {
        b := aaRes.MayAlias(v, w);
      }
    }
  }

  lemma InvertsOneMore(view: seq<set<ValueId>>, var2Rep: seq<RepId>, included: set<ValueId>, rep: RepId,
                       view': seq<set<ValueId>>)
    requires InvertsBasic(view, var2Rep, included) && rep < |view| == |view'|
    requires forall c: nat :: c < |view| ==>
               view'[c] == if c == rep && |var2Rep| in included then view[c] + {|var2Rep|} else view[c]
    ensures InvertsBasic(view', var2Rep + [rep], included)
  {
    var var2Rep' := var2Rep + [rep];
    forall c: nat, w: nat | c < |view'|
      ensures w in view'[c] <==> w < |var2Rep'| && w in included && var2Rep'[w] == c
    {
      assert w in view[c] <==> w < |var2Rep| && w in included && var2Rep[w] == c;
      if w < |var2Rep| {
        assert var2Rep'[w] == var2Rep[w];
        assert w in view'[c] <==> w in view[c];
      } else {
        assert w in view'[c] <==> c == rep && w == |var2Rep| && w in included;
      }
    }
  }

  /** Turns a finished partition of objects into a result about values. */
  method ConsumeBasic(sets: UnionFind, numVars: nat, var2Obj: seq<ObjectId>, included: set<ValueId>)
    returns (r: RawResult)
    requires IsPartition(sets.leaders) && |var2Obj| >= numVars
    requires forall v: nat :: v < numVars ==> var2Obj[v] < |sets.leaders|
    ensures r.Basic? && |r.var2Rep| == numVars && IsConsumed(r, included)
    ensures forall v: nat, w: nat :: v < numVars && w < numVars ==>
              (r.MayAlias(v, w) <==> Same(sets.leaders, var2Obj[v], var2Obj[w]))
  {
    var equiv, numClasses := sets.Compress();
    var view: seq<set<ValueId>> := seq(numClasses, _ => {});
    var var2Rep: seq<RepId> := [];
    for v := 0 to numVars
      invariant |var2Rep| == v && |view| == numClasses
      invariant forall w: nat :: w < v ==> var2Rep[w] == equiv[var2Obj[w]]
      invariant InvertsBasic(view, var2Rep, included)
    {
      var rep := equiv[var2Obj[v]];
      ghost var view0 := view;
      if v in included {
        view := view[rep := view[rep] + {v}];
      }
      InvertsOneMore(view0, var2Rep, included, rep, view);
      var2Rep := var2Rep + [rep];
    }
    r := Basic(view, var2Rep);
  }

  /** The same for values with one object per calling context. */
  method ConsumeCallingContextSens(sets: UnionFind, numVars: nat, var2Objs: seq<seq<ObjectId>>, included: set<ValueId>)
    returns (r: RawResult)
    requires IsPartition(sets.leaders) && |var2Objs| <= numVars
    requires forall v: nat, o :: v < |var2Objs| && o in var2Objs[v] ==> o < |sets.leaders|
    ensures r.CallingContextSens? && |r.var2Reps| == numVars && IsConsumed(r, included)
    ensures forall v: nat :: v < numVars ==> (Unrepresented(r, v) <==> v >= |var2Objs| || var2Objs[v] == [])
    ensures forall v: nat, w: nat :: v < |var2Objs| && w < |var2Objs| && v != w ==>
              (r.MayAlias(v, w) <==> exists o, q :: o in var2Objs[v] && q in var2Objs[w] && Same(sets.leaders, o, q))
  {
    var equiv, numClasses := sets.Compress();
    var view: seq<set<ValueId>> := seq(numClasses, _ => {});
    var var2Reps: seq<seq<RepId>> := seq(numVars, _ => []);
    for v := 0 to |var2Objs|
      invariant |var2Reps| == numVars && |view| == numClasses
      invariant forall w: nat :: v <= w < numVars ==> var2Reps[w] == []
      invariant forall w: nat :: w < v ==> RepsOf(equiv, var2Objs[w], var2Reps[w])
      invariant forall w: nat, i: nat :: w < v && i < |var2Reps[w]| ==> var2Reps[w][i] < numClasses
      invariant Inverts(view, var2Reps, v, included)
    {
      var reps: seq<RepId>;
      reps, view := ConsumeObjects(equiv, numClasses, view, v, var2Objs[v], v in included);
      var2Reps := var2Reps[v := reps];
    }
    RepsMeet(sets.leaders, equiv, numClasses, var2Objs, var2Reps);
    r := CallingContextSens(view, var2Reps);
  }

  /** reps lists the classes of the objects, each one once. */
  ghost predicate RepsOf(equiv: seq<nat>, objs: seq<ObjectId>, reps: seq<RepId>) {
    && (forall o: nat :: o in objs ==> o < |equiv| && equiv[o] in reps)
    && (forall c: nat :: c in reps ==> exists o: nat :: o in objs && o < |equiv| && equiv[o] == c)
    && Distinct(reps)
  }

  method ConsumeObjects(equiv: seq<nat>, numClasses: nat, view: seq<set<ValueId>>, v: ValueId, objs: seq<ObjectId>,
                        included: bool)
    returns (reps: seq<RepId>, view': seq<set<ValueId>>)
    requires |view| == numClasses
    requires forall o: nat :: o in objs ==> o < |equiv| && equiv[o] < numClasses
    requires forall c: nat :: c < numClasses ==> v !in view[c]
    ensures RepsOf(equiv, objs, reps) && |view'| == numClasses
    ensures forall i: nat :: i < |reps| ==> reps[i] < numClasses
    ensures forall c: nat :: c < numClasses ==> view'[c] == if included && c in reps then view[c] + {v} else view[c]
  {
    reps, view' := [], view;
    for i := 0 to |objs|
      invariant |view'| == numClasses && RepsOf(equiv, objs[..i], reps)
      invariant forall k: nat :: k < |reps| ==> reps[k] < numClasses
      invariant forall c: nat :: c < numClasses ==> view'[c] == if included && c in reps then view[c] + {v} else view[c]
    {
      var obj := objs[i];
      assert obj in objs;
      assert objs[..i + 1] == objs[..i] + [obj];
      var rep := equiv[obj];
      ghost var reps0 := reps;
      if included {
        if v !in view'[rep] {
          view' := view'[rep := view'[rep] + {v}];
          reps := reps + [rep];
        }
      } else if rep !in reps {
        reps := reps + [rep];
      }
      AddRep(equiv, objs[..i], reps0, obj);
    }
    assert objs[..|objs|] == objs;
  }

  lemma AddRep(equiv: seq<nat>, objs: seq<ObjectId>, reps: seq<RepId>, obj: ObjectId)
    requires RepsOf(equiv, objs, reps) && obj < |equiv|
    ensures RepsOf(equiv, objs + [obj], if equiv[obj] in reps then reps else reps + [equiv[obj]])
  {
    var reps' := if equiv[obj] in reps then reps else reps + [equiv[obj]];
    forall c: nat | c in reps'
      ensures exists o: nat :: o in objs + [obj] && o < |equiv| && equiv[o] == c
    {
      if c in reps {
        var o: nat :| o in objs && o < |equiv| && equiv[o] == c;
        assert o in objs + [obj];
      } else {
        assert obj in objs + [obj] && equiv[obj] == c;
      }
    }
  }

  lemma RepsMeet(p: Partition, equiv: seq<nat>, numClasses: nat, var2Objs: seq<seq<ObjectId>>, var2Reps: seq<seq<RepId>>)
    requires IsCompressed(p, equiv, numClasses) && |var2Objs| <= |var2Reps|
    requires forall w: nat :: w < |var2Objs| ==> RepsOf(equiv, var2Objs[w], var2Reps[w])
    ensures forall v: nat, w: nat :: v < |var2Objs| && w < |var2Objs| ==>
              ((exists c: nat :: c in var2Reps[v] && c in var2Reps[w]) <==>
               (exists o, q :: o in var2Objs[v] && q in var2Objs[w] && Same(p, o, q)))
    ensures forall w: nat :: w < |var2Objs| ==> (var2Reps[w] == [] <==> var2Objs[w] == [])
  {
    forall v: nat, w: nat | v < |var2Objs| && w < |var2Objs|
      ensures (exists c: nat :: c in var2Reps[v] && c in var2Reps[w]) <==>
              (exists o, q :: o in var2Objs[v] && q in var2Objs[w] && Same(p, o, q))
    {
      assert RepsOf(equiv, var2Objs[v], var2Reps[v]) && RepsOf(equiv, var2Objs[w], var2Reps[w]);
      if c: nat :| c in var2Reps[v] && c in var2Reps[w] {
        var o: nat :| o in var2Objs[v] && o < |equiv| && equiv[o] == c;
        var q: nat :| q in var2Objs[w] && q < |equiv| && equiv[q] == c;
        assert Same(p, o, q);
      }
      if o, q :| o in var2Objs[v] && q in var2Objs[w] && Same(p, o, q) {
        assert equiv[o] in var2Reps[v] && equiv[q] in var2Reps[w];
      }
    }
    forall w: nat | w < |var2Objs|
      ensures var2Reps[w] == [] <==> var2Objs[w] == []
    {
      assert RepsOf(equiv, var2Objs[w], var2Reps[w]);
      if var2Objs[w] != [] {
        assert var2Objs[w][0] in var2Objs[w];
      }
      if var2Reps[w] != [] {
        assert var2Reps[w][0] in var2Reps[w];
      }
    }
  }
}
