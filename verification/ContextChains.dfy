/** Which contexts the enumeration of calling contexts visits. Its buffer is shared by all branches, so that a
    branch that runs out of callers early reports what longer branches before it have left behind. */
module ContextChains {
  import opened Compressors
  import opened PointerAssignmentGraph
  import opened ContextAA

  /** The chain leads to f: its first call site may call f, the next one may call the function of the first, and
      so on. */
  predicate IsCallChain(g: CallGraphView, f: Function, chain: seq<CallSite>)
    requires g.Valid()
    decreases |chain|
  {
    chain == [] || (chain[0] in g.Callers(f) && IsCallChain(g, g.functionOf[chain[0]], chain[1..]))
  }

  ghost predicate HasCallChain(g: CallGraphView, f: Function, m: nat)
    requires g.Valid()
  {
    exists chain :: |chain| == m && IsCallChain(g, f, chain)
  }

  lemma LongerChain(g: CallGraphView, f: Function, cs: CallSite, m: nat)
    requires g.Valid() && cs in g.Callers(f) && HasCallChain(g, g.functionOf[cs], m)
    ensures HasCallChain(g, f, m + 1)
  {
    var chain :| |chain| == m && IsCallChain(g, g.functionOf[cs], chain);
    var longer := [cs] + chain;
    assert longer[1..] == chain;
    assert IsCallChain(g, f, longer);
  }

  lemma ChainHead(g: CallGraphView, f: Function, m: nat) returns (n: nat)
    requires g.Valid() && m > 0 && HasCallChain(g, f, m)
    ensures n < |g.Callers(f)| && HasCallChain(g, CallerFunction(g, f, n), m - 1)
  {
    var chain :| |chain| == m && IsCallChain(g, f, chain);
    n :| n < |g.Callers(f)| && g.Callers(f)[n] == chain[0];
    assert |chain[1..]| == m - 1 && IsCallChain(g, CallerFunction(g, f, n), chain[1..]);
  }

  lemma NoCallChain(g: CallGraphView, f: Function)
    requires g.Valid()
    ensures HasCallChain(g, f, 0)
  {
    assert IsCallChain(g, f, []);
  }

  function CallerFunction(g: CallGraphView, f: Function, n: nat): Function
    requires g.Valid() && n < |g.Callers(f)|
  {
    assert g.Callers(f)[n] in g.Callers(f);
    g.functionOf[g.Callers(f)[n]]
  }

  /** The buffer before the n-th caller of f is entered. */
  function BufferAt(g: CallGraphView, k: nat, i: nat, f: Function, cur: Context, n: nat): (r: Context)
    requires g.Valid() && |cur| == k && i < k && n <= |g.Callers(f)|
    ensures |r| == k
    decreases n, 0
  {
    if n == 0 then cur else VisitCaller(g, k, i, f, cur, n - 1).1
  }

  function VisitCaller(g: CallGraphView, k: nat, i: nat, f: Function, cur: Context, n: nat): (r: (seq<Context>, Context))
    requires g.Valid() && |cur| == k && i < k && n < |g.Callers(f)|
    ensures |r.1| == k
    decreases n, 1
  {
    VisitFrom(g, k, i + 1, CallerFunction(g, f, n), BufferAt(g, k, i, f, cur, n)[i := Some(g.Callers(f)[n])])
  }

  ghost predicate VisitedFrom(g: CallGraphView, k: nat, i: nat, f: Function, cur: Context, n: nat, c: Context)
    requires g.Valid() && |cur| == k && i < k
  {
    exists m: nat :: n <= m < |g.Callers(f)| && c in VisitCaller(g, k, i, f, cur, m).0
  }

  lemma {:induction false} CallersByIndex(g: CallGraphView, k: nat, i: nat, f: Function, cur: Context, n: nat)
    requires g.Valid() && |cur| == k && i < k && n <= |g.Callers(f)|
    ensures var r := VisitCallers(g, k, i, f, n, BufferAt(g, k, i, f, cur, n));
            && r.1 == BufferAt(g, k, i, f, cur, |g.Callers(f)|)
            && forall c: Context :: c in r.0 <==> VisitedFrom(g, k, i, f, cur, n, c)
    decreases |g.Callers(f)| - n
  {
    if n < |g.Callers(f)| {
      CallersByIndex(g, k, i, f, cur, n + 1);
      var first := VisitCaller(g, k, i, f, cur, n);
      var rest := VisitCallers(g, k, i, f, n + 1, first.1);
      assert BufferAt(g, k, i, f, cur, n + 1) == first.1;
      assert VisitCallers(g, k, i, f, n, BufferAt(g, k, i, f, cur, n)) == (first.0 + rest.0, rest.1);
      forall c: Context
        ensures c in first.0 + rest.0 <==> VisitedFrom(g, k, i, f, cur, n, c)
      {
        assert c in rest.0 <==> VisitedFrom(g, k, i, f, cur, n + 1, c);
      }
    }
  }

  /** Place j is not written by visits that fill in the places from i on for f. */
  ghost predicate Untouched(g: CallGraphView, f: Function, i: nat, j: nat)
    requires g.Valid()
  {
    j < i || !HasCallChain(g, f, j - i + 1)
  }

  /** A place is written if some chain is long enough to reach it; it never becomes empty again. */
  lemma {:induction false} VisitFrame(g: CallGraphView, k: nat, i: nat, f: Function, cur: Context, j: nat)
    requires g.Valid() && |cur| == k && i <= k && j < k
    ensures var r := VisitFrom(g, k, i, f, cur);
            && (if Untouched(g, f, i, j) then r.1[j] == cur[j] else r.1[j].Some?)
            && (forall c: Context :: c in r.0 ==> |c| == k && (c[j] == cur[j] || (!Untouched(g, f, i, j) && c[j].Some?)))
    decreases k - i, 1, 0
  {
    if i < k && g.Callers(f) != [] {
      var n := |g.Callers(f)|;
      CallersByIndex(g, k, i, f, cur, 0);
      BufferFrame(g, k, i, f, cur, n, j);
      forall c: Context | c in VisitFrom(g, k, i, f, cur).0
        ensures |c| == k && (c[j] == cur[j] || (!Untouched(g, f, i, j) && c[j].Some?))
      {
        assert VisitedFrom(g, k, i, f, cur, 0, c);
        var m: nat :| m < n && c in VisitCaller(g, k, i, f, cur, m).0;
        BufferFrame(g, k, i, f, cur, m, j);
        CallerFrame(g, k, i, f, cur, m, j);
      }
      if !Untouched(g, f, i, j) {
        var m := ChainHead(g, f, j - i + 1);
        assert !Spares(g, i, f, m, j);
      }
    } else if !Untouched(g, f, i, j) {
      var _ := ChainHead(g, f, j - i + 1);
    }
  }

  /** The n-th caller of f leaves place j alone. */
  ghost predicate Spares(g: CallGraphView, i: nat, f: Function, n: nat, j: nat)
    requires g.Valid() && n < |g.Callers(f)|
  {
    j < i || !HasCallChain(g, CallerFunction(g, f, n), j - i)
  }

  lemma {:induction false} CallerFrame(g: CallGraphView, k: nat, i: nat, f: Function, cur: Context, n: nat, j: nat)
    requires g.Valid() && |cur| == k && i < k && n < |g.Callers(f)| && j < k
    ensures var r, b := VisitCaller(g, k, i, f, cur, n), BufferAt(g, k, i, f, cur, n);
            && (if Spares(g, i, f, n, j) then r.1[j] == b[j] else r.1[j].Some?)
            && (forall c: Context :: c in r.0 ==> |c| == k && (c[j] == b[j] || (!Spares(g, i, f, n, j) && c[j].Some?)))
            && (!Spares(g, i, f, n, j) ==> !Untouched(g, f, i, j))
    decreases k - i, 0, n, 1
  {
    VisitFrame(g, k, i + 1, CallerFunction(g, f, n), BufferAt(g, k, i, f, cur, n)[i := Some(g.Callers(f)[n])], j);
    NoCallChain(g, CallerFunction(g, f, n));
    if !Spares(g, i, f, n, j) {
      assert g.Callers(f)[n] in g.Callers(f);
      LongerChain(g, f, g.Callers(f)[n], j - i);
    }
  }

  lemma {:induction false} BufferFrame(g: CallGraphView, k: nat, i: nat, f: Function, cur: Context, n: nat, j: nat)
    requires g.Valid() && |cur| == k && i < k && n <= |g.Callers(f)| && j < k
    ensures (forall m: nat :: m < n ==> Spares(g, i, f, m, j)) ==> BufferAt(g, k, i, f, cur, n)[j] == cur[j]
    ensures (exists m: nat :: m < n && !Spares(g, i, f, m, j)) ==> BufferAt(g, k, i, f, cur, n)[j].Some? && !Untouched(g, f, i, j)
    decreases k - i, 0, n, 0
  {
    hide CallGraphView.Valid, VisitCaller, Spares, Untouched;
    if n > 0 {
      BufferFrame(g, k, i, f, cur, n - 1, j);
      CallerFrame(g, k, i, f, cur, n - 1, j);
    }
  }

  lemma FrameAll(g: CallGraphView, k: nat, i: nat, f: Function, cur: Context, c: Context)
    requires g.Valid() && |cur| == k && i <= k && c in VisitFrom(g, k, i, f, cur).0
    ensures |c| == k
    ensures forall j: nat :: j < k && Untouched(g, f, i, j) ==> c[j] == cur[j]
    ensures forall j: nat :: j < k && cur[j].Some? ==> c[j].Some?
  {
    VisitedLength(g, k, i, f, cur);
    forall j: nat | j < k
      ensures (Untouched(g, f, i, j) ==> c[j] == cur[j]) && (cur[j].Some? ==> c[j].Some?)
    {
      VisitFrame(g, k, i, f, cur, j);
    }
  }

  /** Every chain that fits into the remaining places is among the visited contexts. */
  lemma {:induction false} ChainVisited(g: CallGraphView, k: nat, i: nat, f: Function, cur: Context, chain: seq<CallSite>)
    returns (c: Context)
    requires g.Valid() && |cur| == k && i + |chain| <= k && IsCallChain(g, f, chain)
    ensures c in VisitFrom(g, k, i, f, cur).0 && |c| == k
    ensures forall j: nat :: j < |chain| ==> c[i + j] == Some(chain[j])
    decreases |chain|
  {
    if chain == [] {
      VisitedLength(g, k, i, f, cur);
      c := VisitFrom(g, k, i, f, cur).0[0];
    } else {
      var n: nat :| n < |g.Callers(f)| && g.Callers(f)[n] == chain[0];
      var buffer := BufferAt(g, k, i, f, cur, n)[i := Some(chain[0])];
      c := ChainVisited(g, k, i + 1, CallerFunction(g, f, n), buffer, chain[1..]);
      FrameAll(g, k, i + 1, CallerFunction(g, f, n), buffer, c);
      assert Untouched(g, CallerFunction(g, f, n), i + 1, i);
      CallersByIndex(g, k, i, f, cur, 0);
      assert c in VisitCaller(g, k, i, f, cur, n).0;
      assert VisitedFrom(g, k, i, f, cur, 0, c);
      forall j: nat | 0 < j < |chain|
        ensures c[i + j] == Some(chain[j])
      {
        assert c[i + 1 + (j - 1)] == Some(chain[1..][j - 1]);
      }
    }
  }

  /** A chain of m calls leads to the code that a value belongs to; nothing calls the code of a global value. */
  ghost predicate Called(g: CallGraphView, fo: Option<Function>, m: nat)
    requires g.Valid()
  {
    m == 0 || (fo.Some? && HasCallChain(g, fo.value, m))
  }

  /** The n-th caller of f is the call site cs, and neither the code around cs nor any caller before it can be
      reached through a chain that is longer than those to fo, as far as chains are told apart. */
  ghost predicate UnshadowedAt(g: CallGraphView, k: nat, fo: Option<Function>, cs: CallSite, f: Function, n: nat)
    requires g.Valid()
  {
    && n < |g.Callers(f)| && g.Callers(f)[n] == cs
    && forall m: nat, l: nat :: m <= n && l < k && HasCallChain(g, CallerFunction(g, f, m), l) ==> Called(g, fo, l)
  }

  ghost predicate Unshadowed(g: CallGraphView, k: nat, fo: Option<Function>, cs: CallSite, f: Function)
    requires g.Valid()
  {
    exists n: nat :: UnshadowedAt(g, k, fo, cs, f, n)
  }

  /** Some context of fo, extended by the call, is a context of the callee f. */
  ghost predicate ContextsMeet(g: CallGraphView, k: nat, fo: Option<Function>, cs: CallSite, f: Function)
    requires g.Valid()
  {
    exists ctx :: ctx in ContextSet(g, k, fo) && WithPrefix(ctx, Some(cs)) in ContextSet(g, k, Some(f))
  }

  lemma VisitedByIndex(g: CallGraphView, k: nat, f: Function, c: Context)
    requires g.Valid() && k > 0 && g.Callers(f) != []
    ensures c in ContextSet(g, k, Some(f)) <==> VisitedFrom(g, k, 0, f, NoContext(k), 0, c)
  {
    CallersByIndex(g, k, 0, f, NoContext(k), 0);
  }

  /** The longest of the chains to fo that fit into all places but one. */
  lemma LongestChain(g: CallGraphView, k: nat, fo: Option<Function>) returns (h: nat)
    requires g.Valid() && k > 0
    ensures h < k && Called(g, fo, h) && forall l: nat :: h < l < k ==> !Called(g, fo, l)
  {
    h := k - 1;
    while !Called(g, fo, h)
      invariant h < k && forall l: nat :: h < l < k ==> !Called(g, fo, l)
      decreases h
    {
      h := h - 1;
    }
  }

  /** The context of fo whose places hold a given chain and nothing else, but for the last place. */
  lemma ContextOfChain(g: CallGraphView, k: nat, fo: Option<Function>, chain: seq<CallSite>) returns (ctx: Context)
    requires g.Valid() && k > 0 && |chain| < k && (if fo.Some? then IsCallChain(g, fo.value, chain) else chain == [])
    requires forall l: nat :: |chain| < l < k ==> !Called(g, fo, l)
    ensures ctx in ContextSet(g, k, fo) && |ctx| == k
    ensures forall j: nat :: j < k - 1 ==> ctx[j] == if j < |chain| then Some(chain[j]) else None
  {
    if fo.None? {
      ctx := NoContext(k);
    } else {
      ctx := ChainVisited(g, k, 0, fo.value, NoContext(k), chain);
      FrameAll(g, k, 0, fo.value, NoContext(k), ctx);
      forall j: nat | |chain| <= j < k - 1
        ensures ctx[j] == None
      {
        assert !Called(g, fo, j + 1);
        assert Untouched(g, fo.value, 0, j);
      }
    }
  }

  /** The context of the callee that is reached through call site number n by the same chain. */
  lemma ContextOfCallee(g: CallGraphView, k: nat, fo: Option<Function>, cs: CallSite, f: Function, n: nat, chain: seq<CallSite>)
    returns (c: Context)
    requires g.Valid() && k > 0 && |chain| < k && UnshadowedAt(g, k, fo, cs, f, n)
    requires IsCallChain(g, CallerFunction(g, f, n), chain)
    requires forall l: nat :: |chain| < l < k ==> !Called(g, fo, l)
    ensures c in ContextSet(g, k, Some(f)) && |c| == k && c[0] == Some(cs)
    ensures forall j: nat :: 0 < j < k ==> c[j] == if j <= |chain| then Some(chain[j - 1]) else None
  {
    var caller, before := CallerFunction(g, f, n), BufferAt(g, k, 0, f, NoContext(k), n);
    var buffer := before[0 := Some(cs)];
    c := ChainVisited(g, k, 1, caller, buffer, chain);
    FrameAll(g, k, 1, caller, buffer, c);
    assert Untouched(g, caller, 1, 0);
    assert c in VisitCaller(g, k, 0, f, NoContext(k), n).0;
    assert VisitedFrom(g, k, 0, f, NoContext(k), 0, c);
    VisitedByIndex(g, k, f, c);
    forall j: nat | |chain| < j < k
      ensures c[j] == None
    {
      assert !Called(g, fo, j) && !HasCallChain(g, caller, j);
      assert Untouched(g, caller, 1, j);
      BufferFrame(g, k, 0, f, NoContext(k), n, j);
    }
    forall j: nat | 0 < j <= |chain|
      ensures c[j] == Some(chain[j - 1])
    {
      assert c[1 + (j - 1)] == Some(chain[j - 1]);
    }
  }

  lemma UnshadowedContextsMeet(g: CallGraphView, k: nat, fo: Option<Function>, cs: CallSite, f: Function)
    requires g.Valid() && k > 0 && cs in g.Callers(f) && (fo.None? || fo.value == g.functionOf[cs])
    requires Unshadowed(g, k, fo, cs, f)
    ensures ContextsMeet(g, k, fo, cs, f)
  {
    var n: nat :| UnshadowedAt(g, k, fo, cs, f, n);
    var h := LongestChain(g, k, fo);
    var chain: seq<CallSite> := [];
    if h > 0 {
      chain :| |chain| == h && IsCallChain(g, fo.value, chain);
    }
    var ctx := ContextOfChain(g, k, fo, chain);
    var c := ContextOfCallee(g, k, fo, cs, f, n, chain);
    var longer := WithPrefix(ctx, Some(cs));
    assert |longer| == |c| == k;
    forall j: nat | j < k
      ensures longer[j] == c[j]
    {
      assert j > 0 ==> longer[j] == ctx[j - 1];
    }
    assert longer == c;
  }

  /** A place that a caller up to the n-th one fills is filled in all contexts of the n-th caller. */
  lemma FilledPlace(g: CallGraphView, k: nat, f: Function, n: nat, c: Context, m: nat, l: nat)
    requires g.Valid() && n < |g.Callers(f)| && m <= n && l < k
    requires c in VisitCaller(g, k, 0, f, NoContext(k), n).0
    requires HasCallChain(g, CallerFunction(g, f, m), l) && (m == n ==> l <= 1)
    ensures |c| == k && c[l].Some?
  {
    var caller, before := CallerFunction(g, f, n), BufferAt(g, k, 0, f, NoContext(k), n);
    var buffer := before[0 := Some(g.Callers(f)[n])];
    FrameAll(g, k, 1, caller, buffer, c);
    if l == 0 {
      assert buffer[0].Some?;
    } else if m < n {
      assert !Spares(g, 0, f, m, l);
      BufferFrame(g, k, 0, f, NoContext(k), n, l);
      assert buffer[l].Some?;
    } else {
      var p := ChainHead(g, caller, 1);
      FirstPlace(g, k, 1, caller, buffer, c);
    }
  }

  lemma FirstPlace(g: CallGraphView, k: nat, i: nat, f: Function, cur: Context, c: Context)
    requires g.Valid() && |cur| == k && i < k && g.Callers(f) != [] && c in VisitFrom(g, k, i, f, cur).0
    ensures |c| == k && exists n: nat :: n < |g.Callers(f)| && c[i] == Some(g.Callers(f)[n]) && c in VisitCaller(g, k, i, f, cur, n).0
  {
    CallersByIndex(g, k, i, f, cur, 0);
    assert VisitedFrom(g, k, i, f, cur, 0, c);
    var n: nat :| n < |g.Callers(f)| && c in VisitCaller(g, k, i, f, cur, n).0;
    FrameAll(g, k, i + 1, CallerFunction(g, f, n), BufferAt(g, k, i, f, cur, n)[i := Some(g.Callers(f)[n])], c);
    assert Untouched(g, CallerFunction(g, f, n), i + 1, i);
  }

  lemma {:induction false} ShorterChain(g: CallGraphView, f: Function, m: nat, l: nat)
    requires g.Valid() && l <= m && HasCallChain(g, f, m)
    ensures HasCallChain(g, f, l)
    decreases l
  {
    if l == 0 {
      NoCallChain(g, f);
    } else {
      var n := ChainHead(g, f, m);
      ShorterChain(g, CallerFunction(g, f, n), m - 1, l - 1);
      assert g.Callers(f)[n] in g.Callers(f);
      LongerChain(g, f, g.Callers(f)[n], l - 1);
    }
  }

  /** Contexts of fo stay empty where no chain reaches. */
  lemma EmptyPlace(g: CallGraphView, k: nat, fo: Option<Function>, ctx: Context, l: nat)
    requires g.Valid() && ctx in ContextSet(g, k, fo) && 0 < l <= k && !Called(g, fo, l)
    ensures |ctx| == k && ctx[l - 1] == None
  {
    if fo.Some? {
      FrameAll(g, k, 0, fo.value, NoContext(k), ctx);
      assert Untouched(g, fo.value, 0, l - 1);
    }
  }

  lemma MeetingContextsAreUnshadowed(g: CallGraphView, k: nat, fo: Option<Function>, cs: CallSite, f: Function)
    requires g.Valid() && k > 0 && cs in g.Callers(f) && (fo.None? || fo.value == g.functionOf[cs])
    requires ContextsMeet(g, k, fo, cs, f)
    ensures Unshadowed(g, k, fo, cs, f)
  {
    var ctx :| ctx in ContextSet(g, k, fo) && WithPrefix(ctx, Some(cs)) in ContextSet(g, k, Some(f));
    var c := WithPrefix(ctx, Some(cs));
    FirstPlace(g, k, 0, f, NoContext(k), c);
    var n: nat :| n < |g.Callers(f)| && c[0] == Some(g.Callers(f)[n]) && c in VisitCaller(g, k, 0, f, NoContext(k), n).0;
    forall m: nat, l: nat | m <= n && l < k && HasCallChain(g, CallerFunction(g, f, m), l)
      ensures Called(g, fo, l)
    {
      if !Called(g, fo, l) {
        var l' := if m == n then 1 else l;
        ShorterChain(g, CallerFunction(g, f, m), l, l');
        FilledPlace(g, k, f, n, c, m, l');
        assert !Called(g, fo, l');
        EmptyPlace(g, k, fo, ctx, l');
        assert false;
      }
    }
    assert UnshadowedAt(g, k, fo, cs, f, n);
  }

  /** The contexts around a call and those of its callee meet exactly when no earlier branch of the enumeration
      has filled the places that the call leaves empty. */
  lemma ContextsMeetExactly(g: CallGraphView, k: nat, fo: Option<Function>, cs: CallSite, f: Function)
    requires g.Valid() && k > 0 && cs in g.Callers(f) && (fo.None? || fo.value == g.functionOf[cs])
    ensures ContextsMeet(g, k, fo, cs, f) <==> Unshadowed(g, k, fo, cs, f)
  {
    if Unshadowed(g, k, fo, cs, f) {
      UnshadowedContextsMeet(g, k, fo, cs, f);
    }
    if ContextsMeet(g, k, fo, cs, f) {
      MeetingContextsAreUnshadowed(g, k, fo, cs, f);
    }
  }
}
