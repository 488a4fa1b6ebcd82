/** Which frames of a program stand for a context that the enumeration visits. */
module ContextFrames {
  import opened Compressors
  import opened PointerAssignmentGraph
  import opened ContextAA
  import opened ContextChains

  /** Nothing calls the function in which the chain to f starts. */
  predicate Ends(g: CallGraphView, f: Function, chain: seq<CallSite>)
    requires g.Valid() && IsCallChain(g, f, chain)
    decreases |chain|
  {
    if chain == [] then g.Callers(f) == [] else Ends(g, g.functionOf[chain[0]], chain[1..])
  }

  /** The chain in the first places, and nothing in the others. */
  function Padded(k: nat, chain: seq<CallSite>): (c: Context)
    ensures |c| == k
  {
    seq(k, j requires 0 <= j < k => if j < |chain| then Some(chain[j]) else None)
  }

  /** On the way along the chain, no earlier caller of any function is reached by a chain that is longer than what
      remains of this one. */
  ghost predicate Visible(g: CallGraphView, f: Function, chain: seq<CallSite>)
    requires g.Valid()
    decreases |chain|
  {
    chain == [] || exists n: nat :: n < |g.Callers(f)| && VisibleThrough(g, f, chain, n)
  }

  ghost predicate VisibleThrough(g: CallGraphView, f: Function, chain: seq<CallSite>, n: nat)
    requires g.Valid() && chain != [] && n < |g.Callers(f)|
    decreases |chain|, 0
  {
    && g.Callers(f)[n] == chain[0]
    && (forall m: nat :: m < n ==> Spares(g, 0, f, m, |chain|))
    && Visible(g, CallerFunction(g, f, n), chain[1..])
  }

  /** cur with the chain filled in from place i on. */
  function Placed(cur: Context, i: nat, chain: seq<CallSite>): (c: Context)
    requires i + |chain| <= |cur|
    ensures |c| == |cur|
  {
    seq(|cur|, j requires 0 <= j < |cur| => if i <= j < i + |chain| then Some(chain[j - i]) else cur[j])
  }

  /** The buffer that the n-th caller finds behind the places i to i + |chain|, if the callers before it spare them. */
  lemma SparedBuffer(g: CallGraphView, k: nat, i: nat, f: Function, cur: Context, chain: seq<CallSite>, n: nat)
    requires g.Valid() && |cur| == k && chain != [] && i + |chain| <= k && n < |g.Callers(f)|
    requires forall m: nat :: m < n ==> Spares(g, 0, f, m, |chain|)
    ensures forall j: nat :: j < i || i + |chain| <= j < k ==> BufferAt(g, k, i, f, cur, n)[j] == cur[j]
  {
    forall j: nat | j < i || i + |chain| <= j < k
      ensures BufferAt(g, k, i, f, cur, n)[j] == cur[j]
    {
      forall m: nat | m < n
        ensures Spares(g, i, f, m, j)
      {
        assert Spares(g, 0, f, m, |chain|);
        if i <= j && HasCallChain(g, CallerFunction(g, f, m), j - i) {
          ShorterChain(g, CallerFunction(g, f, m), j - i, |chain|);
        }
      }
      BufferFrame(g, k, i, f, cur, n, j);
    }
  }

  lemma VisitedThrough(g: CallGraphView, k: nat, i: nat, f: Function, cur: Context, n: nat, c: Context)
    requires g.Valid() && |cur| == k && i < k && n < |g.Callers(f)| && c in VisitCaller(g, k, i, f, cur, n).0
    ensures c in VisitFrom(g, k, i, f, cur).0
  {
    CallersByIndex(g, k, i, f, cur, 0);
    assert VisitedFrom(g, k, i, f, cur, 0, c);
  }

  /** A chain that fills all places is visited, and so is a shorter one that ends and is visible. */
  lemma {:induction false} ChainIsPlaced(g: CallGraphView, k: nat, i: nat, f: Function, cur: Context, chain: seq<CallSite>)
    requires g.Valid() && |cur| == k && i + |chain| <= k && IsCallChain(g, f, chain)
    requires i + |chain| == k || (Ends(g, f, chain) && Visible(g, f, chain))
    ensures Placed(cur, i, chain) in VisitFrom(g, k, i, f, cur).0
    decreases |chain|
  {
    if i + |chain| == k {
      var c := ChainVisited(g, k, i, f, cur, chain);
      FrameAll(g, k, i, f, cur, c);
      forall j: nat | j < k
        ensures c[j] == Placed(cur, i, chain)[j]
      {
        if j < i {
          assert Untouched(g, f, i, j);
        } else {
          assert c[i + (j - i)] == Some(chain[j - i]);
        }
      }
      assert c == Placed(cur, i, chain);
    } else if chain == [] {
      assert Placed(cur, i, chain) == cur;
    } else {
      var n: nat :| n < |g.Callers(f)| && VisibleThrough(g, f, chain, n);
      var caller, before := CallerFunction(g, f, n), BufferAt(g, k, i, f, cur, n);
      ChainIsPlaced(g, k, i + 1, caller, before[i := Some(chain[0])], chain[1..]);
      SparedBuffer(g, k, i, f, cur, chain, n);
      assert Placed(before[i := Some(chain[0])], i + 1, chain[1..]) == Placed(cur, i, chain);
      assert Placed(cur, i, chain) in VisitCaller(g, k, i, f, cur, n).0;
      VisitedThrough(g, k, i, f, cur, n, Placed(cur, i, chain));
    }
  }

  /** A place that is empty in a context through the n-th caller has been spared by all callers before it. */
  lemma EmptyIsSpared(g: CallGraphView, k: nat, i: nat, f: Function, cur: Context, d: nat, n: nat, c: Context)
    requires g.Valid() && |cur| == k && 0 < d && i + d < k && n < |g.Callers(f)|
    requires c in VisitCaller(g, k, i, f, cur, n).0 && |c| == k && c[i + d] == None
    ensures forall m: nat :: m < n ==> Spares(g, 0, f, m, d)
  {
    hide CallGraphView.Valid, VisitFrom, BufferAt;
    FrameAll(g, k, i + 1, CallerFunction(g, f, n), BufferAt(g, k, i, f, cur, n)[i := Some(g.Callers(f)[n])], c);
    BufferFrame(g, k, i, f, cur, n, i + d);
    forall m: nat | m < n
      ensures Spares(g, 0, f, m, d)
    {
      assert Spares(g, i, f, m, i + d);
    }
  }

  /** A visited context that is empty behind a chain shows that the chain is visible. */
  lemma {:induction false} VisitedIsVisible(g: CallGraphView, k: nat, i: nat, f: Function, cur: Context, chain: seq<CallSite>,
                                            c: Context)
    requires g.Valid() && |cur| == k && i + |chain| < k && IsCallChain(g, f, chain)
    requires c in VisitFrom(g, k, i, f, cur).0 && |c| == k && c[i + |chain|] == None
    requires forall j: nat :: j < |chain| ==> c[i + j] == Some(chain[j])
    ensures Visible(g, f, chain)
    decreases |chain|
  {
    hide CallGraphView.Valid, VisitFrom, BufferAt;
    if chain != [] {
      FirstPlace(g, k, i, f, cur, c);
      var n: nat :| n < |g.Callers(f)| && c[i] == Some(g.Callers(f)[n]) && c in VisitCaller(g, k, i, f, cur, n).0;
      assert c[i + 0] == Some(chain[0]);
      var caller, buffer := CallerFunction(g, f, n), BufferAt(g, k, i, f, cur, n)[i := Some(g.Callers(f)[n])];
      EmptyIsSpared(g, k, i, f, cur, |chain|, n, c);
      forall j: nat | j < |chain[1..]|
        ensures c[i + 1 + j] == Some(chain[1..][j])
      {
        assert c[i + (1 + j)] == Some(chain[1 + j]);
      }
      VisitedIsVisible(g, k, i + 1, caller, buffer, chain[1..], c);
      assert VisibleThrough(g, f, chain, n);
    }
  }

  /** A visited context holds a chain of calls that fills all places or ends, and stale places behind it. */
  lemma {:induction false} VisitedIsChain(g: CallGraphView, k: nat, i: nat, f: Function, cur: Context, c: Context)
    returns (chain: seq<CallSite>)
    requires g.Valid() && |cur| == k && i <= k && c in VisitFrom(g, k, i, f, cur).0
    ensures IsCallChain(g, f, chain) && |c| == k && i + |chain| <= k && (i + |chain| == k || Ends(g, f, chain))
    ensures forall j: nat :: i <= j < i + |chain| ==> c[j] == Some(chain[j - i])
    decreases k - i
  {
    chain := [];
    VisitedLength(g, k, i, f, cur);
    if i < k && g.Callers(f) != [] {
      FirstPlace(g, k, i, f, cur, c);
      var n: nat :| n < |g.Callers(f)| && c[i] == Some(g.Callers(f)[n]) && c in VisitCaller(g, k, i, f, cur, n).0;
      var cs, caller := g.Callers(f)[n], CallerFunction(g, f, n);
      var outer := VisitedIsChain(g, k, i + 1, caller, BufferAt(g, k, i, f, cur, n)[i := Some(cs)], c);
      chain := [cs] + outer;
      assert chain[1..] == outer && cs in g.Callers(f);
      forall j: nat | i <= j < i + |chain|
        ensures c[j] == Some(chain[j - i])
      {
        assert j > i ==> chain[j - i] == outer[j - (i + 1)];
      }
    }
  }

  /** The contexts of a function and the chains of calls to it: each context begins with a chain that fills it or
      ends, and each such chain begins a context. */
  lemma ContextsAreChains(g: CallGraphView, k: nat, f: Function)
    requires g.Valid()
    ensures forall c: Context :: c in ContextSet(g, k, Some(f)) ==> exists chain :: Begins(g, k, f, c, chain)
    ensures forall chain: seq<CallSite> :: |chain| <= k && IsCallChain(g, f, chain) && (|chain| == k || Ends(g, f, chain)) ==>
              exists c: Context :: c in ContextSet(g, k, Some(f)) && Begins(g, k, f, c, chain)
  {
    hide ContextSet, IsCallChain, Ends, Begins, CallGraphView.Valid;
    forall c: Context | c in ContextSet(g, k, Some(f))
      ensures exists chain :: Begins(g, k, f, c, chain)
    {
      var _ := ContextBegins(g, k, f, c);
    }
    forall chain: seq<CallSite> | |chain| <= k && IsCallChain(g, f, chain) && (|chain| == k || Ends(g, f, chain))
      ensures exists c: Context :: c in ContextSet(g, k, Some(f)) && Begins(g, k, f, c, chain)
    {
      var _ := ChainBegins(g, k, f, chain);
    }
  }

  lemma ContextBegins(g: CallGraphView, k: nat, f: Function, c: Context) returns (chain: seq<CallSite>)
    requires g.Valid() && c in ContextSet(g, k, Some(f))
    ensures Begins(g, k, f, c, chain)
  {
    chain := VisitedIsChain(g, k, 0, f, NoContext(k), c);
  }

  lemma ChainBegins(g: CallGraphView, k: nat, f: Function, chain: seq<CallSite>) returns (c: Context)
    requires g.Valid() && |chain| <= k && IsCallChain(g, f, chain) && (|chain| == k || Ends(g, f, chain))
    ensures c in ContextSet(g, k, Some(f)) && Begins(g, k, f, c, chain)
  {
    c := ChainVisited(g, k, 0, f, NoContext(k), chain);
    assert forall j: nat :: j < |chain| ==> c[0 + j] == Some(chain[j]);
  }

  ghost predicate Begins(g: CallGraphView, k: nat, f: Function, c: Context, chain: seq<CallSite>)
    requires g.Valid()
  {
    && |c| == k && |chain| <= k && IsCallChain(g, f, chain) && (|chain| == k || Ends(g, f, chain))
    && forall j: nat :: j < |chain| ==> c[j] == Some(chain[j])
  }

  /** A chain that ends before the last place is a context of the function exactly if it is visible. */
  lemma PaddedVisitedExactly(g: CallGraphView, k: nat, f: Function, chain: seq<CallSite>)
    requires g.Valid() && |chain| <= k && IsCallChain(g, f, chain) && (|chain| == k || Ends(g, f, chain))
    ensures Padded(k, chain) in ContextSet(g, k, Some(f)) <==> |chain| == k || Visible(g, f, chain)
  {
    assert Placed(NoContext(k), 0, chain) == Padded(k, chain);
    if |chain| == k || Visible(g, f, chain) {
      ChainIsPlaced(g, k, 0, f, NoContext(k), chain);
    } else if Padded(k, chain) in ContextSet(g, k, Some(f)) {
      VisitedIsVisible(g, k, 0, f, NoContext(k), chain, Padded(k, chain));
    }
  }

  /** A frame is known by the latest k call sites that lead to it. Any function may have been entered from outside;
      values of no function belong to a frame without call sites. */
  predicate FrameOk(g: CallGraphView, k: nat, f: Option<Function>, calls: seq<CallSite>)
    requires g.Valid()
  {
    if f.None? then calls == [] else |calls| <= k && IsCallChain(g, f.value, calls)
  }

  /** The call site that leads to f, the first one if the frame was entered from outside. */
  function LatestCall(g: CallGraphView, f: Function, calls: seq<CallSite>): (cs: CallSite)
    requires g.Valid() && IsCallChain(g, f, calls) && (calls != [] || g.Callers(f) != [])
    ensures cs in g.Callers(f) && cs in g.functionOf && IsCallChain(g, g.functionOf[cs], Earlier(calls))
  {
    if calls == [] then g.Callers(f)[0] else calls[0]
  }

  function Earlier(calls: seq<CallSite>): seq<CallSite> {
    if calls == [] then [] else calls[1..]
  }

  /** What a frame that was entered from outside is taken for: as if the first caller of every function had called. */
  function Extended(g: CallGraphView, k: nat, f: Function, calls: seq<CallSite>): (r: seq<CallSite>)
    requires g.Valid() && |calls| <= k && IsCallChain(g, f, calls)
    ensures IsCallChain(g, f, r) && |r| <= k && calls <= r && (|r| == k || Ends(g, f, r))
  {
    if k == 0 || (calls == [] && g.Callers(f) == []) then []
    else
      var cs := LatestCall(g, f, calls);
      var outer := Extended(g, k - 1, g.functionOf[cs], Earlier(calls));
      assert ([cs] + outer)[1..] == outer;
      [cs] + outer
  }

  /** The context that a frame stands for. */
  function ContextOf(g: CallGraphView, k: nat, f: Option<Function>, calls: seq<CallSite>): Context
    requires g.Valid() && FrameOk(g, k, f, calls)
  {
    if f.None? then NoContext(k) else Padded(k, Extended(g, k, f.value, calls))
  }

  /** The latest k call sites. */
  function Latest(k: nat, calls: seq<CallSite>): seq<CallSite> {
    if |calls| <= k then calls else calls[..k]
  }

  lemma LatestOfMore(k: nat, cs: CallSite, calls: seq<CallSite>)
    ensures Latest(k + 1, [cs] + calls) == [cs] + Latest(k, calls)
    ensures Earlier([cs] + calls) == calls
  {
  }

  lemma {:induction false} ChainLatest(g: CallGraphView, k: nat, f: Function, calls: seq<CallSite>)
    requires g.Valid() && IsCallChain(g, f, calls)
    ensures IsCallChain(g, f, Latest(k, calls))
    decreases k
  {
    if k > 0 && calls != [] {
      assert calls == [calls[0]] + calls[1..];
      LatestOfMore(k - 1, calls[0], calls[1..]);
      ChainLatest(g, k - 1, g.functionOf[calls[0]], calls[1..]);
    }
  }

  lemma ExtendedUnfolds(g: CallGraphView, k: nat, f: Function, calls: seq<CallSite>)
    requires g.Valid() && |calls| <= k && IsCallChain(g, f, calls)
    ensures k == 0 || (calls == [] && g.Callers(f) == []) ==> Extended(g, k, f, calls) == []
    ensures k > 0 && (calls != [] || g.Callers(f) != []) ==>
              var cs := LatestCall(g, f, calls); Extended(g, k, f, calls) == [cs] + Extended(g, k - 1, g.functionOf[cs], Earlier(calls))
  {
  }

  lemma {:induction false} ExtendedLatest(g: CallGraphView, k: nat, f: Function, calls: seq<CallSite>)
    requires g.Valid() && |calls| <= k + 1 && IsCallChain(g, f, calls)
    ensures IsCallChain(g, f, Latest(k, calls))
    ensures Extended(g, k, f, Latest(k, calls)) == Latest(k, Extended(g, k + 1, f, calls))
    decreases k
  {
    hide IsCallChain, Latest, Ends, Extended, CallGraphView.Valid;
    ChainLatest(g, k, f, calls);
    LatestIsShort(k, calls);
    LatestIsShort(k, Extended(g, k + 1, f, calls));
    ExtendedUnfolds(g, k, f, Latest(k, calls));
    ExtendedUnfolds(g, k + 1, f, calls);
    if k > 0 && (calls != [] || g.Callers(f) != []) {
      var cs := LatestCall(g, f, calls);
      if calls != [] {
        assert calls == [cs] + Earlier(calls);
        LatestOfMore(k - 1, cs, Earlier(calls));
        LatestOfMore(k - 1, cs, Latest(k - 1, Earlier(calls)));
      }
      ExtendedLatest(g, k - 1, g.functionOf[cs], Earlier(calls));
      LatestIsShort(k - 1, Earlier(calls));
      LatestOfMore(k - 1, cs, Extended(g, k, g.functionOf[cs], Earlier(calls)));
    }
  }

  lemma LatestIsShort(k: nat, calls: seq<CallSite>)
    ensures |Latest(k, calls)| <= k && (calls == [] ==> Latest(k, calls) == []) && (k == 0 ==> Latest(k, calls) == [])
    ensures k > 0 && calls != [] ==> Latest(k, calls) != [] && Latest(k, calls)[0] == calls[0]
  {
  }

  /** A call puts its call site in front of the context. */
  lemma CalleeContext(g: CallGraphView, k: nat, cs: CallSite, f: Function, calls: seq<CallSite>)
    requires g.Valid() && k > 0 && cs in g.Callers(f) && FrameOk(g, k, Some(g.functionOf[cs]), calls)
    ensures FrameOk(g, k, Some(f), Latest(k, [cs] + calls))
    ensures ContextOf(g, k, Some(f), Latest(k, [cs] + calls)) == WithPrefix(ContextOf(g, k, Some(g.functionOf[cs]), calls), Some(cs))
  {
    hide IsCallChain, Extended, Latest, Ends, Padded, WithPrefix;
    var caller := g.functionOf[cs];
    var outer := Latest(k - 1, calls);
    ExtendedLatest(g, k - 1, caller, calls);
    LatestIsShort(k - 1, calls);
    LatestOfMore(k - 1, cs, calls);
    ExtendedCall(g, k, cs, f, outer);
    PaddedOfMore(k, cs, Extended(g, k, caller, calls));
  }

  lemma ExtendedCall(g: CallGraphView, k: nat, cs: CallSite, f: Function, outer: seq<CallSite>)
    requires g.Valid() && k > 0 && cs in g.Callers(f) && |outer| < k && IsCallChain(g, g.functionOf[cs], outer)
    ensures IsCallChain(g, f, [cs] + outer)
    ensures Extended(g, k, f, [cs] + outer) == [cs] + Extended(g, k - 1, g.functionOf[cs], outer)
  {
    assert ([cs] + outer)[1..] == outer;
  }

  lemma PaddedOfMore(k: nat, cs: CallSite, chain: seq<CallSite>)
    requires k > 0
    ensures Padded(k, [cs] + Latest(k - 1, chain)) == WithPrefix(Padded(k, chain), Some(cs))
  {
  }

  /** Every chain that ends before the last place is visible. */
  ghost predicate AllVisible(g: CallGraphView, k: nat, f: Function)
    requires g.Valid()
  {
    forall chain: seq<CallSite> :: |chain| < k && IsCallChain(g, f, chain) && Ends(g, f, chain) ==> Visible(g, f, chain)
  }

  /** All frames of a function stand for contexts that the enumeration visits exactly if all chains are visible. */
  lemma FramesVisitedExactly(g: CallGraphView, k: nat, f: Function)
    requires g.Valid()
    ensures AllVisible(g, k, f) <==>
            forall calls: seq<CallSite> :: FrameOk(g, k, Some(f), calls) ==> ContextOf(g, k, Some(f), calls) in ContextSet(g, k, Some(f))
  {
    forall calls: seq<CallSite> | AllVisible(g, k, f) && FrameOk(g, k, Some(f), calls)
      ensures ContextOf(g, k, Some(f), calls) in ContextSet(g, k, Some(f))
    {
      PaddedVisitedExactly(g, k, f, Extended(g, k, f, calls));
    }
    if forall calls: seq<CallSite> :: FrameOk(g, k, Some(f), calls) ==> ContextOf(g, k, Some(f), calls) in ContextSet(g, k, Some(f)) {
      forall chain: seq<CallSite> | |chain| < k && IsCallChain(g, f, chain) && Ends(g, f, chain)
        ensures Visible(g, f, chain)
      {
        assert FrameOk(g, k, Some(f), chain);
        EndedIsExtended(g, k, f, chain);
        PaddedVisitedExactly(g, k, f, chain);
      }
    }
  }

  lemma {:induction false} EndedIsExtended(g: CallGraphView, k: nat, f: Function, chain: seq<CallSite>)
    requires g.Valid() && |chain| <= k && IsCallChain(g, f, chain) && Ends(g, f, chain)
    ensures Extended(g, k, f, chain) == chain
    decreases |chain|
  {
    hide Extended, LatestCall;
    ExtendedUnfolds(g, k, f, chain);
    if chain != [] {
      assert LatestCall(g, f, chain) == chain[0] by { LatestIsFirst(g, f, chain); }
      EndedIsExtended(g, k - 1, g.functionOf[chain[0]], chain[1..]);
      assert chain == [chain[0]] + chain[1..];
    }
  }

  lemma LatestIsFirst(g: CallGraphView, f: Function, chain: seq<CallSite>)
    requires g.Valid() && IsCallChain(g, f, chain) && chain != []
    ensures LatestCall(g, f, chain) == chain[0]
  {
  }

  /** With call strings of length one there is nothing that could hide a chain. */
  lemma SingleCallIsVisible(g: CallGraphView, f: Function)
    requires g.Valid()
    ensures AllVisible(g, 1, f)
  {
  }
}
