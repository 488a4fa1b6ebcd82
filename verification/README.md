# PhASAR: verified models of its graph and alias algorithms

PhASAR analyses programs along a call graph, control-flow graphs and a pointer-assignment graph. This project
models the algorithms behind that and proves what they promise. The names follow the source; where it changes state
step by step, the model is a class or a method with a loop, proved against a specification.

* **Call-graph components** (`CallGraphSccs`, `SccCallers`, on top of `Graphs`): the depth-first search with discovery
  times and low links, and the caller DAG of the components. Components are exact, numbered callees first, and every
  component is reached from the roots of the DAG. `CallGraphViews` derives what both of them ask for from a call graph
  whose two indexes are inverse.
* **Union-find alias analyses**. Values own objects; edges of the pointer-assignment graph (`PointerAssignmentGraph`)
  join objects; a result answers alias queries (`AliasResults`, `UnionFinds`).
  * `Machines` says what a program with memory may do along the edges, frame by frame.
  * `IndirectionAA` distinguishes depths of indirection; `IndirectionSoundness` shows that no run produces an alias that
    is missed, exactly from depth limit two on.
  * `ContextAA` distinguishes calling contexts; `ContextChains` says which contexts the enumeration with its shared
    buffer visits; `ContextSoundness` says exactly which edges join anything and which values alias in the end;
    `ContextFrames` says which frames stand for visited contexts, and `ContextRuns` that no alias is missed of any run
    along the call graph, for call strings of length one always, for longer ones if no frame's context is hidden.
    Functions may be entered from outside, whether they have callers or not.
  * `Intersections` runs both of these analyses and intersects their results.
  * `BottomupAA` propagates summaries over the components of the call graph; `BottomupSummaries` shows that its result
    without the top-down pass is the least equivalence that the edges ask for, `BottomupSoundy` what the top-down pass
    adds, `BottomupOrder` that components of the reversed call graph come in the order that it needs, and
    `BottomupLimits` what is lost otherwise.
* **Graph minimisation** (`LabelledGraphs`, `Minimizer`, `Coarsest`, `Quotient`, `QuotientPaths`): merging vertices to a
  fixpoint, exactly which vertices that merges, building the quotient graph, and both steps in sequence.
* **Control-flow order** (`CfgOrder`, on top of `Compressors`): the depth-first postorder, read backwards.
* **Call graphs with two indexes** (`CallGraphs`) and their way to JSON and back (`CallGraphJson`).
* **Containers** (with the notions of `Sequences`): the worklist that accepts elements while it is iterated over (`ArraySets`), bit sets as sequences of
  machine words (`Words`, `BitSets`), and memo tables by equal values (`EquivalenceClassMaps`).

## Where a promise has a limit

* With a single level of indirection a block copy joins nothing, and values that load from the copied memory are
  missed (`SingleDepthMissesCopies`). The indirection-sensitive analysis is sound on every graph if and only if the
  limit is at least two (`SoundExactlyFromDepthTwo`); without copies a limit of one suffices.
* With call strings longer than one, the buffer in which contexts are built keeps what longer branches have left
  behind. A call edge then joins nothing if an earlier caller of the callee, or the calling code itself, is reached by
  a longer chain of calls than the value that is passed (`EdgeJoinsExactly`). Between two values without other edges
  the alias is then missing from the result, and only then (`LoneEdgeAliases`); `StaleContextHidesCall` is a call graph
  with call strings of length two on which that happens. With call strings of length one it cannot happen. All frames of
  a function stand for visited contexts if and only if along no chain of calls to it an earlier caller is reached by a
  longer chain (`FramesVisitedExactly`); runs with such frames only are covered, provided that code that passes global
  values is not called itself (`UncoveredGlobalIsLost`).
* On cyclic graphs minimisation need not give the coarsest equivalence: two equal loops stay apart (`LoopsStayApart`).
  On every graph it merges exactly the vertices that match after finitely many edges (`MergedExactly`), and the coarsest
  bisimulation relates exactly those that no depth tells apart (`BisimilarExactly`). The square of the number of vertices
  bounds the depth that has to be looked at, so that both can be computed beforehand. The result is the coarsest one if
  and only if the latter implies the former at that depth (`CoarsestExactly`), as it does on all acyclic graphs.
* A value that no class represents aliases itself but has an empty alias set; the two queries agree everywhere exactly
  if there is no such value (`AgreementCondition`).
* An empty call graph is printed as null, which cannot be loaded again (`DataSurvivesJson`, `RoundTrip`).
* Inserting one key with two different values puts it into two classes (`InsertKeepsClasses`).
* The bottom-up pass never reports more than the edges ask for. If callee components have greater ids than caller
  components, as components of the reversed call graph have (`ReversedIsCalleesLater`; `computeCGSCCs` numbers the other
  way round), aliases stay inside their components if and only if no chain of other edges leads from one component to
  another (`InsideExactly`), and then every call is summarised. Through a global value such a chain can take the
  representative of a summarised class away, and a later call finds no summary (`GlobalHidesSummary`).

## Model

| member | source | states |
|---|---|---|
| `CallGraphSccs.ComputeCgSccs` | include/phasar/ControlFlow/CGSCCs.h:26-114 | both maps describe one partition of all functions; two functions share a component iff each reaches the other along calls, which are the callees listed for the call sites in the code; no call leads to a greater id |
| `CallGraphSccs.CallsExactly` | include/phasar/ControlFlow/CGSCCs.h:63-69 | a function calls exactly those that are listed, at any position, for any call site among its instructions |
| `CallGraphSccs.Search.Dfs` | include/phasar/ControlFlow/CGSCCs.h:55-105 | one search keeps the whole invariant of discovery times, low links, stack and emitted components; low links of older vertices stay |
| `CallGraphSccs.Search.VisitCallee` | include/phasar/ControlFlow/CGSCCs.h:68-80 | tree edges and back edges lower the low link to a discovery time that is witnessed on the stack and bounds everything looked at |
| `CallGraphSccs.Search.CloseComponent` | include/phasar/ControlFlow/CGSCCs.h:83-104 | popping down to the current function emits exactly that segment of the stack, in reverse |
| `CallGraphSccs.SegmentIsComponent` | include/phasar/ControlFlow/CGSCCs.h:83-104 | when low link and discovery time meet, the segment above is one strongly connected component |
| `CallGraphSccs.TreeEdgeWitness` | include/phasar/ControlFlow/CGSCCs.h:70-74 | the low link of an explored callee is again a reachable discovery time below the caller's |
| `CallGraphSccs.AllClosed` | include/phasar/ControlFlow/CGSCCs.h:107-113 | once every function is closed, the emitted lists are a partition into components, callees first |
| `SccCallers.ComputeCgSccCallers` | include/phasar/ControlFlow/CGSCCs.h:124-154 | an edge S to T exactly if S and T differ and some function of T calls one of S; roots are exactly the components whose calls all stay inside; no duplicates |
| `SccCallers.AddCallers` | include/phasar/ControlFlow/CGSCCs.h:134-147 | one function adds exactly the dependencies of its callers and removes them from the leaves |
| `SccCallers.DepsAreCalls` | include/phasar/ControlFlow/CGSCCs.h:137-146 | dependencies collected over callers are the calls between components, given inverse indexes |
| `SccCallers.CondensationIsAcyclic` | include/phasar/ControlFlow/CGSCCs.h:124-154 | the caller graph has no cycles |
| `SccCallers.EdgesIncrease` | include/phasar/ControlFlow/CGSCCs.h:137-144 | every edge of the caller graph goes to a greater id |
| `SccCallers.ReachableFromRoots` | include/phasar/ControlFlow/CGSCCs.h:149-151 | every component is reachable from some root |
| `CallGraphViews.IndexesAreInverse` | include/phasar/ControlFlow/CGSCCs.h:134-147 | a call graph with inverse indexes gives the search well-formed calls and the condensation callers that are inverse to them |
| `CallGraphViews.Condense` | include/phasar/ControlFlow/CGSCCs.h:26-154 | from such a call graph to its exact components and their acyclic condensation |
| `CallGraphViews.ContextViewIsValid` | include/phasar/Pointer/CallingContextConstructor.h:156-179 | every caller that the enumeration of contexts meets lies in a known function |
| `CfgOrder.ComputeCfgOrder` | include/phasar/ControlFlow/ControlFlowOrder.h:37-62 | keeps what was listed; the iteration contains exactly that and what the start points reach, each once; an edge goes forward unless it closes a cycle, and nothing but a start point comes before all its predecessors |
| `CfgOrder.Iterate` | include/phasar/ControlFlow/ControlFlowOrder.h:29-34 | visits everything listed, last to first |
| `CfgOrder.IterateCfg` | include/phasar/ControlFlow/ControlFlowOrder.h:26-62 | from the graph to the iteration: every reached instruction exactly once, along all edges that close no cycle, and after a predecessor unless it is a start point |
| `CfgOrder.LedIsAfter` | include/phasar/ControlFlow/ControlFlowOrder.h:41-57 | an instruction is listed before one that leads to it |
| `CfgOrder.Search.Visit` | include/phasar/ControlFlow/ControlFlowOrder.h:41-57 | one visit lists everything unseen behind the instruction and keeps the order invariant |
| `CfgOrder.BackwardsIsForward` | include/phasar/ControlFlow/ControlFlowOrder.h:29-34 | successors-first listing becomes predecessors-first iteration |
| `CfgOrder.Finish` | include/phasar/ControlFlow/ControlFlowOrder.h:46 | pushing an instruction on leaving its visit keeps the invariant |
| `Compressors.Compressor.Insert` | include/phasar/Utils/Compressor.h:52-58 | new elements get the next id, known ones keep theirs |
| `Compressors.Compressor.GetOrInsert` | include/phasar/Utils/Compressor.h:44-50 | the id of an element, the next one if it is new |
| `Compressors.Compressor.GetOrNull` | include/phasar/Utils/Compressor.h:66-72 | the id of a known element, nothing for others |
| `UnionFinds.JoinedSame` | include/phasar/Utils/UnionFind.h:35 | a join merges two classes and nothing else |
| `UnionFinds.JoinAllContains` | include/phasar/Utils/UnionFind.h:35 | any sequence of joins keeps what was together and puts all its pairs together |
| `UnionFinds.JoinAllLeast` | include/phasar/Utils/UnionFind.h:35 | no sequence of joins puts more together than its pairs force |
| `UnionFinds.JoinAllGrown` | include/phasar/Utils/UnionFind.h:41 | growing commutes with joins |
| `UnionFinds.UnionFind.Join` | include/phasar/Utils/UnionFind.h:35 | merges the classes and returns their common representative |
| `UnionFinds.UnionFind.Compress` | include/phasar/Utils/UnionFind.h:75-80 | dense class ids, equal exactly for members of one class, all of them used |
| `AliasResults.QueriesAgree` | include/phasar/Pointer/UnionFindAA.h:168-186 | for every included value, membership in the alias set is aliasing, but for a value without class itself; for basic, context-sensitive and intersected results |
| `AliasResults.AgreementCondition` | include/phasar/Pointer/UnionFindAA.h:202-227 | the queries agree everywhere iff every included value is represented |
| `AliasResults.OnlyIncluded` | include/phasar/Pointer/RawAAResult.h:42-50 | alias sets hold included values only, through intersections |
| `AliasResults.CachedResult.GetRawAliasSet` | include/phasar/Pointer/UnionFindAA.h:105-111 | in every state of the cache the answer is the uncached one; only the asked entry is added |
| `AliasResults.CachedResult.MayAlias` | include/phasar/Pointer/UnionFindAA.h:113-119 | in every state of the cache, cached and forwarded answers agree with the uncached result for included values |
| `AliasResults.ConsumeBasic` | include/phasar/Pointer/UnionFindAA.h:262-289 | the built result inverts its map and reports exactly the classes of the partition |
| `AliasResults.ConsumeCallingContextSens` | include/phasar/Pointer/UnionFindAA.h:379-408 | the built result reports exactly the values with objects in a common class |
| `AliasResults.ConsumeObjects` | include/phasar/Pointer/UnionFindAA.h:390-402 | every class of a value is listed once, included or not |
| `IndirectionAA.TargetDepthsExactly` | include/phasar/Pointer/UnionFindAA.h:474-509 | the switch over the kinds of edges finds exactly the depths that stand for what the kinds say about dereferences to any depth |
| `IndirectionAA.TargetDepthsClosed` | include/phasar/Pointer/UnionFindAA.h:474-509 | the joins of every kind of edge are closed under dereferencing both sides, also at the deepest level |
| `IndirectionAA.EdgesHeld` | include/phasar/Pointer/UnionFindAA.h:469-514 | after any sequence of edges all joins of every edge hold |
| `IndirectionAA.DereferenceCongruence` | include/phasar/Pointer/UnionFindAA.h:490-502 | objects in one class have their dereferences in one class |
| `IndirectionAA.AlikeExactly` | include/phasar/Pointer/UnionFindAA.h:469-514 | two depths are in one class iff every labelling puts them together that respects what the kinds of the edges say about dereferences |
| `IndirectionAA.AddValueGrows` | include/phasar/Pointer/UnionFindAA.h:516-530 | a new value changes nothing for the others, whatever edges came before |
| `IndirectionAA.IndirectionSensUnionFindAA.OnAddEdge` | include/phasar/Pointer/UnionFindAA.h:469-514 | puts together the depths that stand for equal dereferences, and nothing else; the partition stays the one determined by the objects and all edges so far |
| `IndirectionAA.IndirectionSensUnionFindAA.OnDepth` | include/phasar/Pointer/UnionFindAA.h:474-512 | the same for one depth of the source |
| `IndirectionAA.IndirectionSensUnionFindAA.OnAddValue` | include/phasar/Pointer/UnionFindAA.h:516-530 | one object per depth, owned by the value; all earlier objects stay |
| `IndirectionSoundness.Soundness` | include/phasar/Pointer/PointerAssignmentGraph.h:32-54 | over whole runs of the machine, values that ever hold addresses of one object are in one class |
| `IndirectionSoundness.StepTracks` | include/phasar/Pointer/PointerAssignmentGraph.h:32-54 | every step of the machine keeps what the classes know about values and memory |
| `IndirectionSoundness.SoundExactlyFromDepthTwo` | include/phasar/Pointer/UnionFindAA.h:475-478 | sound on all graphs iff the depth limit is at least two |
| `IndirectionSoundness.SingleDepthMissesCopies` | include/phasar/Pointer/UnionFindAA.h:475-478 | a program with a copy that depth limit one gets wrong |
| `IndirectionSoundness.AnalyzeProgram` | include/phasar/Pointer/UnionFindAA.h:532-544 | from the first value to the result: values alias iff the edges force their depths zero together, and so do values that ever hold addresses of one object |
| `ContextAA.ContextVisitor.Visit` | include/phasar/Pointer/CallingContextConstructor.h:156-179 | the recursion over one shared buffer reports the contexts of its functional account, and leaves the buffer as it says |
| `ContextAA.ShiftIn` | include/phasar/Pointer/CallingContextConstructor.h:43-53 | shifting in place puts the call site in front and drops the oldest |
| `ContextAA.SingleCallContexts` | include/phasar/Pointer/CallingContextConstructor.h:156-179 | for call strings of length one the contexts are exactly the callers, or none |
| `ContextAA.CallingContextSensUnionFindAA.OnAddValue` | include/phasar/Pointer/UnionFindAA.h:353-369 | a value gets one object for each visited context of its function, or the empty one; others stay |
| `ContextAA.CallingContextSensUnionFindAA.OnAddEdge` | include/phasar/Pointer/UnionFindAA.h:315-351 | joins exactly the objects whose contexts fit: the call site in front behind calls and returns, equal contexts elsewhere, the empty one in place of a missing one and for everything |
| `ContextAA.DemandedByContexts` | include/phasar/Pointer/UnionFindAA.h:315-351 | the same for the joins of single contexts |
| `ContextAA.CallingContextSensUnionFindAA.ConsumeAAResults` | include/phasar/Pointer/UnionFindAA.h:379-408 | every value is represented; two values alias exactly if some of their objects are in one class |
| `ContextChains.VisitFrame` | include/phasar/Pointer/CallingContextConstructor.h:157-178 | a place of the buffer is written iff some chain of calls is long enough to reach it, and never emptied again |
| `ContextChains.ChainVisited` | include/phasar/Pointer/CallingContextConstructor.h:163-174 | every chain of calls that fits is the beginning of a visited context |
| `ContextChains.ContextsMeetExactly` | include/phasar/Pointer/CallingContextConstructor.h:156-179 | a context around a call extends to one of the callee iff no earlier branch has filled the places that it leaves empty |
| `ContextSoundness.EdgeJoinsExactly` | include/phasar/Pointer/UnionFindAA.h:317-350 | for every length of call strings, a recorded edge joins objects of its two values iff no stale context comes between |
| `ContextSoundness.LocalEdgeJoins` | include/phasar/Pointer/UnionFindAA.h:338-349 | edges within a function, or next to a value of no function, always join something |
| `ContextSoundness.SingleCallSiteHonoursAll` | include/phasar/Pointer/UnionFindAA.h:318-337 | for call strings of length one every recorded call and return joins |
| `ContextSoundness.LongChainsHonour` | include/phasar/Pointer/CallingContextConstructor.h:156-179 | longer strings honour a call if the calling function is reached by chains of that length |
| `ContextSoundness.LoneEdgeAliases` | include/phasar/Pointer/UnionFindAA.h:315-351 | for every length of call strings, the ends of a single recorded edge alias iff no stale context comes between |
| `ContextSoundness.StaleContextHidesCall` | include/phasar/Pointer/CallingContextConstructor.h:163-178 | a call graph on which strings of length two lose an argument: it does not alias the parameter that it is passed to |
| `ContextSoundness.MeetingIsForced` | include/phasar/Pointer/UnionFindAA.h:315-351 | objects in one class have contexts that every labelling respecting the edges puts together |
| `ContextSoundness.ForcedMeet` | include/phasar/Pointer/UnionFindAA.h:315-351 | contexts that every such labelling puts together have objects in one class |
| `ContextSoundness.AnalyzeProgram` | include/phasar/Pointer/UnionFindAA.h:315-408 | from the first value to the result: values alias iff the edges force some of their contexts together, among them the ends of every honoured edge; the two queries agree |
| `ContextFrames.ContextsAreChains` | include/phasar/Pointer/CallingContextConstructor.h:156-179 | every visited context begins with a chain of calls that fills it or ends, and every such chain begins a visited context |
| `ContextFrames.PaddedVisitedExactly` | include/phasar/Pointer/CallingContextConstructor.h:156-179 | a chain of calls that ends before the last place is visited, with empty places behind it, iff along it no earlier caller is reached by a longer chain |
| `ContextFrames.FramesVisitedExactly` | include/phasar/Pointer/CallingContextConstructor.h:156-179 | all frames of a function, also those entered from outside, stand for visited contexts iff that holds of all its chains |
| `ContextFrames.CalleeContext` | include/phasar/Pointer/CallingContextConstructor.h:43-53 | the context of an entered frame is the one of the calling frame with the call site shifted in |
| `ContextRuns.HoldersAreForced` | include/phasar/Pointer/UnionFindAA.h:315-351 | for every length of call strings, over whole runs along a call graph without hidden chains, values that ever hold addresses of one object are put together by every labelling that respects the edges |
| `ContextRuns.SingleCallsCovered` | include/phasar/Pointer/UnionFindAA.h:353-369 | with call strings of length one every run along recorded calls is such a run |
| `ContextRuns.UncoveredGlobalIsLost` | include/phasar/Pointer/UnionFindAA.h:318-337 | with longer ones a global value passed from code that is called itself reaches nothing |
| `ContextRuns.AnalyzeProgram` | include/phasar/Pointer/UnionFindAA.h:315-408 | the result reports every alias of every run, with call strings of length one on all call graphs, with longer ones on those without hidden chains |
| `Intersections.IntersectionReports` | include/phasar/Pointer/RawAAResult.h:42-50 | two results that report every alias of a run do so when intersected |
| `Intersections.AnalyzeProgram` | include/phasar/Pointer/UnionFindAA.h:60-75 | both analyses on the same values and edges: values alias iff contexts and depths of indirection both force it, no alias of a covered run is missed, and the two queries agree |
| `BottomupAA.BottomupUnionFindAA.OnAddEdge` | include/phasar/Pointer/BottomupUnionFindAA.h:113-141 | a call or return whose ends have two different known components is recorded at the caller, with its formal summarised by the callee, and joins nothing; every other edge joins its ends |
| `BottomupAA.BottomupUnionFindAA.ApplySummary` | include/phasar/Pointer/BottomupUnionFindAA.h:193-214 | without a view nothing is joined; with one, only actual values of the classes that it meets are, and all of one class if its representative is up to date |
| `BottomupAA.BottomupUnionFindAA.ProcessCallSite` | include/phasar/Pointer/BottomupUnionFindAA.h:177-215 | nothing is joined but what views demand; each class of formals with a view has its actual values together afterwards unless it was displaced by another one, and every class has if components are in order |
| `BottomupAA.BottomupUnionFindAA.AddSummaries` | include/phasar/Pointer/BottomupUnionFindAA.h:219-222 | the views gain exactly the summarised values of the component, each under its representative |
| `BottomupAA.BottomupUnionFindAA.BottomupPropagation` | include/phasar/Pointer/BottomupUnionFindAA.h:171-224 | component by component, last one first, each of its call sites once and then its views; the partition never exceeds the least one that summarises all call sites; if components are in order it is that one, and no class spans two components |
| `BottomupAA.ViewStable` | include/phasar/Pointer/BottomupUnionFindAA.h:171-224 | joins in a caller leave the summaries of its callees alone |
| `BottomupAA.CallSiteSummarised` | include/phasar/Pointer/BottomupUnionFindAA.h:182-214 | the map from classes of formals to actual values suffices to summarise the call |
| `BottomupAA.BottomupUnionFindAA.TopdownCallSite` | include/phasar/Pointer/BottomupUnionFindAA.h:226-245 | parameters are together wherever arguments were before, although a representative is looked up only once |
| `BottomupAA.ParamFollows` | include/phasar/Pointer/BottomupUnionFindAA.h:230-243 | an outdated representative can miss an alias only if another parameter passes it on |
| `BottomupAA.BottomupUnionFindAA.TopdownPropagation` | include/phasar/Pointer/BottomupUnionFindAA.h:226-245 | classes only grow, every call site passes its aliases on, and only parameters of aliasing arguments are joined |
| `BottomupAA.BottomupUnionFindAA.ConsumeAAResults` | include/phasar/Pointer/BottomupUnionFindAA.h:155-168 | both passes in sequence, with what each guarantees, and a result that reports exactly the final classes |
| `BottomupSummaries.AnalyzeUnsound` | include/phasar/Pointer/BottomupUnionFindAA.h:113-168 | ends of local edges alias, and nothing does that the edges do not ask for; if components are in order, the aliases are the least equivalence with actual values together wherever formals are; in any case they come from a run of the pass over what was recorded |
| `BottomupSummaries.InsideExactly` | include/phasar/Pointer/BottomupUnionFindAA.h:113-141 | with callee components numbered later, aliases stay inside their components iff the other edges keep components apart |
| `BottomupSummaries.SummariesShow` | include/phasar/Pointer/BottomupUnionFindAA.h:171-224 | any two actual values at one call site whose formals alias do alias |
| `BottomupSummaries.LocalEdgesShow` | include/phasar/Pointer/BottomupUnionFindAA.h:113-141 | the ends of every edge that crosses no components alias in the result |
| `BottomupSummaries.SummariesShowNothingElse` | include/phasar/Pointer/BottomupUnionFindAA.h:171-224 | whatever the order of the components, no alias is reported beyond what the edges ask for |
| `BottomupSoundy.ParamsExactly` | include/phasar/Pointer/BottomupUnionFindAA.h:113-124 | the parameters recorded at a call site are exactly those that edges pass there |
| `BottomupSoundy.AnalyzeSoundy` | include/phasar/Pointer/BottomupUnionFindAA.h:113-168 | with both passes, parameters alias whose arguments were together after the bottom-up pass, and nothing is reported beyond what aliasing arguments ask for |
| `BottomupLimits.SummaryIsLost` | include/phasar/Pointer/BottomupUnionFindAA.h:182-222 | on a program with a global value, every run of the pass leaves two actual values apart whose formals are together |
| `BottomupLimits.GlobalHidesSummary` | include/phasar/Pointer/BottomupUnionFindAA.h:113-224 | so the reported aliases do not summarise the call, although callee components are numbered later |
| `BottomupOrder.ReversedExactly` | include/phasar/ControlFlow/CallGraphBase.h:190-199 | the edges to callers are the calls turned around |
| `BottomupOrder.ReversedIsCalleesLater` | include/phasar/Pointer/BottomupUnionFindAA.h:98-103 | components of the reversed call graph, numbered targets first, number callees after callers at every recorded call |
| `BottomupOrder.AnalyzeUnsound` | include/phasar/Pointer/BottomupUnionFindAA.h:98-168 | with that numbering aliases stay inside their components iff the other edges keep them apart, and then every call is summarised |
| `Minimizer.MinimizeGraph` | include/phasar/Utils/DFAMinimizer.h:82-182 | terminates on every graph with the finest labelling that is closed under merging, which is a bisimulation, as dense ids; equal ids are exactly those of vertices that agree on tag, degree, weights and ids of targets |
| `Minimizer.MergedByFields` | include/phasar/Utils/DFAMinimizer.h:94-155 | two vertices are merged iff they are equal or agree on tag, degree and edges by weight and merged target, in order or, for two edges, crosswise |
| `Minimizer.MergeRound` | include/phasar/Utils/DFAMinimizer.h:139-171 | a round keeps the pending pairs and shortens the worklist if it changes anything |
| `Minimizer.RemoveAt` | include/phasar/Utils/DFAMinimizer.h:128-132 | removes one pair; the index returned leads to the same place again |
| `Minimizer.WrapAround` | include/phasar/Utils/DFAMinimizer.h:131-140 | decrementing index zero and incrementing again is the identity |
| `Minimizer.DerivedIsBisimulation` | include/phasar/Utils/DFAMinimizer.h:137-172 | transitively closed classes of successive matches form a bisimulation, up to swapping two edges |
| `Minimizer.DerivedIsLeast` | include/phasar/Utils/DFAMinimizer.h:137-172 | successive matches merge nothing that a closed labelling keeps apart |
| `Coarsest.MergedExactly` | include/phasar/Utils/DFAMinimizer.h:82-182 | on every graph two vertices share a class iff they match after finitely many edges, in order or crosswise, and iff they do so at a depth that the size of the graph determines |
| `Coarsest.DepthSuffices` | include/phasar/Utils/DFAMinimizer.h:82-182 | matching at some depth, and at every depth, is decided at the square of the number of vertices |
| `Coarsest.BisimilarExactly` | include/phasar/Utils/DFAMinimizer.h:82-182 | on every graph some bisimulation relates two vertices iff no depth shows a difference between them, and iff that depth does not |
| `Coarsest.CoarsestExactly` | include/phasar/Utils/DFAMinimizer.h:82-182 | every bisimulation refines the result iff at that depth no two vertices are alike only because the search is cut off, which can be computed |
| `Coarsest.CoarsestOnAcyclicGraphs` | include/phasar/Utils/DFAMinimizer.h:82-182 | on acyclic graphs two vertices share a class iff they match recursively, in order or crosswise |
| `Coarsest.NoBisimulationIsCoarser` | include/phasar/Utils/DFAMinimizer.h:82-182 | on acyclic graphs every bisimulation refines the result |
| `Coarsest.LoopsStayApart` | include/phasar/Utils/DFAMinimizer.h:112-118 | a cyclic graph on which the result is not the coarsest bisimulation |
| `Quotient.CreateEquivalentGraphFrom` | include/phasar/Utils/DFAMinimizer.h:23-80 | terminates; nodes are the classes reached from the roots, with exactly the weights and target classes of the edges of their reached members, each once; roots are the classes of roots |
| `Quotient.Construction.HandleNext` | include/phasar/Utils/DFAMinimizer.h:51-73 | either a vertex is handled for the first time, or it pushes nothing and the list gets shorter |
| `Quotient.Construction.CopyEdge` | include/phasar/Utils/DFAMinimizer.h:60-72 | one edge is copied with its target's class and the target scheduled unless handled |
| `Quotient.ExhaustedIsQuotient` | include/phasar/Utils/DFAMinimizer.h:51-79 | an empty list means that the graph is the quotient |
| `Quotient.DedupOutEdges` | include/phasar/Utils/AdjacencyList.h:143-149 | same edges, each once |
| `Quotient.DedupOutEdgesSorted` | include/phasar/Utils/AdjacencyList.h:139-142 | whatever sorted rearrangement the sorting returns, dropping repetitions from it gives the same edges as before, each once |
| `QuotientPaths.PathsPreserved` | include/phasar/Utils/DFAMinimizer.h:23-80 | tag and weight sequences from the roots are the same in both graphs |
| `QuotientPaths.EdgesOfAnyMember` | include/phasar/Utils/DFAMinimizer.h:60-72 | a node has exactly the edges of any reached member of its class |
| `QuotientPaths.BisimulationIsAgreeable` | include/phasar/Utils/DFAMinimizer.h:82-182 | minimisation delivers what the quotient construction asks for |
| `QuotientPaths.Minimize` | include/phasar/Utils/DFAMinimizer.h:23-182 | both steps in sequence keep all labelled paths |
| `CallGraphs.EdgeKeepsInverse` | include/phasar/ControlFlow/CallGraph.h:236-240 | an edge keeps the number of occurrences equal in both indexes |
| `CallGraphs.QueriesLookUp` | include/phasar/ControlFlow/CallGraph.h:110-124 | callees and callers are the lists of the vertices, nothing for what is no vertex |
| `CallGraphs.CallGraphBuilder.AddCallEdge` | include/phasar/ControlFlow/CallGraph.h:203-207 | exactly the new edge is added to both indexes |
| `CallGraphs.CallGraphBuilder.AddCallEdgeFrom` | include/phasar/ControlFlow/CallGraph.h:211-214 | the same with the vertex of the call site at hand |
| `CallGraphs.CallGraphBuilder.AddCallEdgeTo` | include/phasar/ControlFlow/CallGraph.h:218-221 | the same with the vertex of the callee at hand |
| `CallGraphs.CallGraphBuilder.AddFunctionVertex` | include/phasar/ControlFlow/CallGraph.h:172-180 | a function becomes a vertex once, without callers at first |
| `CallGraphs.EdgesAreAppended` | include/phasar/ControlFlow/CallGraph.h:262-273 | loading callers appends them in order |
| `CallGraphJson.RoundTrip` | include/phasar/ControlFlow/CallGraph.h:62-79 | a call graph comes back with all functions, their callers in order and callees up to order, iff it has a function |
| `CallGraphJson.PrintedExactly` | include/phasar/ControlFlow/CallGraph.h:67-76 | one entry per function name with the ids of its callers |
| `CallGraphJson.PrintData` | include/phasar/ControlFlow/CallGraph.h:62-79 | an entry for the name of every function, with the ids of the callers of all functions of that name |
| `CallGraphJson.Deserialize` | include/phasar/ControlFlow/CallGraph.h:245-276 | the functions of the known names, with exactly the call sites listed under any of their names |
| `CallGraphJson.LoadedExactly` | include/phasar/ControlFlow/CallGraph.h:245-276 | every known name gives its function exactly the named callers, and the indexes are inverse |
| `CallGraphJson.CalleesRestored` | include/phasar/ControlFlow/CallGraph.h:245-276 | inverse indexes with the same callers have the same callees up to order |
| `CallGraphJson.PrintAsJson` | lib/ControlFlow/CallGraphData.cpp:35-46 | lists by name, with null for an empty list and for an empty graph |
| `CallGraphJson.GetDataFromJson` | lib/ControlFlow/CallGraphData.cpp:17-33 | a member that is no list counts as empty; a list with other elements than numbers is an error, and so is anything that is no object |
| `CallGraphJson.DataSurvivesJson` | lib/ControlFlow/CallGraphData.cpp:17-46 | reading undoes printing for all data but the empty one |
| `ArraySets.ArraySet.Insert` | include/phasar/Utils/ArraySet.h:41-53 | true iff the element is not pending; then it waits last |
| `ArraySets.ArraySet.Foreach` | include/phasar/Utils/ArraySet.h:72-84 | for every behaviour of the body, two buffers deliver what a single queue without repetitions delivers; on return both are empty |
| `ArraySets.EnqueuedInOrder` | include/phasar/Utils/ArraySet.h:41-53 | elements go in one after the other, behind all that wait |
| `ArraySets.DeliveredOnce` | include/phasar/Utils/ArraySet.h:41-84 | everything pending or accepted is delivered exactly once and in order, or still pending |
| `ArraySets.StaysDistinct` | include/phasar/Utils/ArraySet.h:41-53 | pending elements are free of duplicates |
| `BitSets.EqualExactly` | include/phasar/Utils/BitSet.h:173-192 | word-wise equality is equality of sets, whatever the widths |
| `BitSets.BitSet.IsSubsetOf` | include/phasar/Utils/BitSet.h:266-286 | word-wise inclusion is inclusion of sets, whatever the widths |
| `BitSets.BitSet.TryInsert` | include/phasar/Utils/BitSet.h:138-147 | adds the element; true iff the set changed |
| `BitSets.BitSet.TryErase` | include/phasar/Utils/BitSet.h:155-161 | removes the element; true iff the set changed |
| `BitSets.BitSet.TryMergeWith` | include/phasar/Utils/BitSet.h:166-169 | the union; true iff the set changed |
| `BitSets.BitSet.EraseAllOf` | include/phasar/Utils/BitSet.h:261-264 | the difference |
| `BitSets.BitSet.Foreach` | include/phasar/Utils/BitSet.h:223-241 | visits the members in ascending order, each once, all of them unless the handler stops |
| `Words.ClearLowest` | include/phasar/Utils/BitSet.h:230-232 | masking a word with its predecessor clears exactly the lowest one |
| `Words.LowestOne` | include/phasar/Utils/BitSet.h:231 | the number of trailing zeros is the position of the lowest one |
| `Words.SameBits` | include/phasar/Utils/BitSet.h:181-186 | words are equal iff they have the same bits |
| `EquivalenceClassMaps.EquivalenceClassMap.GetOrInsertLazy` | include/phasar/Utils/EquivalenceClassMap.h:140-162 | behaves as a table from keys to first values, and makes a value only for a new key |
| `EquivalenceClassMaps.EquivalenceClassMapNG.GetOrInsertLazy` | include/phasar/Utils/EquivalenceClassMap.h:266-275 | the same for the variant with two sequences |
| `EquivalenceClassMaps.EquivalenceClassMap.TryEmplace` | include/phasar/Utils/EquivalenceClassMap.h:126-138 | adds the key to the class of its value; true iff anything changed |
| `EquivalenceClassMaps.EquivalenceClassMap.FindValue` | include/phasar/Utils/EquivalenceClassMap.h:181-194 | the table's value of the key, if it has one |
| `EquivalenceClassMaps.InsertKeepsClasses` | include/phasar/Utils/EquivalenceClassMap.h:126-138 | an insertion keeps each key in one class iff the key is new or has this value |
| `EquivalenceClassMaps.OneClassEach` | include/phasar/Utils/EquivalenceClassMap.h:164-172 | a key is in the table iff some class holds it, and then exactly one does |
| `EquivalenceClassMaps.ClassPerValue` | include/phasar/Utils/EquivalenceClassMap.h:174-179 | there are as many classes as different values |

## Left out

- `llvm::IntEqClasses`, `ValueIdMap`, `StableVector` and sparse bit sets are modelled by contract: a partition whose representatives are the smallest members, maps, sequences and sets.
- ContextAA.CallingContextSensUnionFindAA.OnAddEdge: contexts serve as keys themselves instead of their interned ids, which are in one-to-one correspondence with them.
- ContextRuns.AnalyzeProgram: a frame is known by its latest calls, as many as a call string holds, and a number.
- ContextSoundness.AnalyzeProgram: all values are reported before all edges; the methods of the analysis allow any order.
- BottomupAA.BottomupUnionFindAA.TopdownPropagation: bounds the classes from below and above but does not determine them, because a pass over the call sites is not repeated until nothing changes.
- ArraySets.ArraySet.Foreach: the body is given by the elements that each of its calls inserts; a script that ends early stands for a body that does not return.
- BitSets.BitSet.Foreach: the handler is a function of the visits so far. `llvm::BitVector` is modelled as 64-bit words with clear bits behind the size; `llvm::SmallBitVector` is not part of this model.
- Quotient.DedupOutEdgesSorted: sorting is left to the standard library; its result, any rearrangement in order, is a parameter.
- CallGraphJson.RoundTrip: JSON is a map from names to lists of numbers, not text; call-site ids are not limited to 32 bits.
- EquivalenceClassMaps.EquivalenceClassMapNG.Insert: values are compared by equality, the default comparator.
- `Compressor::insertDummy`, `clear`, reservations, iterators and memory sizes.
- `visitContextsAtCall`, which is the same enumeration with its first place filled in.
- The component algorithms, traversal orders and topological sorting in `SCCGeneric.h`; `BottomupOrder` takes components that are numbered targets first as given.
- BottomupAA.BottomupUnionFindAA.BottomupPropagation: says nothing about the order in which hash tables list call sites and classes of formals.
- `PBStrategyCombinator`, which forwards values and edges one by one; `Intersections` reports them to one analysis after the other. The intersection of the bottom-up and the indirection-sensitive analysis.
- Moving node tags out of a graph while its quotient is built; the model copies them.
- LLVM, Clang and JSON libraries, files and streams, logging, timers, configuration, DOT and text output.
- Type-erased wrappers, tables of names and conversions between enumerations and strings.
- The join laws of small lattices, which are short case analyses.
- The order on bit-vector sets.
