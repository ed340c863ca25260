/** IntegerBranchAndBoundSparse: one search per connected component of the interaction graph. */
module SparseDriver {
  import opened Wrappers
  import opened SearchProblem
  import opened Search
  import opened InteractionGraph
  import opened GraphWorkList
  import opened Separable
  import opened Frontiers
  import opened Histories

  type InteractionMap = map<nat, set<nat>>

  ghost predicate ValidInteractions(n: nat, interactions: InteractionMap) {
    forall a :: a in interactions ==> a < n && forall b :: b in interactions[a] ==> b < n
  }

  /** Two different parameters interact if either one's entry lists the other. */
  ghost predicate Interact(interactions: InteractionMap, a: nat, b: nat) {
    a != b && ((a in interactions && b in interactions[a]) || (b in interactions && a in interactions[b]))
  }

  ghost predicate IsInteractionGraph(g: Graph, n: nat, interactions: InteractionMap) {
    && ValidGraph(g) && g.parameters == seq(n, i => i)
    && forall a, b :: Adjacent(g, a, b) <==> Interact(interactions, a, b)
  }

  /** The graph of the interactions of the keys in `done`, and of `others` with the key a. */
  ghost predicate BuiltSoFar(g: Graph, n: nat, interactions: InteractionMap, done: set<nat>, a: nat, others: set<nat>) {
    && ValidGraph(g) && g.parameters == seq(n, i => i)
    && forall x, y :: Adjacent(g, x, y) <==>
      x != y && ((x in done && x in interactions && y in interactions[x]) ||
                 (y in done && y in interactions && x in interactions[y])
                 || (x == a && y in others) || (y == a && x in others))
  }

  method AddInteraction(g: Graph, a: nat, b: nat) returns (h: Graph)
    requires ValidGraph(g) && a < |g.parameters| && b < |g.parameters| && g.parameters == seq(|g.parameters|, i => i)
    ensures ValidGraph(h) && h.parameters == g.parameters
    ensures forall x, y :: Adjacent(h, x, y) <==>
            Adjacent(g, x, y) || (a != b && ((x == a && y == b) || (x == b && y == a)))
  {
    h := g;
    if a != b {
      // edges are inserted with the lowest vertex first, and never twice
      var v1, v2 := if a < b then a else b, if a < b then b else a;
      if (v1, v2) !in g.edges {
        h := g.(edges := g.edges + [(v1, v2)]);
        AddEdge(g, v1, v2, 0, 0);
        forall x, y
          ensures Adjacent(h, x, y) <==> Adjacent(g, x, y) || (x == a && y == b) || (x == b && y == a)
        {
          AddEdge(g, v1, v2, x, y);
        }
      } else {
        var k :| 0 <= k < |g.edges| && g.edges[k] == (v1, v2);
        assert EdgeInside(g, k);
        assert Joins(g, k, v1, v2) && Joins(g, k, v2, v1);
      }
    }
  }

  method BuildInteractionGraph(n: nat, interactions: InteractionMap) returns (g: Graph)
    requires ValidInteractions(n, interactions)
    ensures IsInteractionGraph(g, n, interactions)
  {
    g := Graph(seq(n, i => i), []);
    var keys, done: set<nat> := interactions.Keys, {};
    while keys != {}
      invariant done + keys == interactions.Keys
      invariant BuiltSoFar(g, n, interactions, done, 0, {})
      decreases keys
    {
      var a :| a in keys;
      var left, others := interactions[a], {};
      while left != {}
        invariant others + left == interactions[a]
        invariant BuiltSoFar(g, n, interactions, done, a, others)
        decreases left
      {
        var b :| b in left;
        g := AddInteraction(g, a, b);
        left, others := left - {b}, others + {b};
      }
      keys, done := keys - {a}, done + {a};
    }
  }

  // ---- How big a search is ----

  lemma ProductExceedsSum(r: nat, w: nat)
    requires w > 0
    ensures (r + 1) * w >= r + w
  {
  }

  lemma ProductGrows(r: nat, x: nat, y: nat)
    requires r > 0 && x <= y
    ensures r * x <= r * y && y <= r * y
  {
  }

  lemma {:induction false} RangeSumBelowWeight(p: Problem, v: Vec, from: nat)
    requires |v| == |p.ranges| && from <= |v| && (forall i :: i in p.opt && 0 <= i < |v| ==> v[i].None?)
    ensures RangeSum(p.ranges, p.opt, from) < Weight(p, v, from)
    decreases |v| - from
  {
    if from < |v| {
      RangeSumBelowWeight(p, v, from + 1);
      ProductExceedsSum(p.ranges[from], Weight(p, v, from + 1));
    }
  }

  lemma {:induction false} WeightGrows(p: Problem, v: Vec, q: Problem, w: Vec, from: nat)
    requires p.ranges == q.ranges && |v| == |w| == |p.ranges| && from <= |v| && p.opt <= q.opt
    requires forall i :: 0 <= i < |v| ==> w[i].None?
    ensures Weight(p, v, from) <= Weight(q, w, from)
    decreases |v| - from
  {
    if from < |v| {
      WeightGrows(p, v, q, w, from + 1);
      ProductGrows(p.ranges[from] + 1, Weight(p, v, from + 1), Weight(q, w, from + 1));
    }
  }

  lemma ModuloAdd(size: nat, r: nat, rest: nat)
    ensures ((size + r) % SIZE_RANGE + rest) % SIZE_RANGE == (size + (r + rest)) % SIZE_RANGE
  {
    var k := (size + r) / SIZE_RANGE;
    assert size + r == k * SIZE_RANGE + (size + r) % SIZE_RANGE;
  }

  /** log(search space size) as the driver computes it, in a size_t. */
  method SearchSpaceSize(ranges: seq<nat>, S: set<nat>) returns (size: nat)
    ensures size == RangeSum(ranges, S, 0) % SIZE_RANGE
  {
    size := 0;
    for i := 0 to |ranges|
      invariant (size + RangeSum(ranges, S, i)) % SIZE_RANGE == RangeSum(ranges, S, 0) % SIZE_RANGE
      invariant size < SIZE_RANGE
    {
      if i in S {
        ModuloAdd(size, ranges[i], RangeSum(ranges, S, i + 1));
        size := (size + ranges[i]) % SIZE_RANGE;
      }
    }
  }

  method GetParameterSet(g: Graph) returns (S: set<nat>)
    requires ValidGraph(g)
    ensures S == Params(g)
  {
    S := {};
    for k := 0 to |g.parameters|
      invariant S == Elements(g.parameters[..k])
    {
      assert g.parameters[k] !in S;
      S := S + {g.parameters[k]};
      assert g.parameters[..k + 1] == g.parameters[..k] + [g.parameters[k]];
    }
    assert g.parameters[..|g.parameters|] == g.parameters;
  }

  // ---- The driver ----

  /** The pending graphs are still unions of components of the full graph. */
  ghost predicate Exact(full: Graph, ws: seq<Graph>)
    requires ValidGraph(full)
  {
    forall k :: 0 <= k < |ws| ==> NoEdgeLeaves(full, Params(ws[k])) && InducedBy(ws[k], full, Params(ws[k]))
  }

  lemma PopAccounted(ranges: seq<nat>, ws: seq<Graph>, values: map<nat, nat>)
    requires ws != [] && Accounted(ranges, ws, values)
    ensures Pending(ws[1..]) && AllParams(ws) == Params(ws[0]) + AllParams(ws[1..])
    ensures Params(ws[0]) !! AllParams(ws[1..]) && Params(ws[0]) != {}
    ensures Measure(ws) == 2 * |ws[0].parameters| - 1 + Measure(ws[1..])
  {
    assert ws == [ws[0]] + ws[1..];
    AllParamsOne(ws[0]);
    AllParamsConcat([ws[0]], ws[1..]);
    MeasureConcat([ws[0]], ws[1..]);
    assert ws[0].parameters[0] in Params(ws[0]);
  }

  /** Replacing the first graph by its parts keeps every parameter accounted for. */
  lemma ReplaceAccounted(ranges: seq<nat>, ws: seq<Graph>, values: map<nat, nat>, parts: seq<Graph>)
    requires ws != [] && Accounted(ranges, ws, values) && Splits(parts, ws[0])
    ensures Accounted(ranges, ws[1..] + parts, values)
    ensures Measure(ws[1..] + parts) == Measure(ws) - (2 * |ws[0].parameters| - 1) + Measure(parts)
  {
    PopAccounted(ranges, ws, values);
    PendingConcat(ws[1..], parts);
    AllParamsConcat(ws[1..], parts);
    MeasureConcat(ws[1..], parts);
  }

  /** Components of a union of components are unions of components. */
  lemma ReplaceExact(full: Graph, ws: seq<Graph>, parts: seq<Graph>)
    requires ValidGraph(full) && ws != [] && Exact(full, ws) && ValidGraph(ws[0]) && Splits(parts, ws[0])
    requires forall k :: 0 <= k < |parts| ==> NoEdgeLeaves(ws[0], Params(parts[k]))
    ensures Exact(full, ws[1..] + parts)
  {
    forall k | 0 <= k < |parts|
      ensures NoEdgeLeaves(full, Params(parts[k])) && InducedBy(parts[k], full, Params(parts[k]))
    {
      assert Params(parts[k]) <= AllParams(parts);
    }
  }

  lemma DecidedIsWhole(ranges: seq<nat>, bound: BoundCallback, full: Graph, ws: seq<Graph>, values: map<nat, nat>,
                       sep: Separation)
    requires ValidGraph(full) && Accounted(ranges, ws, values) && Exact(full, ws)
    requires IsSeparation(sep, bound, ranges, full)
    ensures WholeParts(sep.part, values.Keys)
    ensures forall k :: 0 <= k < |ws| ==> WholeParts(sep.part, Params(ws[k]))
  {
    forall k | 0 <= k < |ws|
      ensures WholeParts(sep.part, Params(ws[k]))
    {
      NoEdgeLeavesWholeParts(sep, bound, ranges, full, Params(ws[k]));
    }
    forall i, j | 0 <= i < |sep.part| && 0 <= j < |sep.part| && sep.part[i] == sep.part[j] && i in values.Keys
      ensures j in values.Keys
    {
      assert j in All(|ranges|);
    }
  }

  /** What holds between rounds of the driver. */
  ghost predicate Driving(ranges: seq<nat>, bound: BoundCallback, full: Graph, ws: seq<Graph>, values: map<nat, nat>,
                          removed: bool, sep: Separation)
    requires ValidGraph(full)
  {
    && Accounted(ranges, ws, values)
    && (!removed ==>
        Exact(full, ws) && (IsSeparation(sep, bound, ranges, full) ==> DecidedOptimally(sep, ranges, values)))
  }

  /** A solved graph leaves the work list and its parameters become decided. */
  lemma SolvedStep(p: Problem, full: Graph, ws: seq<Graph>, removed: bool, sep: Separation, l: Vec)
    requires ValidGraph(full) && ValidProblem(p) && ws != []
    requires Driving(p.ranges, p.bound, full, ws, p.fixed, removed, sep)
    requires p.opt == Params(ws[0]) && OptimalFor(p, l)
    ensures Driving(p.ranges, p.bound, full, ws[1..], NewValues(p, l), removed, sep)
    ensures Measure(ws[1..]) < Measure(ws)
  {
    PopAccounted(p.ranges, ws, p.fixed);
    LeafIsDecided(p, l);
    assert p.opt !! p.fixed.Keys;
    if !removed && IsSeparation(sep, p.bound, p.ranges, full) {
      DecidedIsWhole(p.ranges, p.bound, full, ws, p.fixed, sep);
      OptimumExtends(sep, p, full, l);
    }
  }

  method CollectValues(p: Problem, l: Vec) returns (values: map<nat, nat>)
    requires ValidProblem(p) && Leaf(p, l)
    ensures values == NewValues(p, l)
  {
    values := p.fixed;
    for i := 0 to |l|
      invariant forall k :: k in values <==> k in p.fixed || (0 <= k < i && l[k].Some?)
      invariant forall k :: k in values ==> k < |l| && l[k] == Some(values[k])
    {
      if l[i].Some? {
        // a second insertion must agree with the first
        assert i in values ==> values[i] == l[i].value;
        values := values[i := l[i].value];
      }
    }
  }

  /** A search without solution means that some full vector has no value below SIZE_MAX. */
  lemma NoSolutionWitness(p: Problem)
    requires ValidProblem(p) && forall l :: Leaf(p, l) ==> p.bound(l).lower >= SIZE_MAX
    ensures exists c :: InRange(c, p.ranges) && AllDefined(c) && p.bound(c).lower >= SIZE_MAX
  {
    var m := MinimumExists(p);
    var l :| LeafWithValue(p, l, m);
    assert UpperIsReached(p.bound, p.ranges, l);
    var c :| Completes(c, l, p.ranges) && p.bound(c).lower <= p.bound(l).upper;
  }

  /** For a separable objective it means that no full vector has one. */
  lemma NoSolutionAnywhere(sep: Separation, p: Problem, full: Graph, c: Vec)
    requires ValidGraph(full) && ValidProblem(p) && IsSeparation(sep, p.bound, p.ranges, full)
    requires WholeParts(sep.part, p.fixed.Keys) && p.opt !! p.fixed.Keys && DecidedOptimally(sep, p.ranges, p.fixed)
    requires forall l :: Leaf(p, l) ==> p.bound(l).lower >= SIZE_MAX
    requires InRange(c, p.ranges) && AllDefined(c)
    ensures p.bound(c).lower >= SIZE_MAX
  {
    var D, n := p.fixed.Keys, |p.ranges|;
    var d: Vec := seq(n, i requires 0 <= i < |c| => if i in p.fixed then Some(p.fixed[i]) else c[i]);
    MixedIsLeaf(p, c);
    assert Refines(d, Mixed(p, c)) && InRange(d, p.ranges);
    var rest := All(n) - D;
    assert WholeParts(sep.part, rest) && All(n) == D + rest;
    SumSplits(sep, sep.count, D, rest, c);
    SumSplits(sep, sep.count, D, rest, d);
    SumAgrees(sep, sep.count, rest, c, d);
    SumAgrees(sep, sep.count, D, d, Decided(n, p.fixed));
  }

  /** Nothing pending: the decided values are a full vector, and for a separable objective a best one. */
  lemma DriverDone(ranges: seq<nat>, bound: BoundCallback, full: Graph, values: map<nat, nat>, removed: bool,
                   sep: Separation)
    requires ValidGraph(full) && Driving(ranges, bound, full, [], values, removed, sep)
    ensures values.Keys == All(|ranges|)
    ensures InRange(Decided(|ranges|, values), ranges) && AllDefined(Decided(|ranges|, values))
    ensures !removed && IsSeparation(sep, bound, ranges, full) ==>
            GlobalMinimum(ranges, bound, Decided(|ranges|, values))
  {
    assert AllParams([]) == {};
  }

  ghost function FullWeight(ranges: seq<nat>, bound: BoundCallback): nat {
    Weight(Problem(ranges, bound, All(|ranges|), map[]), Decided(|ranges|, map[]), 0)
  }

  lemma WeightOfPart(p: Problem)
    requires ValidProblem(p) && p.opt <= All(|p.ranges|) && p.opt !! p.fixed.Keys
    ensures RangeSum(p.ranges, p.opt, 0) < Weight(p, Root(p), 0) <= FullWeight(p.ranges, p.bound)
  {
    RangeSumBelowWeight(p, Root(p), 0);
    WeightGrows(p, Root(p), Problem(p.ranges, p.bound, All(|p.ranges|), map[]), Decided(|p.ranges|, map[]), 0);
  }

  datatype Progress = Progress(workList: seq<Graph>, values: map<nat, nat>, maxSize: nat, removed: bool)

  /** A work-list limit no search can exceed. */
  ghost predicate AmpleLimit(ranges: seq<nat>, bound: BoundCallback, limit: nat) {
    FullWeight(ranges, bound) <= limit <= SIZE_MAX
  }

  ghost predicate Untouched(ranges: seq<nat>, bound: BoundCallback, limit: nat, s: Progress) {
    AmpleLimit(ranges, bound, limit) ==> !s.removed && s.maxSize == SIZE_MAX
  }

  // ---- The record of a run ----

  /** maxSize is the size of the smallest part on which a search gave up. */
  ghost predicate IsMaxSize(t: Setting, ss: seq<Stage>, es: seq<Event>, maxSize: nat)
    requires |ss| == |es| + 1 && AllPending(ss, |es|)
  {
    && maxSize <= SIZE_MAX
    && (forall j :: 0 <= j < |es| && es[j].GaveUpOn? ==> maxSize <= SizeAt(t, ss[j]))
    && (maxSize == SIZE_MAX || exists j :: 0 <= j < |es| && es[j].GaveUpOn? && SizeAt(t, ss[j]) == maxSize)
  }

  ghost predicate IsRecord(t: Setting, full: Graph, ss: seq<Stage>, es: seq<Event>, s: Progress) {
    && IsHistory(t, full, ss, es) && ss[|es|] == StageOf(s)
    && (s.removed <==> exists k :: 0 <= k < |es| && IsCut(es[k]))
    && IsMaxSize(t, ss, es, s.maxSize)
  }

  ghost function StageOf(s: Progress): Stage { Stage(s.workList, s.values) }

  /** The event e takes the driver from s to s2. */
  ghost predicate Moves(t: Setting, s: Progress, e: Event, s2: Progress)
    requires s.workList != []
  {
    var tried := |Params(s.workList[0])| == 1 || SizeAt(t, StageOf(s)) < s.maxSize;
    && Leads(t, tried, StageOf(s), e, StageOf(s2))
    && s2.maxSize == (if e.GaveUpOn? then SizeAt(t, StageOf(s)) else s.maxSize)
    && s2.removed == (s.removed || IsCut(e))
  }

  lemma TriedIsSmall(t: Setting, full: Graph, ss: seq<Stage>, es: seq<Event>, s: Progress)
    requires IsRecord(t, full, ss, es, s) && s.workList != []
    ensures IsTried(t, ss, es, |es|) <==> |Params(s.workList[0])| == 1 || SizeAt(t, ss[|es|]) < s.maxSize
  {
  }

  lemma TriedStays(t: Setting, ss: seq<Stage>, es: seq<Event>, x: Stage, e: Event, k: nat)
    requires |ss| == |es| + 1 && k <= |es| && AllPending(ss, |es|) && ss[k].workList != []
    ensures IsTried(t, ss + [x], es + [e], k) <==> IsTried(t, ss, es, k)
  {
    assert forall j :: 0 <= j < |ss| ==> (ss + [x])[j] == ss[j];
    assert forall j :: 0 <= j < |es| ==> (es + [e])[j] == es[j];
  }

  lemma HappensStays(t: Setting, ss: seq<Stage>, es: seq<Event>, x: Stage, e: Event, k: nat)
    requires |ss| == |es| + 1 && k < |es| && AllPending(ss, |es|) && Happens(t, ss, es, k)
    ensures Happens(t, ss + [x], es + [e], k)
  {
    TriedStays(t, ss, es, x, e, k);
  }

  lemma HappensNow(t: Setting, ss: seq<Stage>, es: seq<Event>, tried: bool, e: Event, x: Stage)
    requires |ss| == |es| + 1 && AllPending(ss, |ss|) && AllPending(ss + [x], |ss|)
    requires tried == IsTried(t, ss, es, |es|) && Leads(t, tried, ss[|es|], e, x)
    ensures Happens(t, ss + [x], es + [e], |es|)
  {
    TriedStays(t, ss, es, x, e, |es|);
    assert (ss + [x])[|es|] == ss[|es|] && (ss + [x])[|es| + 1] == x && (es + [e])[|es|] == e;
  }

  lemma SmallestStays(t: Setting, ss: seq<Stage>, es: seq<Event>, maxSize: nat, x: Stage, e: Event, maxSize2: nat)
    requires |ss| == |es| + 1 && AllPending(ss, |ss|) && IsMaxSize(t, ss, es, maxSize)
    requires e.GaveUpOn? ==> maxSize2 == SizeAt(t, ss[|es|]) < maxSize
    requires !e.GaveUpOn? ==> maxSize2 == maxSize
    ensures IsMaxSize(t, ss + [x], es + [e], maxSize2)
  {
    var ss2, es2 := ss + [x], es + [e];
    assert forall j :: 0 <= j <= |es| ==> ss2[j] == ss[j];
    assert forall j :: 0 <= j < |es| ==> es2[j] == es[j];
    assert es2[|es|] == e;
    if !e.GaveUpOn? && maxSize != SIZE_MAX {
      var j :| 0 <= j < |es| && es[j].GaveUpOn? && SizeAt(t, ss[j]) == maxSize;
      assert es2[j].GaveUpOn? && SizeAt(t, ss2[j]) == maxSize2;
    }
  }

  lemma HappensAgain(t: Setting, ss: seq<Stage>, es: seq<Event>, x: Stage, e: Event)
    requires |ss| == |es| + 1 && AllPending(ss, |ss|) && AllPending(ss + [x], |ss|)
    requires AllHappen(t, ss, es) && Happens(t, ss + [x], es + [e], |es|)
    ensures AllHappen(t, ss + [x], es + [e])
  {
    forall k | 0 <= k < |es + [e]|
      ensures Happens(t, ss + [x], es + [e], k)
    {
      if k < |es| { HappensStays(t, ss, es, x, e, k); }
    }
  }

  lemma AccountedAgain(t: Setting, ss: seq<Stage>, x: Stage)
    requires AllAccounted(t, ss) && Accounted(t.ranges, x.workList, x.values)
    ensures AllAccounted(t, ss + [x])
  {
    forall k | 0 <= k < |ss + [x]|
      ensures Accounted(t.ranges, (ss + [x])[k].workList, (ss + [x])[k].values)
    {
      assert (ss + [x])[k] == if k < |ss| then ss[k] else x;
    }
  }

  lemma HistoryGrows(t: Setting, full: Graph, ss: seq<Stage>, es: seq<Event>, x: Stage, e: Event)
    requires IsHistory(t, full, ss, es) && AllPending(ss, |ss|) && AllPending(ss + [x], |ss|)
    requires Happens(t, ss + [x], es + [e], |es|) && Accounted(t.ranges, x.workList, x.values)
    ensures IsHistory(t, full, ss + [x], es + [e])
  {
    HappensAgain(t, ss, es, x, e);
    AccountedAgain(t, ss, x);
  }

  lemma CutsStay(es: seq<Event>, e: Event)
    ensures (exists k :: 0 <= k <= |es| && IsCut((es + [e])[k])) <==>
            IsCut(e) || exists k :: 0 <= k < |es| && IsCut(es[k])
  {
    var es2 := es + [e];
    assert es2[|es|] == e && forall k :: 0 <= k < |es| ==> es2[k] == es[k];
  }

  lemma Record(t: Setting, full: Graph, ss: seq<Stage>, es: seq<Event>, s: Progress, e: Event, s2: Progress)
    requires IsRecord(t, full, ss, es, s) && s.workList != [] && Moves(t, s, e, s2)
    requires Accounted(t.ranges, s2.workList, s2.values) && (e.GaveUpOn? ==> |Params(s.workList[0])| > 1)
    ensures IsRecord(t, full, ss + [StageOf(s2)], es + [e], s2)
  {
    var x := StageOf(s2);
    TriedIsSmall(t, full, ss, es, s);
    HappensNow(t, ss, es, IsTried(t, ss, es, |es|), e, x);
    HistoryGrows(t, full, ss, es, x, e);
    SmallestStays(t, ss, es, s.maxSize, x, e, s2.maxSize);
    CutsStay(es, e);
  }

  // ---- The steps of the driver ----

  /** The split of the first graph into its components, or None if it is connected. */
  method TryDecompose(t: Setting, ghost full: Graph, s: Progress, ghost sep: Separation) returns (r: Option<Progress>)
    requires ValidLibrary(t.lib) && ValidGraph(full) && s.workList != []
    requires Driving(t.ranges, t.bound, full, s.workList, s.values, s.removed, sep)
    ensures r.Some? ==>
      && Driving(t.ranges, t.bound, full, r.value.workList, r.value.values, r.value.removed, sep)
      && Measure(r.value.workList) < Measure(s.workList) && r.value == s.(workList := r.value.workList)
      && Moves(t, s, Decomposed, r.value)
    ensures r.None? ==> t.lib.componentCount(s.workList[0]) <= 1
  {
    var g := s.workList[0];
    var comp, count := t.lib.componentOf(g), t.lib.componentCount(g);
    if count > 1 {
      var parts := DecomposeConnectedComponents(g, comp, count);
      ReplaceAccounted(t.ranges, s.workList, s.values, parts);
      if !s.removed { ReplaceExact(full, s.workList, parts); }
      r := Some(s.(workList := s.workList[1..] + parts));
    } else {
      r := None;
    }
  }

  /** Vertex removal only ever meets a graph with two vertices or more. */
  method Remove(t: Setting, ghost full: Graph, s: Progress, ghost sep: Separation)
    returns (s2: Progress, ghost vertex: nat)
    requires ValidLibrary(t.lib) && ValidGraph(full) && s.workList != [] && |s.workList[0].parameters| > 1
    requires Driving(t.ranges, t.bound, full, s.workList, s.values, s.removed, sep)
    ensures Driving(t.ranges, t.bound, full, s2.workList, s2.values, s2.removed, sep)
    ensures Measure(s2.workList) < Measure(s.workList) && s2 == s.(workList := s2.workList, removed := true)
    ensures IsCutOff(t, StageOf(s), Stage(s2.workList, s.values), vertex)
  {
    var g := s.workList[0];
    var v := SelectVertexToRemove(g, t.lib.articulationPoints(g));
    vertex := v;
    var parts := RemoveVertex(g, v);
    ReplaceAccounted(t.ranges, s.workList, s.values, parts);
    assert parts == [parts[0], parts[1]];
    s2 := s.(workList := s.workList[1..] + parts, removed := true);
  }

  /** Optimises one set of parameters, unless its search space is known to be too large. `size` is the
      new bound on the search spaces worth trying. */
  method TryOptimize(p: Problem, limit: nat, maxSize: nat) returns (found: SearchResult, size: nat, ghost tried: bool)
    requires ValidProblem(p) && p.opt != {} && p.opt <= All(|p.ranges|) && p.opt !! p.fixed.Keys
    ensures tried <==> |p.opt| == 1 || RangeSum(p.ranges, p.opt, 0) % SIZE_RANGE < maxSize
    ensures found.GaveUp? <==> !tried || Outgrows(p, limit)
    ensures found.Found? ==> OptimalFor(p, found.parameters) && p.bound(found.parameters).lower < SIZE_MAX
    ensures found.NoSolution? ==> forall l :: Leaf(p, l) ==> p.bound(l).lower >= SIZE_MAX
    ensures found.GaveUp? ==> |p.opt| > 1 && !(AmpleLimit(p.ranges, p.bound, limit) && maxSize == SIZE_MAX)
    ensures size == if tried && found.GaveUp? then RangeSum(p.ranges, p.opt, 0) % SIZE_RANGE else maxSize
  {
    WeightOfPart(p);
    var spaceSize := SearchSpaceSize(p.ranges, p.opt);
    found, size, tried := GaveUp, maxSize, false;
    if spaceSize < maxSize || |p.opt| == 1 {
      tried := true;
      found := IntegerBranchAndBoundImpl(p, Some(limit));
      if found.GaveUp? { size := spaceSize; }
    }
    assert p.opt != {} ==> |p.opt| >= 1;
  }

  /** No value below SIZE_MAX exists for the part the driver is at. */
  ghost predicate IsHopeless(t: Setting, s: Stage)
    requires s.workList != []
  {
    && t.lib.componentCount(s.workList[0]) <= 1 && !Outgrows(ProblemAt(t, s), t.limit)
    && forall l :: Leaf(ProblemAt(t, s), l) ==> t.bound(l).lower >= SIZE_MAX
  }

  /** The driver ended early, in a search without solution. */
  ghost predicate StopsAt(t: Setting, ss: seq<Stage>, es: seq<Event>)
    requires |ss| == |es| + 1 && AllPending(ss, |es|)
  {
    ss[|es|].workList != [] && IsTried(t, ss, es, |es|) && IsHopeless(t, ss[|es|])
  }

  ghost predicate ValidSetting(t: Setting) {
    (forall i :: 0 <= i < |t.ranges| ==> t.ranges[i] > 0) && SoundBounds(t.bound, t.ranges) && ValidLibrary(t.lib)
  }

  ghost predicate DrivingAt(t: Setting, full: Graph, s: Progress, sep: Separation)
    requires ValidGraph(full)
  {
    Driving(t.ranges, t.bound, full, s.workList, s.values, s.removed, sep) && Untouched(t.ranges, t.bound, t.limit, s)
  }

  lemma FoundMoves(t: Setting, s: Progress, l: Vec, values: map<nat, nat>)
    requires s.workList != [] && t.lib.componentCount(s.workList[0]) <= 1
    requires |Params(s.workList[0])| == 1 || SizeAt(t, StageOf(s)) < s.maxSize
    requires var p := ProblemAt(t, StageOf(s));
      && ValidProblem(p) && !Outgrows(p, t.limit) && OptimalFor(p, l) && p.bound(l).lower < SIZE_MAX
      && values == NewValues(p, l)
    ensures Moves(t, s, Solved(l), s.(workList := s.workList[1..], values := values))
  {
  }

  lemma CutMoves(t: Setting, s: Progress, size: nat, tried: bool, s2: Progress, vertex: nat)
    requires s.workList != [] && t.lib.componentCount(s.workList[0]) <= 1
    requires tried <==> |Params(s.workList[0])| == 1 || SizeAt(t, StageOf(s)) < s.maxSize
    requires tried ==> Outgrows(ProblemAt(t, StageOf(s)), t.limit)
    requires size == if tried then SizeAt(t, StageOf(s)) else s.maxSize
    requires s2 == Progress(s2.workList, s.values, size, true) && IsCutOff(t, StageOf(s), StageOf(s2), vertex)
    ensures Moves(t, s, if tried then GaveUpOn(vertex) else Refused(vertex), s2)
  {
  }

  /** The first graph is solved or cut; None if a search finds no value below SIZE_MAX. */
  method SolveOrCut(t: Setting, ghost full: Graph, s: Progress, ghost sep: Separation)
    returns (r: Option<Progress>, ghost event: Event)
    requires ValidSetting(t) && ValidGraph(full) && s.workList != [] && DrivingAt(t, full, s, sep)
    requires t.lib.componentCount(s.workList[0]) <= 1
    ensures r.Some? ==>
      && DrivingAt(t, full, r.value, sep) && Measure(r.value.workList) < Measure(s.workList)
      && Moves(t, s, event, r.value) && (event.GaveUpOn? ==> |Params(s.workList[0])| > 1)
    ensures r.None? ==>
      && IsHopeless(t, StageOf(s))
      && (|Params(s.workList[0])| == 1 || SizeAt(t, StageOf(s)) < s.maxSize)
  {
    var opt := GetParameterSet(s.workList[0]);
    var p := Problem(t.ranges, t.bound, opt, s.values);
    ProblemIsValid(p, s.workList);
    var found, size, tried := TryOptimize(p, t.limit, s.maxSize);
    match found
    case Found(l) =>
      SolvedStep(p, full, s.workList, s.removed, sep, l);
      var values := CollectValues(p, l);
      FoundMoves(t, s, l, values);
      event := Solved(l);
      r := Some(s.(workList := s.workList[1..], values := values));
    case NoSolution =>
      event := Decomposed;
      r := None;
    case GaveUp =>
      var s2, vertex := Remove(t, full, s.(maxSize := size), sep);
      CutMoves(t, s, size, tried, s2, vertex);
      event := if tried then GaveUpOn(vertex) else Refused(vertex);
      r := Some(s2);
  }

  /** One turn of the driver; None if a search finds no value below SIZE_MAX. */
  method Turn(t: Setting, ghost full: Graph, s: Progress, ghost sep: Separation)
    returns (r: Option<Progress>, ghost event: Event)
    requires ValidSetting(t) && ValidGraph(full) && s.workList != [] && DrivingAt(t, full, s, sep)
    ensures r.Some? ==>
      && DrivingAt(t, full, r.value, sep) && Measure(r.value.workList) < Measure(s.workList)
      && Moves(t, s, event, r.value) && (event.GaveUpOn? ==> |Params(s.workList[0])| > 1)
    ensures r.None? ==>
      && IsHopeless(t, StageOf(s))
      && (|Params(s.workList[0])| == 1 || SizeAt(t, StageOf(s)) < s.maxSize)
  {
    event := Decomposed;
    r := TryDecompose(t, full, s, sep);
    if r.None? { r, event := SolveOrCut(t, full, s, sep); }
  }

  /** Ends on every input with every parameter decided in range, and for the reasons that its history tells. If no
      vertex had to be removed and the objective is separable, the result is a global minimum; an ample limit
      guarantees that none is removed. */
  method IntegerBranchAndBoundSparse(ranges: seq<nat>, interactions: InteractionMap, maxWorkListSize: nat,
                                     bound: BoundCallback, lib: GraphLibrary, ghost sep: Separation)
    returns (r: Option<Vec>, removed: bool, ghost full: Graph, ghost ss: seq<Stage>, ghost es: seq<Event>)
    requires (forall i :: 0 <= i < |ranges| ==> ranges[i] > 0) && SoundBounds(bound, ranges)
    requires ValidInteractions(|ranges|, interactions) && ValidLibrary(lib)
    ensures IsInteractionGraph(full, |ranges|, interactions)
    ensures IsHistory(Setting(ranges, bound, lib, maxWorkListSize), full, ss, es)
    ensures removed <==> exists k :: 0 <= k < |es| && IsCut(es[k])
    ensures r.Some? ==> ss[|es|].workList == [] && r.value == Decided(|ranges|, ss[|es|].values)
    ensures r.None? ==> StopsAt(Setting(ranges, bound, lib, maxWorkListSize), ss, es)
    ensures r.Some? ==> InRange(r.value, ranges) && AllDefined(r.value)
    ensures r.Some? && !removed && IsSeparation(sep, bound, ranges, full) ==> GlobalMinimum(ranges, bound, r.value)
    ensures AmpleLimit(ranges, bound, maxWorkListSize) ==> !removed
    ensures r.None? ==> exists c :: InRange(c, ranges) && AllDefined(c) && bound(c).lower >= SIZE_MAX
    ensures r.None? && !removed && IsSeparation(sep, bound, ranges, full) ==>
      forall c :: InRange(c, ranges) && AllDefined(c) ==> bound(c).lower >= SIZE_MAX
  {
    var graph := BuildInteractionGraph(|ranges|, interactions);
    full := graph;
    var t := Setting(ranges, bound, lib, maxWorkListSize);
    if |ranges| == 0 {
      ss, es := [Stage([], map[])], [];
      NothingToDecide(t, full, sep);
      return Some([]), false, full, ss, es;
    }
    DriverStarts(t, full, sep);
    var s := Progress([graph], map[], SIZE_MAX, false);
    ss, es := [StageOf(s)], [];
    while s.workList != []
      invariant DrivingAt(t, full, s, sep) && IsRecord(t, full, ss, es, s)
      decreases Measure(s.workList) + 1
    {
      MeasureNonNegative(s.workList);
      var next, event := Turn(t, full, s, sep);
      if next.None? {
        TriedIsSmall(t, full, ss, es, s);
        SearchFailed(t, full, s, sep);
        return None, s.removed, full, ss, es;
      }
      Record(t, full, ss, es, s, event, next.value);
      s := next.value;
      ss, es := ss + [StageOf(s)], es + [event];
    }
    DriverDone(ranges, bound, full, s.values, s.removed, sep);
    var v := FinalVector(|ranges|, s.values);
    r, removed := Some(v), s.removed;
  }

  method FinalVector(n: nat, values: map<nat, nat>) returns (v: Vec)
    requires values.Keys == All(n)
    ensures v == Decided(n, values)
  {
    v := seq(n, _ => None);
    for i := 0 to n
      invariant |v| == n && forall k :: 0 <= k < n ==> v[k] == if k < i then Some(values[k]) else None
    {
      v := v[i := Some(values[i])];
    }
  }

  lemma ProblemIsValid(p: Problem, ws: seq<Graph>)
    requires (forall i :: 0 <= i < |p.ranges| ==> p.ranges[i] > 0) && SoundBounds(p.bound, p.ranges)
    requires ws != [] && Accounted(p.ranges, ws, p.fixed) && p.opt == Params(ws[0])
    ensures ValidProblem(p) && p.opt != {} && p.opt <= All(|p.ranges|) && p.opt !! p.fixed.Keys
    ensures |p.opt| == |ws[0].parameters|
  {
    PopAccounted(p.ranges, ws, p.fixed);
    DistinctCount(ws[0].parameters);
  }

  lemma DriverStarts(t: Setting, full: Graph, sep: Separation)
    requires t.ranges != [] && ValidGraph(full) && full.parameters == seq(|t.ranges|, i => i)
    ensures var s := Progress([full], map[], SIZE_MAX, false);
      DrivingAt(t, full, s, sep) && IsRecord(t, full, [Stage([full], map[])], [], s)
  {
    var values: map<nat, nat> := map[];
    AllParamsOne(full);
    assert values.Keys == {};
    assert forall i :: 0 <= i < |t.ranges| ==> full.parameters[i] == i;
    forall i | i in All(|t.ranges|)
      ensures i in Params(full)
    {
      assert full.parameters[i] == i;
    }
    assert Params(full) == All(|t.ranges|);
    AdjacentInside(full);
    NothingIsOptimal(t.ranges, sep, values);
  }

  lemma NothingIsOptimal(ranges: seq<nat>, sep: Separation, values: map<nat, nat>)
    requires values.Keys == {}
    ensures DecidedOptimally(sep, ranges, values)
  {
    forall c | InRange(c, ranges) && AllDefined(c)
      ensures Sum(sep, sep.count, values.Keys, Decided(|ranges|, values)) <= Sum(sep, sep.count, values.Keys, c)
    {
      NothingDecided(sep, sep.count, Decided(|ranges|, values));
    }
  }

  /** Without parameters the empty vector is the result. */
  lemma NothingToDecide(t: Setting, full: Graph, sep: Separation)
    requires t.ranges == []
    ensures IsHistory(t, full, [Stage([], map[])], [])
    ensures Decided(0, map[]) == []
    ensures GlobalMinimum(t.ranges, t.bound, [])
  {
    var values: map<nat, nat> := map[];
    assert AllParams([]) == {} && values.Keys == {};
    forall c | InRange(c, t.ranges) && AllDefined(c)
      ensures t.bound([]).lower <= t.bound(c).lower
    {
      assert c == [];
    }
  }

  lemma {:induction false} NothingDecided(sep: Separation, k: nat, v: Vec)
    ensures Sum(sep, k, {}, v) == 0
  {
    if k > 0 { NothingDecided(sep, k - 1, v); }
  }

  lemma SearchFailed(t: Setting, full: Graph, s: Progress, sep: Separation)
    requires ValidGraph(full) && ValidSetting(t) && s.workList != [] && DrivingAt(t, full, s, sep)
    requires IsHopeless(t, StageOf(s))
    ensures exists c :: InRange(c, t.ranges) && AllDefined(c) && t.bound(c).lower >= SIZE_MAX
    ensures !s.removed && IsSeparation(sep, t.bound, t.ranges, full) ==>
      forall c :: InRange(c, t.ranges) && AllDefined(c) ==> t.bound(c).lower >= SIZE_MAX
  {
    var p := ProblemAt(t, StageOf(s));
    ProblemIsValid(p, s.workList);
    NoSolutionWitness(p);
    PopAccounted(p.ranges, s.workList, s.values);
    if !s.removed && IsSeparation(sep, p.bound, p.ranges, full) {
      DecidedIsWhole(p.ranges, p.bound, full, s.workList, s.values, sep);
      forall c | InRange(c, p.ranges) && AllDefined(c)
        ensures p.bound(c).lower >= SIZE_MAX
      {
        NoSolutionAnywhere(sep, p, full, c);
      }
    }
  }
}
