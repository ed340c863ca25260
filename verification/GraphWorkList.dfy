/** The graph work list of the sparse optimiser: decomposition and vertex removal. */
module GraphWorkList {
  import opened InteractionGraph

  /** What the driver needs of the graph library: labels for the components of a graph, such that
      adjacent vertices share a label and every label is used, and a list of articulation points. */
  datatype GraphLibrary = GraphLibrary(
    componentOf: Graph -> seq<nat>,
    componentCount: Graph -> nat,
    articulationPoints: Graph -> seq<nat>)

  ghost predicate IsLabelling(g: Graph, comp: seq<nat>, count: nat) {
    && |comp| == |g.parameters|
    && (forall v :: 0 <= v < |comp| ==> comp[v] < count)
    && (forall c :: 0 <= c < count ==> c in comp)
    && (forall k {:trigger EdgeInside(g, k)} :: 0 <= k < |g.edges| && EdgeInside(g, k) ==>
                                                  comp[g.edges[k].0] == comp[g.edges[k].1])
  }

  ghost predicate ValidLibrary(lib: GraphLibrary) {
    forall g :: ValidGraph(g) ==>
                  && IsLabelling(g, lib.componentOf(g), lib.componentCount(g))
                  && (forall v :: v in lib.articulationPoints(g) ==> v < |g.parameters|)
  }

  ghost predicate Pending(ws: seq<Graph>) {
    && (forall k :: 0 <= k < |ws| ==> ValidGraph(ws[k]) && ws[k].parameters != [])
    && (forall j, k :: 0 <= j < k < |ws| ==> Params(ws[j]) !! Params(ws[k]))
  }

  ghost function AllParams(ws: seq<Graph>): set<nat> { set g, x | g in ws && x in Params(g) :: x }

  /** Replacing a graph by two or more smaller ones on the same vertices lowers this measure. */
  ghost function Measure(ws: seq<Graph>): int {
    if ws == [] then 0 else Measure(ws[..|ws| - 1]) + 2 * |ws[|ws| - 1].parameters| - 1
  }

  lemma {:induction false} MeasureConcat(a: seq<Graph>, b: seq<Graph>)
    ensures Measure(a + b) == Measure(a) + Measure(b)
    decreases |b|
  {
    if b == [] {
      assert a + b == a;
    } else {
      assert (a + b)[..|a + b| - 1] == a + b[..|b| - 1];
      MeasureConcat(a, b[..|b| - 1]);
    }
  }

  lemma {:induction false} MeasureNonNegative(ws: seq<Graph>)
    requires Pending(ws)
    ensures Measure(ws) >= 0
  {
    if ws != [] { MeasureNonNegative(ws[..|ws| - 1]); }
  }

  lemma AllParamsConcat(a: seq<Graph>, b: seq<Graph>)
    ensures AllParams(a + b) == AllParams(a) + AllParams(b)
  {
    assert forall g :: g in a + b <==> g in a || g in b;
  }

  lemma AllParamsOne(g: Graph)
    ensures AllParams([g]) == Params(g) && Measure([g]) == 2 * |g.parameters| - 1
  {
    assert g in [g] && [g][..0] == [];
  }

  lemma PendingConcat(a: seq<Graph>, b: seq<Graph>)
    requires Pending(a) && Pending(b) && AllParams(a) !! AllParams(b)
    ensures Pending(a + b)
  {
    forall j, k | 0 <= j < |a| && 0 <= k < |b|
      ensures Params(a[j]) !! Params(b[k])
    {
      assert Params(a[j]) <= AllParams(a) && Params(b[k]) <= AllParams(b);
    }
  }

  lemma Push(parts: seq<Graph>, h: Graph)
    requires Pending(parts) && ValidGraph(h) && h.parameters != [] && Params(h) !! AllParams(parts)
    ensures Pending(parts + [h]) && AllParams(parts + [h]) == AllParams(parts) + Params(h)
    ensures Measure(parts + [h]) == Measure(parts) + 2 * |h.parameters| - 1
  {
    AllParamsOne(h);
    AllParamsConcat(parts, [h]);
    PendingConcat(parts, [h]);
    MeasureConcat(parts, [h]);
  }

  /** No interaction of g leads out of S. */
  ghost predicate NoEdgeLeaves(g: Graph, S: set<nat>)
    requires ValidGraph(g)
  {
    forall a, b :: Adjacent(g, a, b) && a in S ==> b in S
  }

  /** The parts replace g: same parameters, pairwise disjoint, none empty, interactions inside a part kept. */
  ghost predicate Splits(parts: seq<Graph>, g: Graph) {
    && ValidGraph(g) && Pending(parts) && AllParams(parts) == Params(g)
    && (forall k :: 0 <= k < |parts| ==> InducedBy(parts[k], g, Params(parts[k])))
  }

  ghost function LabelledBelow(g: Graph, comp: seq<nat>, c: nat): set<nat>
    requires |comp| == |g.parameters|
  {
    set v | 0 <= v < |comp| && comp[v] < c :: g.parameters[v]
  }

  ghost function Labelled(g: Graph, comp: seq<nat>, c: nat): set<nat>
    requires |comp| == |g.parameters|
  {
    set v | 0 <= v < |comp| && comp[v] == c :: g.parameters[v]
  }

  /** The subgraphs of the first c components. */
  ghost predicate ComponentsBelow(g: Graph, comp: seq<nat>, c: nat, parts: seq<Graph>)
    requires ValidGraph(g) && |comp| == |g.parameters|
  {
    && |parts| == c && Pending(parts) && AllParams(parts) == LabelledBelow(g, comp, c)
    && (forall k :: 0 <= k < c ==> InducedBy(parts[k], g, Labelled(g, comp, k)))
    && Measure(parts) == 2 * |LabelledBelow(g, comp, c)| - c
  }

  lemma LabelsGrow(g: Graph, comp: seq<nat>, c: nat)
    requires ValidGraph(g) && |comp| == |g.parameters|
    ensures LabelledBelow(g, comp, c + 1) == LabelledBelow(g, comp, c) + Labelled(g, comp, c)
    ensures LabelledBelow(g, comp, c) !! Labelled(g, comp, c)
  {
  }

  lemma LabelIsUsed(g: Graph, comp: seq<nat>, c: nat)
    requires |comp| == |g.parameters| && c in comp
    ensures Labelled(g, comp, c) != {}
  {
    var v :| 0 <= v < |comp| && comp[v] == c;
    assert g.parameters[v] in Labelled(g, comp, c);
  }

  lemma DisjointCount(a: set<nat>, b: set<nat>)
    requires a !! b
    ensures |a + b| == |a| + |b|
  {
  }

  lemma ComponentStep(g: Graph, comp: seq<nat>, c: nat, parts: seq<Graph>, h: Graph)
    requires ValidGraph(g) && |comp| == |g.parameters| && c in comp && ComponentsBelow(g, comp, c, parts)
    requires InducedBy(h, g, Labelled(g, comp, c)) && |h.parameters| == |Labelled(g, comp, c)|
    ensures ComponentsBelow(g, comp, c + 1, parts + [h])
  {
    LabelsGrow(g, comp, c);
    LabelIsUsed(g, comp, c);
    DisjointCount(LabelledBelow(g, comp, c), Labelled(g, comp, c));
    Push(parts, h);
    var all := parts + [h];
    forall k | 0 <= k < c + 1
      ensures InducedBy(all[k], g, Labelled(g, comp, k))
    {
      assert all[k] == if k < c then parts[k] else h;
    }
  }

  /** Adjacent vertices share a label, so no interaction leaves a component. */
  lemma ComponentIsClosed(g: Graph, comp: seq<nat>, count: nat, c: nat)
    requires ValidGraph(g) && IsLabelling(g, comp, count)
    ensures NoEdgeLeaves(g, Labelled(g, comp, c))
  {
    forall a, b | Adjacent(g, a, b) && a in Labelled(g, comp, c)
      ensures b in Labelled(g, comp, c)
    {
      var k :| 0 <= k < |g.edges| && Joins(g, k, a, b);
      assert EdgeInside(g, k);
    }
  }

  /** One graph per connected component: together they cover the same search space. */
  method DecomposeConnectedComponents(g: Graph, comp: seq<nat>, count: nat) returns (parts: seq<Graph>)
    requires ValidGraph(g) && IsLabelling(g, comp, count) && count > 1
    ensures Splits(parts, g) && |parts| == count
    ensures Measure(parts) == 2 * |g.parameters| - count
    ensures forall k :: 0 <= k < |parts| ==>
      NoEdgeLeaves(g, Params(parts[k])) && InducedBy(parts[k], g, Labelled(g, comp, k))
  {
    parts := [];
    for c := 0 to count
      invariant ComponentsBelow(g, comp, c, parts)
    {
      var keep := (v: nat) => v < |comp| && comp[v] == c;
      assert Kept(g, keep) == Labelled(g, comp, c);
      var h := Subgraph(g, keep);
      ComponentStep(g, comp, c, parts, h);
      parts := parts + [h];
    }
    assert LabelledBelow(g, comp, count) == Params(g);
    DistinctCount(g.parameters);
    forall k | 0 <= k < |parts|
      ensures NoEdgeLeaves(g, Params(parts[k])) && InducedBy(parts[k], g, Params(parts[k]))
    {
      ComponentIsClosed(g, comp, count, k);
    }
  }

  /** The number of edges of g that end at v. */
  ghost function EdgesAt(g: Graph, v: nat): nat {
    |set k | 0 <= k < |g.edges| && (g.edges[k].0 == v || g.edges[k].1 == v)|
  }

  /** The vertices among which one is chosen. */
  ghost predicate IsCandidate(g: Graph, articulation: seq<nat>, k: nat, v: nat) {
    if articulation == [] then k == v < |g.parameters| else k < |articulation| && articulation[k] == v
  }

  /** The last one with the most edges among the articulation points, or among all vertices if there are none. */
  ghost predicate IsVertexToRemove(g: Graph, articulation: seq<nat>, vertex: nat) {
    && vertex < |g.parameters|
    && exists k ::
         && IsCandidate(g, articulation, k, vertex)
         && forall j, v :: IsCandidate(g, articulation, j, v) ==>
              EdgesAt(g, v) <= EdgesAt(g, vertex) && (j > k ==> EdgesAt(g, v) < EdgesAt(g, vertex))
  }

  function Degree(g: Graph, v: nat): nat { DegreeOf(g.edges, v) }

  function DegreeOf(edges: seq<(nat, nat)>, v: nat): nat {
    if edges == [] then 0
    else DegreeOf(edges[..|edges| - 1], v)
         + (if edges[|edges| - 1].0 == v then 1 else 0) + (if edges[|edges| - 1].1 == v then 1 else 0)
  }

  lemma LastEdgeCounts(edges: seq<(nat, nat)>, v: nat)
    requires edges != []
    ensures var n := |edges| - 1;
      |set k | 0 <= k < |edges| && (edges[k].0 == v || edges[k].1 == v)| ==
      |set k | 0 <= k < n && (edges[..n][k].0 == v || edges[..n][k].1 == v)|
      + if edges[n].0 == v || edges[n].1 == v then 1 else 0
  {
    var n := |edges| - 1;
    var before := set k | 0 <= k < n && (edges[..n][k].0 == v || edges[..n][k].1 == v);
    var all := set k | 0 <= k < |edges| && (edges[k].0 == v || edges[k].1 == v);
    assert all == if edges[n].0 == v || edges[n].1 == v then before + {n} else before;
  }

  /** The degree is the number of edges at the vertex, as no edge is a loop. */
  lemma {:induction false} DegreeIsEdgesAt(g: Graph, v: nat)
    requires ValidGraph(g)
    ensures Degree(g, v) == EdgesAt(g, v)
    decreases |g.edges|
  {
    if g.edges != [] {
      var n := |g.edges| - 1;
      var h := g.(edges := g.edges[..n]);
      forall k | 0 <= k < n
        ensures EdgeInside(h, k)
      {
        assert EdgeInside(g, k);
      }
      DegreeIsEdgesAt(h, v);
      assert EdgeInside(g, n);
      LastEdgeCounts(g.edges, v);
    }
  }

  method SelectVertexToRemove(g: Graph, articulation: seq<nat>) returns (vertex: nat)
    requires ValidGraph(g) && g.parameters != [] && (forall v :: v in articulation ==> v < |g.parameters|)
    ensures IsVertexToRemove(g, articulation, vertex)
  {
    var candidates := if articulation == [] then seq(|g.parameters|, v => v) else articulation;
    vertex := candidates[0];
    var maxDegree := 0;
    ghost var best := 0;
    for k := 0 to |candidates|
      invariant best < |candidates| && vertex == candidates[best] && (k > 0 ==> best < k)
      invariant maxDegree == (if k == 0 then 0 else Degree(g, vertex))
      invariant forall j :: 0 <= j < k ==> Degree(g, candidates[j]) <= maxDegree
      invariant forall j :: best < j < k ==> Degree(g, candidates[j]) < maxDegree
    {
      var degree := Degree(g, candidates[k]);
      if degree >= maxDegree {
        vertex, maxDegree := candidates[k], degree;
        best := k;
      }
    }
    assert IsCandidate(g, articulation, best, vertex);
    forall j: nat, v: nat | IsCandidate(g, articulation, j, v)
      ensures EdgesAt(g, v) <= EdgesAt(g, vertex) && (j > best ==> EdgesAt(g, v) < EdgesAt(g, vertex))
    {
      assert candidates[j] == v;
      DegreeIsEdgesAt(g, v);
      DegreeIsEdgesAt(g, vertex);
    }
    assert vertex in candidates;
  }

  /** The graph without one vertex, and that vertex alone. */
  method RemoveVertex(g: Graph, vertex: nat) returns (parts: seq<Graph>)
    requires ValidGraph(g) && |g.parameters| > 1 && vertex < |g.parameters|
    ensures |parts| == 2 && Splits(parts, g)
    ensures Params(parts[0]) == Params(g) - {g.parameters[vertex]} && parts[1].parameters == [g.parameters[vertex]]
    ensures Measure(parts) == 2 * |g.parameters| - 2
  {
    var others, only := (v: nat) => v != vertex, (v: nat) => v == vertex;
    var a := Subgraph(g, others);
    var b := Subgraph(g, only);
    ghost var x := g.parameters[vertex];
    assert Kept(g, only) == {x};
    assert Kept(g, others) == Params(g) - {x};
    parts := [a, b];
    RemovalSplits(g, x, a, b);
  }

  lemma RemovalSplits(g: Graph, x: nat, a: Graph, b: Graph)
    requires ValidGraph(g) && |g.parameters| > 1 && x in Params(g)
    requires InducedBy(a, g, Params(g) - {x}) && |a.parameters| == |Params(g) - {x}|
    requires InducedBy(b, g, {x}) && |b.parameters| == 1
    ensures Splits([a, b], g) && b.parameters == [x] && Measure([a, b]) == 2 * |g.parameters| - 2
  {
    DistinctCount(g.parameters);
    assert |Params(g) - {x}| == |g.parameters| - 1;
    assert b.parameters[0] in Params(b);
    assert a.parameters != [] by { assert |a.parameters| > 0; }
    AllParamsOne(a);
    Push([a], b);
    assert [a, b] == [a] + [b];
    assert Params(a) + Params(b) == Params(g);
  }
}
