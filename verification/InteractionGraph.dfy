/** The undirected interaction graphs of the sparse optimiser. */
module InteractionGraph {
  import opened Collections

  /** Vertex k stands for parameter parameters[k]; an edge joins two vertices. */
  datatype Graph = Graph(parameters: seq<nat>, edges: seq<(nat, nat)>)

  ghost predicate EdgeInside(g: Graph, k: nat)
    requires k < |g.edges|
  {
    g.edges[k].0 < |g.parameters| && g.edges[k].1 < |g.parameters| && g.edges[k].0 != g.edges[k].1
  }

  ghost predicate ValidGraph(g: Graph) {
    Distinct(g.parameters) && forall k :: 0 <= k < |g.edges| ==> EdgeInside(g, k)
  }

  ghost function Elements(s: seq<nat>): set<nat> { set x | x in s }

  ghost function Params(g: Graph): set<nat> { Elements(g.parameters) }

  ghost predicate Joins(g: Graph, k: nat, a: nat, b: nat)
    requires ValidGraph(g) && k < |g.edges|
  {
    assert EdgeInside(g, k);
    var p, q := g.parameters[g.edges[k].0], g.parameters[g.edges[k].1];
    (p == a && q == b) || (p == b && q == a)
  }

  /** The parameters a and b interact in g. */
  ghost predicate Adjacent(g: Graph, a: nat, b: nat)
    requires ValidGraph(g)
  {
    exists k :: 0 <= k < |g.edges| && Joins(g, k, a, b)
  }

  /** h is the part of g on the parameters of S, with every interaction of g inside S. */
  ghost predicate InducedBy(h: Graph, g: Graph, S: set<nat>) {
    && ValidGraph(g) && ValidGraph(h) && Params(h) == S
    && forall a, b :: Adjacent(h, a, b) <==> Adjacent(g, a, b) && a in S && b in S
  }

  lemma AdjacentInside(g: Graph)
    requires ValidGraph(g)
    ensures forall a, b :: Adjacent(g, a, b) ==> a in Params(g) && b in Params(g)
  {
    forall a, b | Adjacent(g, a, b)
      ensures a in Params(g) && b in Params(g)
    {
      var k :| 0 <= k < |g.edges| && Joins(g, k, a, b);
      assert EdgeInside(g, k);
    }
  }

  ghost function KeptBelow(g: Graph, keep: nat -> bool, n: nat): set<nat>
    requires n <= |g.parameters|
  {
    set k | 0 <= k < n && keep(k) :: g.parameters[k]
  }

  ghost function Kept(g: Graph, keep: nat -> bool): set<nat> { KeptBelow(g, keep, |g.parameters|) }

  /** Where each copied vertex went. */
  ghost predicate VerticesCopied(g: Graph, keep: nat -> bool, n: nat, params: seq<nat>, newVertex: map<nat, nat>)
    requires n <= |g.parameters|
  {
    && (forall k :: 0 <= k < n && keep(k) ==> k in newVertex)
    && (forall k :: k in newVertex ==> k < n && newVertex[k] < |params| && params[newVertex[k]] == g.parameters[k])
    && Elements(params) == KeptBelow(g, keep, n)
    && Distinct(params)
  }

  /** One of the first n edges of g, with both ends kept, joins a and b. */
  ghost predicate JoinedBelow(g: Graph, keep: nat -> bool, n: nat, a: nat, b: nat)
    requires ValidGraph(g) && n <= |g.edges|
  {
    exists k :: 0 <= k < n && keep(g.edges[k].0) && keep(g.edges[k].1) && Joins(g, k, a, b)
  }

  ghost predicate EdgesCopied(g: Graph, keep: nat -> bool, n: nat, h: Graph)
    requires ValidGraph(g) && n <= |g.edges|
  {
    ValidGraph(h) && forall a, b :: Adjacent(h, a, b) <==> JoinedBelow(g, keep, n, a, b)
  }

  lemma KeptGrows(g: Graph, keep: nat -> bool, n: nat)
    requires ValidGraph(g) && n < |g.parameters|
    ensures KeptBelow(g, keep, n + 1) ==
            if keep(n) then KeptBelow(g, keep, n) + {g.parameters[n]} else KeptBelow(g, keep, n)
    ensures g.parameters[n] !in KeptBelow(g, keep, n)
  {
    forall x | x in KeptBelow(g, keep, n + 1)
      ensures x in KeptBelow(g, keep, n) || (keep(n) && x == g.parameters[n])
    {
    }
  }

  lemma CopyVertex(g: Graph, keep: nat -> bool, n: nat, params: seq<nat>, newVertex: map<nat, nat>)
    requires ValidGraph(g) && n < |g.parameters| && VerticesCopied(g, keep, n, params, newVertex)
    ensures keep(n) ==> VerticesCopied(g, keep, n + 1, params + [g.parameters[n]], newVertex[n := |params|])
    ensures !keep(n) ==> VerticesCopied(g, keep, n + 1, params, newVertex)
  {
    KeptGrows(g, keep, n);
    var x := g.parameters[n];
    assert x !in Elements(params);
    assert Elements(params + [x]) == Elements(params) + {x};
    if keep(n) {
      assert Distinct(params + [x]);
      assert (params + [x])[|params|] == g.parameters[n];
    }
  }

  lemma {:induction false} DistinctCount(s: seq<nat>)
    requires Distinct(s)
    ensures |Elements(s)| == |s|
  {
    if s != [] {
      var n := |s| - 1;
      DistinctCount(s[..n]);
      assert s == s[..n] + [s[n]];
      assert s[n] !in Elements(s[..n]);
      assert Elements(s) == Elements(s[..n]) + {s[n]};
    }
  }

  /** Appending an edge adds exactly the pair it joins. */
  lemma AddEdge(h: Graph, u: nat, v: nat, a: nat, b: nat)
    requires ValidGraph(h) && u < |h.parameters| && v < |h.parameters| && u != v
    ensures var t := h.(edges := h.edges + [(u, v)]);
      && ValidGraph(t)
      && (Adjacent(t, a, b) <==> Adjacent(h, a, b) || (a == h.parameters[u] && b == h.parameters[v])
                                                   || (a == h.parameters[v] && b == h.parameters[u]))
  {
    var t := h.(edges := h.edges + [(u, v)]);
    forall k | 0 <= k < |t.edges|
      ensures EdgeInside(t, k)
    {
      assert k < |h.edges| ==> EdgeInside(h, k);
    }
    if k :| 0 <= k < |h.edges| && Joins(h, k, a, b) { assert Joins(t, k, a, b); }
    if k :| 0 <= k < |t.edges| && Joins(t, k, a, b) {
      assert k < |h.edges| ==> Joins(h, k, a, b);
    }
    assert Joins(t, |h.edges|, h.parameters[u], h.parameters[v]);
    assert Joins(t, |h.edges|, h.parameters[v], h.parameters[u]);
  }

  lemma CopyEdge(g: Graph, keep: nat -> bool, n: nat, h: Graph, newVertex: map<nat, nat>)
    requires ValidGraph(g) && n < |g.edges| && EdgesCopied(g, keep, n, h) && EdgeInside(g, n)
    requires VerticesCopied(g, keep, |g.parameters|, h.parameters, newVertex)
    ensures var u, v := g.edges[n].0, g.edges[n].1;
      if keep(u) && keep(v) then
        && newVertex[u] != newVertex[v]
        && EdgesCopied(g, keep, n + 1, h.(edges := h.edges + [(newVertex[u], newVertex[v])]))
      else EdgesCopied(g, keep, n + 1, h)
  {
    var u, v := g.edges[n].0, g.edges[n].1;
    var added := keep(u) && keep(v);
    forall a, b
      ensures JoinedBelow(g, keep, n + 1, a, b) <==> JoinedBelow(g, keep, n, a, b) || (added && Joins(g, n, a, b))
    {
    }
    if added {
      assert g.parameters[u] != g.parameters[v];
      var t := h.(edges := h.edges + [(newVertex[u], newVertex[v])]);
      AddEdge(h, newVertex[u], newVertex[v], 0, 0);
      forall a, b
        ensures Adjacent(t, a, b) <==> JoinedBelow(g, keep, n + 1, a, b)
      {
        AddEdge(h, newVertex[u], newVertex[v], a, b);
      }
    }
  }

  lemma CopiedIsInduced(g: Graph, keep: nat -> bool, h: Graph)
    requires ValidGraph(g) && EdgesCopied(g, keep, |g.edges|, h) && Params(h) == Kept(g, keep)
    ensures InducedBy(h, g, Kept(g, keep))
  {
    var S := Kept(g, keep);
    forall a, b
      ensures JoinedBelow(g, keep, |g.edges|, a, b) <==> Adjacent(g, a, b) && a in S && b in S
    {
      if k :| 0 <= k < |g.edges| && keep(g.edges[k].0) && keep(g.edges[k].1) && Joins(g, k, a, b) {
        assert EdgeInside(g, k);
      }
      if Adjacent(g, a, b) && a in S && b in S {
        var k :| 0 <= k < |g.edges| && Joins(g, k, a, b);
        assert EdgeInside(g, k);
        var i :| 0 <= i < |g.parameters| && keep(i) && g.parameters[i] == a;
        var j :| 0 <= j < |g.parameters| && keep(j) && g.parameters[j] == b;
      }
    }
  }

  /** The graph on the vertices the predicate accepts. */
  method Subgraph(g: Graph, keep: nat -> bool) returns (h: Graph)
    requires ValidGraph(g)
    ensures InducedBy(h, g, Kept(g, keep))
    ensures |h.parameters| == |Kept(g, keep)|
  {
    var params: seq<nat> := [];
    var newVertex: map<nat, nat> := map[];
    for k := 0 to |g.parameters|
      invariant VerticesCopied(g, keep, k, params, newVertex)
    {
      CopyVertex(g, keep, k, params, newVertex);
      if keep(k) {
        newVertex := newVertex[k := |params|];
        params := params + [g.parameters[k]];
      }
    }
    h := Graph(params, []);
    for k := 0 to |g.edges|
      invariant h.parameters == params && EdgesCopied(g, keep, k, h)
    {
      var source, target := g.edges[k].0, g.edges[k].1;
      assert EdgeInside(g, k);
      CopyEdge(g, keep, k, h, newVertex);
      if keep(source) && keep(target) {
        h := h.(edges := h.edges + [(newVertex[source], newVertex[target])]);
      }
    }
    CopiedIsInduced(g, keep, h);
    DistinctCount(h.parameters);
  }
}
