/** Objectives that are sums over the connected components of the interaction graph. */
module Separable {
  import opened Wrappers
  import opened SearchProblem
  import opened InteractionGraph
  import opened GraphWorkList

  ghost predicate IsPath(g: Graph, path: seq<nat>)
    requires ValidGraph(g)
  {
    path != [] && forall k :: 0 <= k < |path| - 1 ==> Adjacent(g, path[k], path[k + 1])
  }

  ghost predicate Connected(g: Graph, a: nat, b: nat)
    requires ValidGraph(g)
  {
    exists path :: IsPath(g, path) && path[0] == a && path[|path| - 1] == b
  }

  /** Parameter i belongs to part[i]; share(c, v) is what part c contributes to the bound of v. */
  datatype Separation = Separation(part: seq<nat>, count: nat, share: (nat, Vec) -> nat)

  ghost predicate AgreeOn(part: seq<nat>, c: nat, v: Vec, w: Vec) {
    |v| == |w| == |part| && forall i :: 0 <= i < |part| && part[i] == c ==> v[i] == w[i]
  }

  ghost function All(n: nat): (s: set<nat>)
    ensures forall i :: i in s <==> 0 <= i < n
  {
    if n == 0 then {} else All(n - 1) + {n - 1}
  }

  /** Lower bounds are sums of one share per part; a share looks only at its own part; and two
      parameters share a part only if the interaction graph connects them. */
  ghost predicate IsSeparation(sep: Separation, bound: BoundCallback, ranges: seq<nat>, g: Graph)
    requires ValidGraph(g)
  {
    && |sep.part| == |ranges|
    && (forall i :: 0 <= i < |sep.part| ==> sep.part[i] < sep.count)
    && (forall c :: 0 <= c < sep.count ==> c in sep.part)
    && (forall a, b :: 0 <= a < |sep.part| && 0 <= b < |sep.part| && sep.part[a] == sep.part[b] ==> Connected(g, a, b))
    && (forall c, v, w :: AgreeOn(sep.part, c, v, w) ==> sep.share(c, v) == sep.share(c, w))
    && (forall v :: InRange(v, ranges) ==> bound(v).lower == Sum(sep, sep.count, All(|ranges|), v))
  }

  ghost predicate Touches(part: seq<nat>, c: nat, S: set<nat>) {
    exists i :: 0 <= i < |part| && part[i] == c && i in S
  }

  /** The shares of those of the first k parts that touch S. */
  ghost function Sum(sep: Separation, k: nat, S: set<nat>, v: Vec): nat {
    if k == 0 then 0
    else Sum(sep, k - 1, S, v) + if Touches(sep.part, k - 1, S) then sep.share(k - 1, v) else 0
  }

  /** S holds whole parts. */
  ghost predicate WholeParts(part: seq<nat>, S: set<nat>) {
    forall i, j :: 0 <= i < |part| && 0 <= j < |part| && part[i] == part[j] && i in S ==> j in S
  }

  lemma {:induction false} PathStaysInside(g: Graph, S: set<nat>, path: seq<nat>)
    requires ValidGraph(g) && NoEdgeLeaves(g, S) && IsPath(g, path) && path[0] in S
    ensures path[|path| - 1] in S
  {
    if |path| > 1 {
      var shorter := path[..|path| - 1];
      PathStaysInside(g, S, shorter);
      assert Adjacent(g, path[|path| - 2], path[|path| - 1]);
    }
  }

  lemma NoEdgeLeavesWholeParts(sep: Separation, bound: BoundCallback, ranges: seq<nat>, g: Graph, S: set<nat>)
    requires ValidGraph(g) && IsSeparation(sep, bound, ranges, g) && NoEdgeLeaves(g, S)
    ensures WholeParts(sep.part, S)
  {
    forall i, j | 0 <= i < |sep.part| && 0 <= j < |sep.part| && sep.part[i] == sep.part[j] && i in S
      ensures j in S
    {
      assert Connected(g, i, j);
      var path :| IsPath(g, path) && path[0] == i && path[|path| - 1] == j;
      PathStaysInside(g, S, path);
    }
  }

  lemma {:induction false} SumAgrees(sep: Separation, k: nat, S: set<nat>, v: Vec, w: Vec)
    requires |v| == |w| == |sep.part| && WholeParts(sep.part, S)
    requires forall c, a, b :: AgreeOn(sep.part, c, a, b) ==> sep.share(c, a) == sep.share(c, b)
    requires forall i :: 0 <= i < |v| && i in S ==> v[i] == w[i]
    ensures Sum(sep, k, S, v) == Sum(sep, k, S, w)
  {
    if k > 0 {
      SumAgrees(sep, k - 1, S, v, w);
      if Touches(sep.part, k - 1, S) {
        assert AgreeOn(sep.part, k - 1, v, w);
      }
    }
  }

  lemma {:induction false} SumSplits(sep: Separation, k: nat, S: set<nat>, T: set<nat>, v: Vec)
    requires WholeParts(sep.part, S) && WholeParts(sep.part, T) && S !! T
    ensures Sum(sep, k, S + T, v) == Sum(sep, k, S, v) + Sum(sep, k, T, v)
  {
    if k > 0 {
      SumSplits(sep, k - 1, S, T, v);
      assert Touches(sep.part, k - 1, S + T) <==> Touches(sep.part, k - 1, S) || Touches(sep.part, k - 1, T);
    }
  }

  // ---- Optimising one union of components after another ----

  /** The vector holding exactly the values decided so far. */
  ghost function Decided(n: nat, values: map<nat, nat>): (v: Vec)
    ensures |v| == n
  {
    seq(n, i => if i in values then Some(values[i]) else None)
  }

  /** No full vector does better on the parts decided so far. */
  ghost predicate DecidedOptimally(sep: Separation, ranges: seq<nat>, values: map<nat, nat>) {
    forall c :: InRange(c, ranges) && AllDefined(c) ==>
      Sum(sep, sep.count, values.Keys, Decided(|ranges|, values)) <= Sum(sep, sep.count, values.Keys, c)
  }

  /** The leaf that takes the decided values and, on the parameters being optimised, the values of c. */
  ghost function Mixed(p: Problem, c: Vec): (v: Vec)
    requires |c| == |p.ranges|
    ensures |v| == |c|
  {
    seq(|c|, i requires 0 <= i < |c| =>
      if i in p.fixed then Some(p.fixed[i]) else if i in p.opt then c[i] else None)
  }

  ghost function NewValues(p: Problem, l: Vec): (m: map<nat, nat>)
    requires ValidProblem(p) && Leaf(p, l)
  {
    map i | 0 <= i < |l| && l[i].Some? :: l[i].value
  }

  lemma LeafIsDecided(p: Problem, l: Vec)
    requires ValidProblem(p) && Leaf(p, l)
    ensures Decided(|p.ranges|, NewValues(p, l)) == l && NewValues(p, l).Keys == p.fixed.Keys + p.opt
  {
    forall i | i in p.fixed.Keys + p.opt
      ensures i in NewValues(p, l)
    {
    }
  }

  lemma MixedIsLeaf(p: Problem, c: Vec)
    requires ValidProblem(p) && InRange(c, p.ranges) && AllDefined(c) && p.opt !! p.fixed.Keys
    ensures Leaf(p, Mixed(p, c))
  {
  }

  /** What stays put while S is optimised: the shares of every other part. */
  lemma LeafComparesOnOpt(sep: Separation, p: Problem, g: Graph, l: Vec, w: Vec)
    requires ValidProblem(p) && ValidGraph(g) && IsSeparation(sep, p.bound, p.ranges, g)
    requires WholeParts(sep.part, p.opt) && p.opt <= All(|p.ranges|)
    requires Leaf(p, l) && Leaf(p, w) && p.opt !! p.fixed.Keys && p.bound(l).lower <= p.bound(w).lower
    ensures Sum(sep, sep.count, p.opt, l) <= Sum(sep, sep.count, p.opt, w)
  {
    var rest := All(|p.ranges|) - p.opt;
    assert WholeParts(sep.part, rest);
    assert All(|p.ranges|) == p.opt + rest;
    SumSplits(sep, sep.count, p.opt, rest, l);
    SumSplits(sep, sep.count, p.opt, rest, w);
    SumAgrees(sep, sep.count, rest, l, w);
  }

  /** Optimising whole parts with the earlier values fixed extends an optimal partial solution. */
  lemma OptimumExtends(sep: Separation, p: Problem, g: Graph, l: Vec)
    requires ValidProblem(p) && ValidGraph(g) && IsSeparation(sep, p.bound, p.ranges, g)
    requires WholeParts(sep.part, p.opt) && WholeParts(sep.part, p.fixed.Keys)
    requires p.opt !! p.fixed.Keys && OptimalFor(p, l) && DecidedOptimally(sep, p.ranges, p.fixed)
    ensures DecidedOptimally(sep, p.ranges, NewValues(p, l))
  {
    var n, D, S := |p.ranges|, p.fixed.Keys, p.opt;
    LeafIsDecided(p, l);
    forall c | InRange(c, p.ranges) && AllDefined(c)
      ensures Sum(sep, sep.count, D + S, l) <= Sum(sep, sep.count, D + S, c)
    {
      var w := Mixed(p, c);
      MixedIsLeaf(p, c);
      LeafComparesOnOpt(sep, p, g, l, w);
      SumAgrees(sep, sep.count, S, w, c);
      SumAgrees(sep, sep.count, D, l, Decided(n, p.fixed));
      SumSplits(sep, sep.count, D, S, l);
      SumSplits(sep, sep.count, D, S, c);
    }
  }
}
