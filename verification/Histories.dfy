/** The runs of IntegerBranchAndBoundSparse: what became of each part of the parameters, and why. */
module Histories {
  import opened Wrappers
  import opened SearchProblem
  import opened Frontiers
  import opened InteractionGraph
  import opened GraphWorkList
  import opened Separable

  const SIZE_RANGE: nat := SIZE_MAX + 1

  /** The sum of the ranges of the parameters of S from index `from` on. */
  ghost function RangeSum(ranges: seq<nat>, S: set<nat>, from: nat): nat
    requires from <= |ranges|
    decreases |ranges| - from
  {
    if from == |ranges| then 0 else (if from in S then ranges[from] else 0) + RangeSum(ranges, S, from + 1)
  }

  /** The sum of no range is zero, and every further parameter adds its own. */
  lemma {:induction false} RangeSumGrows(ranges: seq<nat>, S: set<nat>, i: nat, from: nat)
    requires from <= |ranges| && i !in S
    ensures RangeSum(ranges, {}, from) == 0
    ensures RangeSum(ranges, S + {i}, from) == RangeSum(ranges, S, from) + if from <= i < |ranges| then ranges[i] else 0
    decreases |ranges| - from
  {
    if from < |ranges| { RangeSumGrows(ranges, S, i, from + 1); }
  }

  // ---- Runs ----

  ghost predicate InRangeValues(ranges: seq<nat>, values: map<nat, nat>) {
    forall i :: i in values ==> i < |ranges| && values[i] < ranges[i]
  }

  /** Every parameter is decided, or pending in exactly one graph. */
  ghost predicate Accounted(ranges: seq<nat>, ws: seq<Graph>, values: map<nat, nat>) {
    && Pending(ws) && InRangeValues(ranges, values)
    && AllParams(ws) !! values.Keys && AllParams(ws) + values.Keys == All(|ranges|)
  }

  /** What a run is about. */
  datatype Setting = Setting(ranges: seq<nat>, bound: BoundCallback, lib: GraphLibrary, limit: nat)

  /** The pending graphs and the values decided so far. */
  datatype Stage = Stage(workList: seq<Graph>, values: map<nat, nat>)

  /** What became of the first pending graph: it was replaced by its components, it was solved, or one of its vertices
      was cut off, because the search gave up on it or because no search was tried. */
  datatype Event =
    | Decomposed
    | Solved(solution: Vec)
    | GaveUpOn(vertex: nat)
    | Refused(vertex: nat)

  ghost function ProblemAt(t: Setting, s: Stage): Problem
    requires s.workList != []
  {
    Problem(t.ranges, t.bound, Params(s.workList[0]), s.values)
  }

  /** The sum of the ranges of the first pending graph, in a size_t. */
  ghost function SizeAt(t: Setting, s: Stage): nat
    requires s.workList != []
  {
    RangeSum(t.ranges, Params(s.workList[0]), 0) % SIZE_RANGE
  }

  ghost predicate AllPending(ss: seq<Stage>, n: nat) {
    n <= |ss| && forall k :: 0 <= k < n ==> ss[k].workList != []
  }

  /** A search is tried for a single parameter, and for a part that is smaller than every part on which a search gave
      up before. */
  ghost predicate IsTried(t: Setting, ss: seq<Stage>, es: seq<Event>, k: nat)
    requires k < |ss| && k <= |es| && AllPending(ss, k) && ss[k].workList != []
  {
    || |Params(ss[k].workList[0])| == 1
    || (SizeAt(t, ss[k]) < SIZE_MAX &&
        forall j :: 0 <= j < k && es[j].GaveUpOn? ==> SizeAt(t, ss[k]) < SizeAt(t, ss[j]))
  }

  /** One graph per component replaces the first one, at the end of the list. */
  ghost predicate IsDecomposed(t: Setting, s: Stage, s2: Stage)
    requires s.workList != []
  {
    var g := s.workList[0];
    exists parts: seq<Graph> ::
      && |parts| == t.lib.componentCount(g) > 1 && ValidGraph(g) && |t.lib.componentOf(g)| == |g.parameters|
      && (forall c :: 0 <= c < |parts| ==> InducedBy(parts[c], g, Labelled(g, t.lib.componentOf(g), c)))
      && s2 == Stage(s.workList[1..] + parts, s.values)
  }

  /** The first graph is gone and every value of its solution is decided. */
  ghost predicate IsSolved(s: Stage, s2: Stage, l: Vec)
    requires s.workList != []
  {
    && s2.workList == s.workList[1..]
    && (forall i: nat :: i in s2.values <==> i < |l| && l[i].Some?)
    && (forall i: nat :: i in s2.values ==> l[i] == Some(s2.values[i]))
  }

  /** The first graph is replaced by the graph without one vertex and by that vertex alone. */
  ghost predicate IsCutOff(t: Setting, s: Stage, s2: Stage, vertex: nat)
    requires s.workList != []
  {
    var g := s.workList[0];
    && IsVertexToRemove(g, t.lib.articulationPoints(g), vertex) && |g.parameters| > 1
    && exists others, alone ::
         && InducedBy(others, g, Params(g) - {g.parameters[vertex]})
         && InducedBy(alone, g, {g.parameters[vertex]})
         && s2 == Stage(s.workList[1..] + [others, alone], s.values)
  }

  /** The event e takes stage s to s2, where a search is or is not tried. */
  ghost predicate Leads(t: Setting, tried: bool, s: Stage, e: Event, s2: Stage)
    requires s.workList != []
  {
    var p := ProblemAt(t, s);
    && (!e.Decomposed? ==> t.lib.componentCount(s.workList[0]) <= 1)
    && match e
       case Decomposed => IsDecomposed(t, s, s2)
       case Solved(l) =>
         tried && !Outgrows(p, t.limit) && OptimalFor(p, l) && p.bound(l).lower < SIZE_MAX && IsSolved(s, s2, l)
       case GaveUpOn(v) => tried && Outgrows(p, t.limit) && IsCutOff(t, s, s2, v)
       case Refused(v) => !tried && IsCutOff(t, s, s2, v)
  }

  ghost predicate Happens(t: Setting, ss: seq<Stage>, es: seq<Event>, k: nat)
    requires k + 1 < |ss| && k < |es| && AllPending(ss, k + 1)
  {
    Leads(t, IsTried(t, ss, es, k), ss[k], es[k], ss[k + 1])
  }

  ghost predicate AllHappen(t: Setting, ss: seq<Stage>, es: seq<Event>)
    requires |ss| == |es| + 1 && AllPending(ss, |es|)
  {
    forall k :: 0 <= k < |es| ==> Happens(t, ss, es, k)
  }

  ghost predicate AllAccounted(t: Setting, ss: seq<Stage>) {
    forall k :: 0 <= k < |ss| ==> Accounted(t.ranges, ss[k].workList, ss[k].values)
  }

  /** The stages that lead from the full graph on, with nothing decided, to the last of ss; every parameter is always
      decided, or pending in exactly one graph. */
  ghost predicate IsHistory(t: Setting, full: Graph, ss: seq<Stage>, es: seq<Event>) {
    && |ss| == |es| + 1 && ss[0] == Stage(if t.ranges == [] then [] else [full], map[]) && AllPending(ss, |es|)
    && AllHappen(t, ss, es) && AllAccounted(t, ss)
  }

  ghost predicate IsCut(e: Event) { e.GaveUpOn? || e.Refused? }

  // ---- What a history says ----

  /** A vertex is cut off only from a part on which a search gives up, or which is not smaller than a part on which an
      earlier search gave up. (A sum that wraps around to the largest number counts as too large by itself.) */
  lemma CutsAreJustified(t: Setting, full: Graph, ss: seq<Stage>, es: seq<Event>, k: nat)
    requires IsHistory(t, full, ss, es) && k < |es| && IsCut(es[k])
    ensures |ss[k].workList[0].parameters| > 1
    ensures || Outgrows(ProblemAt(t, ss[k]), t.limit)
            || SizeAt(t, ss[k]) == SIZE_MAX
            || exists j :: 0 <= j < k && Outgrows(ProblemAt(t, ss[j]), t.limit) && SizeAt(t, ss[j]) <= SizeAt(t, ss[k])
  {
    assert Happens(t, ss, es, k);
    assert SizeAt(t, ss[k]) < SIZE_RANGE;
    if es[k].Refused? && SizeAt(t, ss[k]) != SIZE_MAX {
      var j :| 0 <= j < k && es[j].GaveUpOn? && SizeAt(t, ss[j]) <= SizeAt(t, ss[k]);
      assert Happens(t, ss, es, j);
    }
  }

  ghost predicate Keeps(s: Stage, s2: Stage) {
    forall i :: i in s.values ==> i in s2.values && s2.values[i] == s.values[i]
  }

  lemma SolvedKeeps(p: Problem, s: Stage, s2: Stage, l: Vec)
    requires s.workList != [] && IsSolved(s, s2, l) && Leaf(p, l) && p.fixed == s.values
    requires InRangeValues(p.ranges, s.values)
    ensures Keeps(s, s2)
  {
  }

  lemma HappensKeeps(t: Setting, full: Graph, ss: seq<Stage>, es: seq<Event>, k: nat)
    requires IsHistory(t, full, ss, es) && k < |es|
    ensures Keeps(ss[k], ss[k + 1])
  {
    assert Happens(t, ss, es, k) && Accounted(t.ranges, ss[k].workList, ss[k].values);
    if es[k].Solved? { SolvedKeeps(ProblemAt(t, ss[k]), ss[k], ss[k + 1], es[k].solution); }
  }

  lemma {:induction false} AllKeep(ss: seq<Stage>, k: nat, n: nat)
    requires k <= n < |ss| && forall j :: 0 <= j < |ss| - 1 ==> Keeps(ss[j], ss[j + 1])
    ensures Keeps(ss[k], ss[n])
    decreases n
  {
    if k < n {
      AllKeep(ss, k, n - 1);
      assert Keeps(ss[n - 1], ss[n - 1 + 1]);
    }
  }

  /** What is decided stays decided. */
  lemma ValuesStay(t: Setting, full: Graph, ss: seq<Stage>, es: seq<Event>, k: nat, n: nat)
    requires IsHistory(t, full, ss, es) && k <= n < |ss|
    ensures Keeps(ss[k], ss[n])
  {
    forall j | 0 <= j < |ss| - 1
      ensures Keeps(ss[j], ss[j + 1])
    {
      HappensKeeps(t, full, ss, es, j);
    }
    AllKeep(ss, k, n);
  }

  /** The solution l with the values of v on one part of the separation. */
  ghost function Exchanged(sep: Separation, c: nat, l: Vec, v: Vec): (w: Vec)
    requires |l| == |v| == |sep.part|
    ensures |w| == |l|
  {
    seq(|l|, i requires 0 <= i < |l| => if sep.part[i] == c then v[i] else l[i])
  }

  lemma {:induction false} SumExchanged(sep: Separation, k: nat, S: set<nat>, c: nat, l: Vec, v: Vec)
    requires |l| == |v| == |sep.part| && c < sep.count && Touches(sep.part, c, S)
    requires forall d, a, b :: AgreeOn(sep.part, d, a, b) ==> sep.share(d, a) == sep.share(d, b)
    ensures Sum(sep, k, S, Exchanged(sep, c, l, v)) ==
            Sum(sep, k, S, l) + if c < k then sep.share(c, v) - sep.share(c, l) else 0
  {
    if k > 0 {
      SumExchanged(sep, k - 1, S, c, l, v);
      var w := Exchanged(sep, c, l, v);
      if k - 1 == c {
        assert AgreeOn(sep.part, c, w, v);
      } else {
        assert AgreeOn(sep.part, k - 1, w, l);
      }
    }
  }

  /** An optimal solution of parameters that include a whole part of the separation is optimal on its share. */
  lemma SolutionIsBestOnPart(sep: Separation, p: Problem, g: Graph, l: Vec, c: nat, v: Vec)
    requires ValidGraph(g) && IsSeparation(sep, p.bound, p.ranges, g) && c < sep.count
    requires OptimalFor(p, l) && p.opt !! p.fixed.Keys
    requires forall i :: 0 <= i < |sep.part| && sep.part[i] == c ==> i in p.opt
    requires InRange(v, p.ranges) && AllDefined(v)
    ensures sep.share(c, l) <= sep.share(c, v)
  {
    var w := Exchanged(sep, c, l, v);
    assert Leaf(p, w);
    assert Touches(sep.part, c, All(|p.ranges|)) by {
      assert c in sep.part;
      var i :| 0 <= i < |sep.part| && sep.part[i] == c;
      assert i in All(|p.ranges|);
    }
    SumExchanged(sep, sep.count, All(|p.ranges|), c, l, v);
  }

  /** Whatever was split elsewhere: a part of the separation that was solved as a whole is optimal in the end. */
  lemma SolvedWholeIsOptimal(t: Setting, full: Graph, ss: seq<Stage>, es: seq<Event>, sep: Separation, k: nat, c: nat,
                             v: Vec)
    requires IsHistory(t, full, ss, es) && ValidGraph(full) && IsSeparation(sep, t.bound, t.ranges, full)
    requires k < |es| && es[k].Solved? && c < sep.count
    requires forall i :: 0 <= i < |sep.part| && sep.part[i] == c ==> i in Params(ss[k].workList[0])
    requires InRange(v, t.ranges) && AllDefined(v)
    ensures sep.share(c, Decided(|t.ranges|, ss[|es|].values)) <= sep.share(c, v)
  {
    var p, l, r := ProblemAt(t, ss[k]), es[k].solution, Decided(|t.ranges|, ss[|es|].values);
    assert Happens(t, ss, es, k) && Accounted(t.ranges, ss[k].workList, ss[k].values);
    assert p.opt <= AllParams(ss[k].workList) by { assert ss[k].workList[0] in ss[k].workList; }
    SolutionIsBestOnPart(sep, p, full, l, c, v);
    ValuesStay(t, full, ss, es, k + 1, |es|);
    forall i | 0 <= i < |sep.part| && sep.part[i] == c
      ensures r[i] == l[i]
    {
      assert i in p.opt && i in ss[k + 1].values;
    }
    assert AgreeOn(sep.part, c, r, l);
  }
}
