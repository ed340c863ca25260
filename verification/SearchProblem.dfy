/** What IntegerBranchAndBoundImpl searches: partial parameter vectors, their bounds and their best completions. */
module SearchProblem {
  import opened Wrappers

  const SIZE_MAX: nat := 0xFFFF_FFFF_FFFF_FFFF

  /** A parameter vector; None is an undefined parameter. */
  type Vec = seq<Option<nat>>

  datatype Bounds = Bounds(lower: nat, upper: nat)

  type BoundCallback = Vec -> Bounds

  ghost predicate InRange(v: Vec, ranges: seq<nat>) {
    |v| == |ranges| && forall i :: 0 <= i < |v| && v[i].Some? ==> v[i].value < ranges[i]
  }

  ghost predicate AllDefined(v: Vec) {
    forall i :: 0 <= i < |v| ==> v[i].Some?
  }

  /** v defines everything w defines, with the same values. */
  ghost predicate Refines(v: Vec, w: Vec) {
    |v| == |w| && forall i :: 0 <= i < |v| && w[i].Some? ==> v[i] == w[i]
  }

  ghost predicate Completes(c: Vec, v: Vec, ranges: seq<nat>) {
    InRange(c, ranges) && AllDefined(c) && Refines(c, v)
  }

  ghost predicate UpperIsReached(bound: BoundCallback, ranges: seq<nat>, v: Vec) {
    exists c :: Completes(c, v, ranges) && bound(c).lower <= bound(v).upper
  }

  /** What the header of the optimiser asks of the callback: the upper bound is reached by the best
      completion, fully defined vectors have one value, and defining more never loosens the lower
      bound (so it is a lower bound on every completion). */
  ghost predicate SoundBounds(bound: BoundCallback, ranges: seq<nat>) {
    && (forall v :: InRange(v, ranges) ==> bound(v).upper <= SIZE_MAX)
    && (forall v :: InRange(v, ranges) && AllDefined(v) ==> bound(v).lower == bound(v).upper)
    && (forall v {:trigger UpperIsReached(bound, ranges, v)} :: InRange(v, ranges) ==> UpperIsReached(bound, ranges, v))
    && (forall v, w {:trigger Refines(v, w)} ::
        InRange(v, ranges) && InRange(w, ranges) && Refines(v, w) ==> bound(w).lower <= bound(v).lower)
  }

  /** One search: the parameters to optimise and the values already fixed. */
  datatype Problem = Problem(ranges: seq<nat>, bound: BoundCallback, opt: set<nat>, fixed: map<nat, nat>)

  ghost predicate ValidProblem(p: Problem) {
    && (forall i :: 0 <= i < |p.ranges| ==> p.ranges[i] > 0)
    && (forall i :: i in p.opt ==> i < |p.ranges|)
    && (forall i :: i in p.fixed ==> i < |p.ranges| && p.fixed[i] < p.ranges[i])
    && SoundBounds(p.bound, p.ranges)
  }

  /** A vector the search can hold: the fixed values, and some of the parameters to optimise. */
  ghost predicate Node(p: Problem, v: Vec) {
    && InRange(v, p.ranges)
    && (forall i :: 0 <= i < |v| && v[i].Some? ==> i in p.opt || i in p.fixed)
    && (forall i :: 0 <= i < |v| && i in p.fixed ==> v[i] == Some(p.fixed[i]))
  }

  /** Every parameter to optimise has a value. */
  ghost predicate Complete(p: Problem, v: Vec) {
    forall i :: i in p.opt ==> i < |v| && v[i].Some?
  }

  /** A candidate solution. */
  ghost predicate Leaf(p: Problem, v: Vec) { Node(p, v) && Complete(p, v) }

  ghost predicate LeafWithValue(p: Problem, l: Vec, m: nat) { Leaf(p, l) && p.bound(l).lower == m }

  ghost predicate IsMinimum(p: Problem, m: nat) {
    && (exists l :: LeafWithValue(p, l, m))
    && (forall l :: Leaf(p, l) ==> m <= p.bound(l).lower)
  }

  /** The undefined parameter with the smallest range, the first one on a tie. */
  ghost predicate Selected(ranges: seq<nat>, opt: set<nat>, v: Vec, i: nat)
    requires |v| == |ranges|
  {
    && i < |v| && i in opt && v[i].None?
    && forall j ::
         0 <= j < |v| && j in opt && v[j].None? ==> ranges[i] < ranges[j] || (ranges[i] == ranges[j] && i <= j)
  }

  ghost function Root(p: Problem): (v: Vec)
    ensures |v| == |p.ranges|
  {
    seq(|p.ranges|, i requires 0 <= i < |p.ranges| => if i in p.fixed then Some(p.fixed[i]) else None)
  }

  ghost predicate OptimalFor(p: Problem, v: Vec) {
    Leaf(p, v) && forall l :: Leaf(p, l) ==> p.bound(v).lower <= p.bound(l).lower
  }

  datatype Entry = Entry(parameters: Vec, bounds: Bounds)

  ghost predicate ValidEntry(p: Problem, e: Entry) { Node(p, e.parameters) && e.bounds == p.bound(e.parameters) }

  ghost predicate ValidEntries(p: Problem, ws: seq<Entry>) {
    forall k :: 0 <= k < |ws| ==> ValidEntry(p, ws[k])
  }

  /** Some best leaf lies in the region e stands for. */
  ghost predicate Covers(p: Problem, e: Entry, m: nat) {
    exists l :: LeafWithValue(p, l, m) && Refines(l, e.parameters)
  }

  ghost predicate SomeCovers(p: Problem, ws: seq<Entry>, m: nat) {
    exists k :: 0 <= k < |ws| && Covers(p, ws[k], m)
  }

  /** The best leaf in a region is no worse than the region's upper bound. */
  lemma LeafWithinUpper(p: Problem, e: Entry) returns (l: Vec)
    requires ValidProblem(p) && ValidEntry(p, e)
    ensures Leaf(p, l) && p.bound(l).lower <= e.bounds.upper
  {
    var v := e.parameters;
    assert UpperIsReached(p.bound, p.ranges, v);
    var c :| Completes(c, v, p.ranges) && p.bound(c).lower <= p.bound(v).upper;
    l := seq(|v|, i requires 0 <= i < |c| => if i in p.opt || i in p.fixed then c[i] else None);
    assert Refines(c, l);
  }

  /** Neither pruning rule can drop a region that holds a best leaf, unless that value is already known. */
  lemma BestSurvivesPruning(p: Problem, e: Entry, m: nat, w: Entry)
    requires ValidProblem(p) && ValidEntry(p, e) && ValidEntry(p, w) && IsMinimum(p, m) && Covers(p, e, m)
    ensures e.bounds.lower <= w.bounds.upper && e.bounds.lower <= m
  {
    var l := LeafWithinUpper(p, w);
    var best :| LeafWithValue(p, best, m) && Refines(best, e.parameters);
  }

  lemma MinimumBelow(p: Problem, l: Vec) returns (m: nat)
    requires Leaf(p, l)
    ensures IsMinimum(p, m)
    decreases p.bound(l).lower
  {
    if better :| Leaf(p, better) && p.bound(better).lower < p.bound(l).lower {
      m := MinimumBelow(p, better);
    } else {
      m := p.bound(l).lower;
      assert LeafWithValue(p, l, m);
    }
  }

  lemma MinimumExists(p: Problem) returns (m: nat)
    requires ValidProblem(p)
    ensures IsMinimum(p, m)
  {
    var l := seq(|p.ranges|, i requires 0 <= i < |p.ranges| =>
      if i in p.fixed then Some(p.fixed[i]) else if i in p.opt then Some(0) else None);
    m := MinimumBelow(p, l);
  }

  // ---- The size of the unexplored tree ----

  /** Bounds the number of vectors that can still be visited from v. */
  ghost function Weight(p: Problem, v: Vec, from: nat): (w: nat)
    requires |v| == |p.ranges| && from <= |v|
    ensures w > 0
    decreases |v| - from
  {
    if from == |v| then 1
    else (if from in p.opt && v[from].None? then p.ranges[from] + 1 else 1) * Weight(p, v, from + 1)
  }

  ghost function TotalWeight(p: Problem, ws: seq<Entry>): nat
    requires ValidEntries(p, ws)
  {
    if ws == [] then 0 else TotalWeight(p, ws[..|ws| - 1]) + Weight(p, ws[|ws| - 1].parameters, 0)
  }

  lemma {:induction false} WeightSame(p: Problem, v: Vec, w: Vec, from: nat)
    requires |v| == |w| == |p.ranges| && from <= |v|
    requires forall k :: from <= k < |v| ==> v[k].None? == w[k].None?
    ensures Weight(p, v, from) == Weight(p, w, from)
    decreases |v| - from
  {
    if from < |v| { WeightSame(p, v, w, from + 1); }
  }

  lemma {:induction false} WeightSplits(p: Problem, v: Vec, i: nat, x: nat, from: nat)
    requires |v| == |p.ranges| && from <= i < |v| && i in p.opt && v[i].None?
    ensures Weight(p, v, from) == (p.ranges[i] + 1) * Weight(p, v[i := Some(x)], from)
    decreases |v| - from
  {
    var w := v[i := Some(x)];
    if from == i {
      WeightSame(p, v, w, from + 1);
    } else {
      WeightSplits(p, v, i, x, from + 1);
      var c := if from in p.opt && v[from].None? then p.ranges[from] + 1 else 1;
      var r, rest := p.ranges[i] + 1, Weight(p, w, from + 1);
      assert c * (r * rest) == r * (c * rest);
    }
  }

  lemma {:induction false} TotalWeightAppend(p: Problem, a: seq<Entry>, b: seq<Entry>)
    requires ValidEntries(p, a) && ValidEntries(p, b)
    ensures ValidEntries(p, a + b) && TotalWeight(p, a + b) == TotalWeight(p, a) + TotalWeight(p, b)
    decreases |b|
  {
    if b == [] {
      assert a + b == a;
    } else {
      var n := |b| - 1;
      assert (a + b)[..|a| + n] == a + b[..n];
      TotalWeightAppend(p, a, b[..n]);
    }
  }

  lemma {:induction false} LengthWithinWeight(p: Problem, ws: seq<Entry>)
    requires ValidEntries(p, ws)
    ensures |ws| <= TotalWeight(p, ws)
  {
    if ws != [] { LengthWithinWeight(p, ws[..|ws| - 1]); }
  }
}
