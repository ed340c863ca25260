/** The sets of vectors that the search of IntegerBranchAndBoundImpl goes through, round by round. */
module Frontiers {
  import opened Wrappers
  import opened SearchProblem

  /** The open vectors before a round, and the best value of a complete vector found so far. */
  datatype Front = Front(open: set<Vec>, best: nat)

  /** The lowest lower and the lowest upper bound of the open vectors. */
  ghost predicate LowestOf(p: Problem, open: set<Vec>, lower: nat, upper: nat) {
    && (exists v :: v in open && p.bound(v).lower == lower)
    && (exists v :: v in open && p.bound(v).upper == upper)
    && (forall v :: v in open ==> lower <= p.bound(v).lower && upper <= p.bound(v).upper)
  }

  /** A round drops every other vector. */
  ghost predicate Survives(p: Problem, f: Front, v: Vec, upper: nat) {
    v in f.open && p.bound(v).lower <= upper && p.bound(v).lower < f.best
  }

  /** Refining v could change one of the lowest bounds. */
  ghost predicate Decisive(p: Problem, v: Vec, lower: nat, upper: nat) {
    p.bound(v).lower == lower || p.bound(v).upper == upper
  }

  /** v with one of the values of the parameter to define next. */
  ghost predicate IsChild(p: Problem, v: Vec, c: Vec) {
    |v| == |p.ranges|
    && exists i: nat, x: nat :: Selected(p.ranges, p.opt, v, i) && x < p.ranges[i] && c == v[i := Some(x)]
  }

  ghost predicate IsRefined(p: Problem, f: Front, c: Vec, lower: nat, upper: nat) {
    exists v ::
      Survives(p, f, v, upper) && !Complete(p, v) && Decisive(p, v, lower, upper) && IsChild(p, v, c)
  }

  /** The best value so far and the values of the complete survivors: n is the least of them. */
  ghost predicate BestOf(p: Problem, f: Front, upper: nat, n: nat) {
    && n <= f.best
    && (forall v :: Survives(p, f, v, upper) && Complete(p, v) ==> n <= p.bound(v).lower)
    && (n == f.best || exists v :: Survives(p, f, v, upper) && Complete(p, v) && p.bound(v).lower == n)
  }

  /** The decisive incomplete survivors are replaced by their children, the other incomplete ones stay. */
  ghost predicate OpenAfter(p: Problem, f: Front, c: Vec, lower: nat, upper: nat) {
    || (Survives(p, f, c, upper) && !Complete(p, c) && !Decisive(p, c, lower, upper))
    || IsRefined(p, f, c, lower, upper)
  }

  /** What one round makes of f. */
  ghost predicate FollowsWith(p: Problem, f: Front, g: Front, lower: nat, upper: nat) {
    && LowestOf(p, f.open, lower, upper) && BestOf(p, f, upper, g.best)
    && forall c :: c in g.open <==> OpenAfter(p, f, c, lower, upper)
  }

  ghost predicate Follows(p: Problem, f: Front, g: Front) {
    exists lower, upper :: FollowsWith(p, f, g, lower, upper)
  }

  /** The search starts from the fixed values alone. */
  ghost predicate IsStart(p: Problem, f: Front) {
    f.best == SIZE_MAX && exists v: Vec ::
      f.open == {v} && |v| == |p.ranges| &&
      forall i :: 0 <= i < |v| ==> v[i] == if i in p.fixed then Some(p.fixed[i]) else None
  }

  /** The fronts of the first rounds. */
  ghost predicate IsRun(p: Problem, fs: seq<Front>) {
    fs != [] && IsStart(p, fs[0]) && forall k :: 0 <= k < |fs| - 1 ==> Follows(p, fs[k], fs[k + 1])
  }

  /** With several parameters to optimise, the search reaches more open vectors than the limit. */
  ghost predicate Outgrows(p: Problem, limit: nat) {
    |p.opt| > 1 && exists fs: seq<Front> :: IsRun(p, fs) && |fs[|fs| - 1].open| > limit
  }

  // ---- There is one run ----

  lemma LowestOnce(p: Problem, open: set<Vec>, lower: nat, upper: nat, lower2: nat, upper2: nat)
    requires LowestOf(p, open, lower, upper) && LowestOf(p, open, lower2, upper2)
    ensures lower == lower2 && upper == upper2
  {
  }

  lemma BestOnce(p: Problem, f: Front, upper: nat, n: nat, n2: nat)
    requires BestOf(p, f, upper, n) && BestOf(p, f, upper, n2)
    ensures n == n2
  {
  }

  lemma FollowsOnce(p: Problem, f: Front, g: Front, h: Front)
    requires Follows(p, f, g) && Follows(p, f, h)
    ensures g == h
  {
    var lower, upper :| FollowsWith(p, f, g, lower, upper);
    var lower2, upper2 :| FollowsWith(p, f, h, lower2, upper2);
    LowestOnce(p, f.open, lower, upper, lower2, upper2);
    BestOnce(p, f, upper, g.best, h.best);
    assert forall c :: c in g.open <==> c in h.open;
  }

  lemma StartOnce(p: Problem, f: Front, g: Front)
    requires IsStart(p, f) && IsStart(p, g)
    ensures f == g
  {
    var v: Vec :| f.open == {v} && |v| == |p.ranges| &&
      forall i :: 0 <= i < |v| ==> v[i] == if i in p.fixed then Some(p.fixed[i]) else None;
    var w: Vec :| g.open == {w} && |w| == |p.ranges| &&
      forall i :: 0 <= i < |w| ==> w[i] == if i in p.fixed then Some(p.fixed[i]) else None;
    assert v == w;
  }

  /** Of two runs one continues the other. */
  lemma {:induction false} RunsAgree(p: Problem, fs: seq<Front>, gs: seq<Front>, k: nat)
    requires IsRun(p, fs) && IsRun(p, gs) && k < |fs| && k < |gs|
    ensures fs[k] == gs[k]
  {
    if k == 0 {
      StartOnce(p, fs[0], gs[0]);
    } else {
      RunsAgree(p, fs, gs, k - 1);
      FollowsOnce(p, fs[k - 1], fs[k], gs[k]);
    }
  }

  lemma NothingFollowsEmpty(p: Problem, f: Front, g: Front)
    requires f.open == {}
    ensures !Follows(p, f, g)
  {
  }

  /** A run that ends with nothing open and never outgrew the limit is the only witness there could be. */
  lemma FinishedStaysWithin(p: Problem, fs: seq<Front>, limit: nat)
    requires IsRun(p, fs) && fs[|fs| - 1].open == {} && forall k :: 0 <= k < |fs| ==> |fs[k].open| <= limit
    ensures !Outgrows(p, limit)
  {
    if Outgrows(p, limit) {
      var gs: seq<Front> :| IsRun(p, gs) && |gs[|gs| - 1].open| > limit;
      if |gs| <= |fs| {
        RunsAgree(p, fs, gs, |gs| - 1);
      } else {
        RunsAgree(p, fs, gs, |fs| - 1);
        NothingFollowsEmpty(p, gs[|fs| - 1], gs[|fs|]);
      }
    }
  }

  // ---- Work lists ----

  /** The vectors of a work list. */
  ghost function Vectors(ws: seq<Entry>): set<Vec> { set e | e in ws :: e.parameters }

  /** Some parameter has different values in v and w. */
  ghost predicate Apart(v: Vec, w: Vec) {
    |v| == |w| && exists i :: 0 <= i < |v| && v[i].Some? && w[i].Some? && v[i] != w[i]
  }

  /** No two entries stand for a common complete vector. */
  ghost predicate Separate(ws: seq<Entry>) {
    forall i, j :: 0 <= i < j < |ws| ==> Apart(ws[i].parameters, ws[j].parameters)
  }

  ghost predicate ApartFrom(ws: seq<Entry>, v: Vec) {
    forall e :: e in ws ==> Apart(e.parameters, v)
  }

  lemma VectorsAppend(ws: seq<Entry>, e: Entry)
    ensures Vectors(ws + [e]) == Vectors(ws) + {e.parameters}
  {
    assert forall x :: x in ws + [e] <==> x in ws || x == e;
  }

  lemma SeparateAppend(ws: seq<Entry>, e: Entry)
    ensures Separate(ws + [e]) <==> Separate(ws) && ApartFrom(ws, e.parameters)
  {
    var all := ws + [e];
    assert forall i :: 0 <= i < |ws| ==> all[i] == ws[i];
    if Separate(all) {
      forall i, j | 0 <= i < j < |ws|
        ensures Apart(ws[i].parameters, ws[j].parameters)
      {
        assert Apart(all[i].parameters, all[j].parameters);
      }
      forall x | x in ws
        ensures Apart(x.parameters, e.parameters)
      {
        var i :| 0 <= i < |ws| && ws[i] == x;
        assert Apart(all[i].parameters, all[|ws|].parameters);
      }
    }
  }

  lemma SeparateConcat(a: seq<Entry>, b: seq<Entry>)
    requires Separate(a) && Separate(b) && forall e :: e in b ==> ApartFrom(a, e.parameters)
    ensures Separate(a + b)
  {
    var all := a + b;
    forall i, j | 0 <= i < j < |all|
      ensures Apart(all[i].parameters, all[j].parameters)
    {
      if i < |a| <= j { assert a[i] in a && b[j - |a|] in b; }
      assert i >= |a| ==> Apart(b[i - |a|].parameters, b[j - |a|].parameters);
    }
  }

  lemma VectorsConcat(a: seq<Entry>, b: seq<Entry>)
    ensures Vectors(a + b) == Vectors(a) + Vectors(b)
  {
    assert forall e :: e in a + b <==> e in a || e in b;
  }

  lemma ApartIsSymmetric(v: Vec, w: Vec)
    ensures Apart(v, w) <==> Apart(w, v)
  {
  }

  lemma ApartRefines(v: Vec, w: Vec, x: Vec)
    requires Apart(v, w) && Refines(x, w)
    ensures Apart(v, x) && Apart(x, v)
  {
    var i :| 0 <= i < |v| && v[i].Some? && w[i].Some? && v[i] != w[i];
    assert x[i] == w[i];
  }

  /** No vector is in the list twice. */
  lemma {:induction false} SeparateCount(ws: seq<Entry>)
    requires Separate(ws)
    ensures |Vectors(ws)| == |ws|
  {
    if ws != [] {
      var before, e := ws[..|ws| - 1], ws[|ws| - 1];
      assert ws == before + [e];
      SeparateAppend(before, e);
      VectorsAppend(before, e);
      SeparateCount(before);
      assert ApartFrom(before, e.parameters);
      assert e.parameters !in Vectors(before);
    }
  }
}
