/** IntegerBranchAndBoundImpl: the work-list search over partial parameter vectors. */
module Search {
  import opened Wrappers
  import opened SearchProblem
  import opened Frontiers

  predicate Optimized(opt: set<nat>, v: Vec) {
    forall i :: i in opt ==> i < |v| && v[i].Some?
  }

  // ---- One pass over the work list ----

  /** What stays fixed during a pass. */
  datatype Pass = Pass(opt: set<nat>, lowestLower: nat, lowestUpper: nat, best: nat)

  predicate ShouldFilter(pass: Pass, b: Bounds) {
    b.lower > pass.lowestUpper || b.lower >= pass.best
  }

  /** The lists a pass builds and the best solution so far. */
  datatype Sorted = Sorted(refine: seq<Entry>, keep: seq<Entry>, best: nat, bestParameters: Vec)

  function SortEntry(pass: Pass, s: Sorted, e: Entry): Sorted {
    if ShouldFilter(pass, e.bounds) then s
    else if Optimized(pass.opt, e.parameters) then
      if e.bounds.lower < s.best then s.(best := e.bounds.lower, bestParameters := e.parameters) else s
    else if e.bounds.lower == pass.lowestLower || e.bounds.upper == pass.lowestUpper then
      s.(refine := s.refine + [e])
    else s.(keep := s.keep + [e])
  }

  /** A best value below SIZE_MAX is the value of the leaf that comes with it. */
  ghost predicate KnownBest(p: Problem, best: nat, params: Vec) {
    best <= SIZE_MAX && (best < SIZE_MAX ==> LeafWithValue(p, params, best))
  }

  /** Nothing is lost: the minimum m is known, or some entry still leads to it. */
  ghost predicate NothingLost(p: Problem, best: nat, a: seq<Entry>, b: seq<Entry>, m: nat) {
    best == m || SomeCovers(p, a, m) || SomeCovers(p, b, m)
  }

  ghost predicate Unfinished(p: Problem, ws: seq<Entry>) {
    forall k :: 0 <= k < |ws| ==> !Optimized(p.opt, ws[k].parameters)
  }

  ghost predicate WellSorted(p: Problem, pass: Pass, s: Sorted) {
    && ValidEntries(p, s.refine) && ValidEntries(p, s.keep) && Unfinished(p, s.refine)
    && KnownBest(p, s.best, s.bestParameters) && s.best <= pass.best
  }

  ghost predicate HasLowest(pass: Pass, ws: seq<Entry>) {
    exists k :: 0 <= k < |ws| && ws[k].bounds.lower == pass.lowestLower
  }

  /** The lists hold no more than the entries seen; an entry with the lowest lower bound is gone or refined. */
  ghost predicate Progress(p: Problem, pass: Pass, ws: seq<Entry>, s: Sorted)
    requires ValidEntries(p, ws) && ValidEntries(p, s.refine) && ValidEntries(p, s.keep)
  {
    && TotalWeight(p, s.refine) + TotalWeight(p, s.keep) <= TotalWeight(p, ws)
    && (HasLowest(pass, ws) ==> s.refine != [] || TotalWeight(p, s.keep) < TotalWeight(p, ws))
  }

  /** What the pass has established about the entries ws it has seen. */
  ghost predicate SortedSoFar(p: Problem, pass: Pass, ws: seq<Entry>, s: Sorted, m: nat) {
    && ValidEntries(p, ws) && WellSorted(p, pass, s)
    && (SomeCovers(p, ws, m) && m < SIZE_MAX ==> NothingLost(p, s.best, s.refine, s.keep, m))
    && Progress(p, pass, ws, s)
  }

  lemma CoversAppend(p: Problem, ws: seq<Entry>, e: Entry, m: nat)
    ensures SomeCovers(p, ws + [e], m) <==> SomeCovers(p, ws, m) || Covers(p, e, m)
  {
    if k :| 0 <= k < |ws| && Covers(p, ws[k], m) {
      assert (ws + [e])[k] == ws[k];
    }
    if Covers(p, e, m) {
      assert (ws + [e])[|ws|] == e;
    }
  }

  /** The only best leaf a finished entry can cover is itself. */
  lemma FinishedCoversItself(p: Problem, e: Entry, m: nat)
    requires ValidEntry(p, e) && Optimized(p.opt, e.parameters) && Covers(p, e, m)
    ensures LeafWithValue(p, e.parameters, m)
  {
    var l :| LeafWithValue(p, l, m) && Refines(l, e.parameters);
    assert l == e.parameters;
  }

  /** One entry keeps what matters: w is the entry with the lowest upper bound. */
  lemma SortEntryKeepsBest(p: Problem, pass: Pass, s: Sorted, e: Entry, m: nat, w: Entry)
    requires ValidProblem(p) && pass.opt == p.opt && IsMinimum(p, m) && m < SIZE_MAX
    requires ValidEntry(p, e) && ValidEntry(p, w) && w.bounds.upper == pass.lowestUpper
    requires KnownBest(p, s.best, s.bestParameters) && s.best <= pass.best
    requires Covers(p, e, m) || NothingLost(p, s.best, s.refine, s.keep, m)
    ensures var t := SortEntry(pass, s, e); NothingLost(p, t.best, t.refine, t.keep, m)
  {
    assert m <= s.best;
    CoversAppend(p, s.refine, e, m);
    CoversAppend(p, s.keep, e, m);
    if Covers(p, e, m) {
      BestSurvivesPruning(p, e, m, w);
      if Optimized(p.opt, e.parameters) { FinishedCoversItself(p, e, m); }
    }
  }

  lemma SortEntryWellSorted(p: Problem, pass: Pass, s: Sorted, e: Entry)
    requires pass.opt == p.opt && WellSorted(p, pass, s) && ValidEntry(p, e)
    ensures WellSorted(p, pass, SortEntry(pass, s, e))
  {
  }

  lemma HasLowestAppend(pass: Pass, ws: seq<Entry>, e: Entry)
    ensures HasLowest(pass, ws + [e]) ==> HasLowest(pass, ws) || e.bounds.lower == pass.lowestLower
  {
    var more := ws + [e];
    if k :| 0 <= k < |more| && more[k].bounds.lower == pass.lowestLower {
      assert k < |ws| ==> ws[k] == more[k];
    }
  }

  lemma TotalWeightOneMore(p: Problem, ws: seq<Entry>, e: Entry)
    requires ValidEntries(p, ws) && ValidEntry(p, e)
    ensures ValidEntries(p, ws + [e])
    ensures TotalWeight(p, ws + [e]) == TotalWeight(p, ws) + Weight(p, e.parameters, 0)
  {
    assert (ws + [e])[..|ws|] == ws;
  }

  /** An entry is put into at most one of the lists, and an entry with the lowest lower bound is never kept. */
  lemma SortEntryPlaces(pass: Pass, s: Sorted, e: Entry)
    ensures var t := SortEntry(pass, s, e);
      || (t.refine == s.refine && t.keep == s.keep)
      || (t.refine == s.refine + [e] && t.keep == s.keep)
      || (t.refine == s.refine && t.keep == s.keep + [e] && e.bounds.lower != pass.lowestLower)
  {
  }

  lemma SortEntryProgress(p: Problem, pass: Pass, ws: seq<Entry>, s: Sorted, e: Entry)
    requires pass.opt == p.opt && WellSorted(p, pass, s) && ValidEntries(p, ws) && ValidEntry(p, e)
    requires Progress(p, pass, ws, s)
    ensures WellSorted(p, pass, SortEntry(pass, s, e)) && ValidEntries(p, ws + [e])
    ensures Progress(p, pass, ws + [e], SortEntry(pass, s, e))
  {
    SortEntryWellSorted(p, pass, s, e);
    SortEntryPlaces(pass, s, e);
    var t := SortEntry(pass, s, e);
    TotalWeightOneMore(p, ws, e);
    TotalWeightOneMore(p, s.refine, e);
    TotalWeightOneMore(p, s.keep, e);
    HasLowestAppend(pass, ws, e);
    if t.keep != s.keep { assert HasLowest(pass, ws + [e]) ==> HasLowest(pass, ws); }
  }

  lemma SortStep(p: Problem, pass: Pass, ws: seq<Entry>, s: Sorted, e: Entry, m: nat, w: Entry)
    requires ValidProblem(p) && pass.opt == p.opt && IsMinimum(p, m)
    requires ValidEntry(p, e) && ValidEntry(p, w) && w.bounds.upper == pass.lowestUpper
    requires SortedSoFar(p, pass, ws, s, m)
    ensures SortedSoFar(p, pass, ws + [e], SortEntry(pass, s, e), m)
  {
    SortEntryProgress(p, pass, ws, s, e);
    CoversAppend(p, ws, e, m);
    if (SomeCovers(p, ws, m) || Covers(p, e, m)) && m < SIZE_MAX {
      SortEntryKeepsBest(p, pass, s, e, m, w);
    }
  }

  // ---- Refinement ----

  method SelectParameterToDefine(ranges: seq<nat>, opt: set<nat>, v: Vec) returns (selected: nat)
    requires |v| == |ranges| && (forall i :: i in opt ==> i < |v|) && !Optimized(opt, v)
    ensures Selected(ranges, opt, v, selected)
  {
    var found: Option<nat> := None;
    for i := 0 to |v|
      invariant found.None? ==> forall j :: 0 <= j < i ==> j !in opt || v[j].Some?
      invariant found.Some? ==> found.value < i && found.value in opt && v[found.value].None?
      invariant found.Some? ==> forall j :: 0 <= j < i && j in opt && v[j].None? ==>
        ranges[found.value] < ranges[j] || (ranges[found.value] == ranges[j] && found.value <= j)
    {
      if v[i].None? && i in opt {
        if found.Some? {
          if ranges[i] < ranges[found.value] { found := Some(i); }
        } else {
          found := Some(i);
        }
      }
    }
    selected := found.value;
  }

  function Child(bound: BoundCallback, v: Vec, i: nat, x: nat): Entry
    requires i < |v|
  {
    Entry(v[i := Some(x)], bound(v[i := Some(x)]))
  }

  ghost function Children(bound: BoundCallback, v: Vec, i: nat, n: nat): (c: seq<Entry>)
    requires i < |v|
    ensures |c| == n && forall x :: 0 <= x < n ==> c[x] == Child(bound, v, i, x)
  {
    if n == 0 then [] else Children(bound, v, i, n - 1) + [Child(bound, v, i, n - 1)]
  }

  lemma ChildIsValid(p: Problem, v: Vec, i: nat, x: nat)
    requires Node(p, v) && i < |v| && i in p.opt && v[i].None? && x < p.ranges[i]
    ensures ValidEntry(p, Child(p.bound, v, i, x))
  {
  }

  lemma ChildrenAreValid(p: Problem, v: Vec, i: nat, n: nat)
    requires Node(p, v) && i < |v| && i in p.opt && v[i].None? && n <= p.ranges[i]
    ensures ValidEntries(p, Children(p.bound, v, i, n))
  {
    forall x | 0 <= x < n
      ensures ValidEntry(p, Children(p.bound, v, i, n)[x])
    {
      ChildIsValid(p, v, i, x);
    }
  }

  lemma OneMoreTimes(n: nat, w: nat)
    ensures n * w + w == (n + 1) * w
  {
  }

  lemma {:induction false} ChildrenWeight(p: Problem, v: Vec, i: nat, n: nat)
    requires |v| == |p.ranges| && i < |v| && ValidEntries(p, Children(p.bound, v, i, n))
    ensures TotalWeight(p, Children(p.bound, v, i, n)) == n * Weight(p, v[i := Some(0)], 0)
  {
    if n > 0 {
      var all, before, last := Children(p.bound, v, i, n), Children(p.bound, v, i, n - 1), Child(p.bound, v, i, n - 1);
      assert all[..n - 1] == before;
      assert forall k :: 0 <= k < n - 1 ==> before[k] == all[k];
      ChildrenWeight(p, v, i, n - 1);
      WeightSame(p, last.parameters, v[i := Some(0)], 0);
      OneMoreTimes(n - 1, Weight(p, v[i := Some(0)], 0));
    }
  }

  lemma ChildrenCover(p: Problem, e: Entry, i: nat, m: nat)
    requires ValidEntry(p, e) && i < |e.parameters| && i in p.opt && Covers(p, e, m)
    ensures SomeCovers(p, Children(p.bound, e.parameters, i, p.ranges[i]), m)
  {
    var c := Children(p.bound, e.parameters, i, p.ranges[i]);
    var l: Vec :| LeafWithValue(p, l, m) && Refines(l, e.parameters);
    var x := l[i].value;
    assert c[x] == Child(p.bound, e.parameters, i, x);
    assert Refines(l, c[x].parameters);
    assert Covers(p, c[x], m);
  }

  /** The values of the chosen parameter partition the region, and the children weigh less than the parent. */
  lemma RefiningKeepsRegion(p: Problem, e: Entry, i: nat, m: nat)
    requires ValidEntry(p, e) && Selected(p.ranges, p.opt, e.parameters, i)
    ensures ValidEntries(p, Children(p.bound, e.parameters, i, p.ranges[i]))
    ensures TotalWeight(p, Children(p.bound, e.parameters, i, p.ranges[i])) < Weight(p, e.parameters, 0)
    ensures Covers(p, e, m) ==> SomeCovers(p, Children(p.bound, e.parameters, i, p.ranges[i]), m)
  {
    ChildrenAreValid(p, e.parameters, i, p.ranges[i]);
    ChildrenWeighLess(p, e.parameters, i);
    if Covers(p, e, m) { ChildrenCover(p, e, i, m); }
  }

  lemma ChildrenWeighLess(p: Problem, v: Vec, i: nat)
    requires |v| == |p.ranges| && i < |v| && i in p.opt && v[i].None?
    requires ValidEntries(p, Children(p.bound, v, i, p.ranges[i]))
    ensures TotalWeight(p, Children(p.bound, v, i, p.ranges[i])) < Weight(p, v, 0)
  {
    var w: nat := Weight(p, v[i := Some(0)], 0);
    ChildrenWeight(p, v, i, p.ranges[i]);
    WeightSplits(p, v, i, 0, 0);
    OneMoreIsMore(p.ranges[i], w);
  }

  lemma OneMoreIsMore(r: nat, w: nat)
    requires w > 0
    ensures r * w < (r + 1) * w
  {
  }

  method RefineEntry(p: Problem, base: Entry, resultList: seq<Entry>) returns (r: seq<Entry>, ghost i: nat)
    requires ValidProblem(p) && ValidEntry(p, base) && !Optimized(p.opt, base.parameters)
    ensures Selected(p.ranges, p.opt, base.parameters, i)
    ensures r == resultList + Children(p.bound, base.parameters, i, p.ranges[i])
  {
    var newParameter := SelectParameterToDefine(p.ranges, p.opt, base.parameters);
    i := newParameter;
    r := resultList;
    for value := 0 to p.ranges[newParameter]
      invariant r == resultList + Children(p.bound, base.parameters, newParameter, value)
    {
      var newParams := base.parameters[newParameter := Some(value)];
      var bounds := p.bound(newParams);
      assert bounds.lower >= base.bounds.lower by {
        assert Refines(newParams, base.parameters);
      }
      r := r + [Entry(newParams, bounds)];
    }
  }

  lemma CoversConcat(p: Problem, a: seq<Entry>, b: seq<Entry>, m: nat)
    ensures SomeCovers(p, a + b, m) <==> SomeCovers(p, a, m) || SomeCovers(p, b, m)
  {
    if k :| 0 <= k < |a| && Covers(p, a[k], m) { assert (a + b)[k] == a[k]; }
    if k :| 0 <= k < |b| && Covers(p, b[k], m) { assert (a + b)[|a| + k] == b[k]; }
    if k :| 0 <= k < |a + b| && Covers(p, (a + b)[k], m) {
      if k < |a| { assert Covers(p, a[k], m); } else { assert Covers(p, b[k - |a|], m); }
    }
  }

  /** The lists grown from the first k elements. */
  ghost predicate RefinedSoFar(p: Problem, elements: seq<Entry>, k: nat, keep: seq<Entry>, r: seq<Entry>, m: nat)
    requires k <= |elements|
  {
    && ValidEntries(p, elements[..k]) && ValidEntries(p, keep) && ValidEntries(p, r)
    && TotalWeight(p, r) <= TotalWeight(p, keep) + TotalWeight(p, elements[..k]) - k
    && (SomeCovers(p, keep, m) || SomeCovers(p, elements[..k], m) ==> SomeCovers(p, r, m))
  }

  lemma RefineStep(p: Problem, elements: seq<Entry>, k: nat, keep: seq<Entry>, r: seq<Entry>, i: nat, m: nat)
    requires ValidProblem(p) && k < |elements| && RefinedSoFar(p, elements, k, keep, r, m)
    requires ValidEntry(p, elements[k]) && Selected(p.ranges, p.opt, elements[k].parameters, i)
    ensures RefinedSoFar(p, elements, k + 1, keep, r + Children(p.bound, elements[k].parameters, i, p.ranges[i]), m)
  {
    var e := elements[k];
    var c := Children(p.bound, e.parameters, i, p.ranges[i]);
    assert elements[..k + 1] == elements[..k] + [e];
    RefiningKeepsRegion(p, e, i, m);
    TotalWeightAppend(p, r, c);
    CoversConcat(p, r, c, m);
    CoversAppend(p, elements[..k], e, m);
    TotalWeightOneMore(p, elements[..k], e);
  }

  // ---- What refinement does to the set of open vectors ----

  lemma ChildrenVectors(p: Problem, v: Vec, i: nat, c: Vec)
    requires |v| == |p.ranges| && Selected(p.ranges, p.opt, v, i)
    ensures c in Vectors(Children(p.bound, v, i, p.ranges[i])) <==> IsChild(p, v, c)
  {
    var children := Children(p.bound, v, i, p.ranges[i]);
    if IsChild(p, v, c) {
      var j: nat, x: nat :| Selected(p.ranges, p.opt, v, j) && x < p.ranges[j] && c == v[j := Some(x)];
      assert j == i;
      assert children[x] in children && children[x].parameters == c;
    }
    if e :| e in children && e.parameters == c {
      var x :| 0 <= x < |children| && children[x] == e;
      assert c == v[i := Some(x)];
    }
  }

  lemma ChildrenApart(bound: BoundCallback, v: Vec, i: nat, n: nat)
    requires i < |v| && v[i].None?
    ensures Separate(Children(bound, v, i, n))
    ensures forall e :: e in Children(bound, v, i, n) ==> Refines(e.parameters, v)
  {
    var c := Children(bound, v, i, n);
    forall x, y | 0 <= x < y < n
      ensures Apart(c[x].parameters, c[y].parameters)
    {
      assert c[x].parameters[i] == Some(x) && c[y].parameters[i] == Some(y);
    }
  }

  ghost predicate ChildOfSome(p: Problem, es: seq<Entry>, c: Vec) {
    exists e :: e in es && IsChild(p, e.parameters, c)
  }

  /** The vectors of r are those of `keep` and the children of the elements. */
  ghost predicate Grown(p: Problem, elements: seq<Entry>, keep: seq<Entry>, r: seq<Entry>) {
    forall c :: c in Vectors(r) <==> c in Vectors(keep) || ChildOfSome(p, elements, c)
  }

  ghost predicate AllApartFrom(r: seq<Entry>, elements: seq<Entry>) {
    forall e :: e in elements ==> ApartFrom(r, e.parameters)
  }

  lemma GrownStep(p: Problem, before: seq<Entry>, e: Entry, keep: seq<Entry>, r: seq<Entry>, i: nat)
    requires Grown(p, before, keep, r) && |e.parameters| == |p.ranges| && Selected(p.ranges, p.opt, e.parameters, i)
    ensures Grown(p, before + [e], keep, r + Children(p.bound, e.parameters, i, p.ranges[i]))
  {
    var children := Children(p.bound, e.parameters, i, p.ranges[i]);
    VectorsConcat(r, children);
    assert forall x :: x in before + [e] <==> x in before || x == e;
    forall c
      ensures c in Vectors(children) <==> IsChild(p, e.parameters, c)
    {
      ChildrenVectors(p, e.parameters, i, c);
    }
    assert e in before + [e];
  }

  lemma ChildrenApartFrom(r: seq<Entry>, children: seq<Entry>, v: Vec)
    requires ApartFrom(r, v) && forall c :: c in children ==> Refines(c.parameters, v)
    ensures AllApartFrom(r, children)
  {
    forall c, x | c in children && x in r
      ensures Apart(x.parameters, c.parameters)
    {
      ApartRefines(x.parameters, v, c.parameters);
    }
  }

  lemma RestApartFrom(r: seq<Entry>, children: seq<Entry>, v: Vec, rest: seq<Entry>)
    requires AllApartFrom(r, rest) && (forall c :: c in children ==> Refines(c.parameters, v))
    requires forall x :: x in rest ==> Apart(v, x.parameters)
    ensures AllApartFrom(r + children, rest)
  {
    forall c, x | c in children && x in rest
      ensures Apart(c.parameters, x.parameters)
    {
      ApartIsSymmetric(v, x.parameters);
      ApartRefines(x.parameters, v, c.parameters);
    }
  }

  lemma SeparateTail(e: Entry, rest: seq<Entry>)
    requires Separate([e] + rest)
    ensures Separate(rest) && forall x :: x in rest ==> Apart(e.parameters, x.parameters)
  {
    var all := [e] + rest;
    assert forall j :: 0 <= j < |rest| ==> all[j + 1] == rest[j];
    forall j, k | 0 <= j < k < |rest|
      ensures Apart(rest[j].parameters, rest[k].parameters)
    {
      assert Apart(all[j + 1].parameters, all[k + 1].parameters);
    }
    forall x | x in rest
      ensures Apart(e.parameters, x.parameters)
    {
      var j :| 0 <= j < |rest| && rest[j] == x;
      assert Apart(all[0].parameters, all[j + 1].parameters);
    }
  }

  lemma ApartStep(p: Problem, r: seq<Entry>, e: Entry, rest: seq<Entry>, i: nat)
    requires |e.parameters| == |p.ranges| && Selected(p.ranges, p.opt, e.parameters, i)
    requires Separate(r) && ApartFrom(r, e.parameters) && AllApartFrom(r, rest) && Separate([e] + rest)
    ensures Separate(r + Children(p.bound, e.parameters, i, p.ranges[i]))
    ensures AllApartFrom(r + Children(p.bound, e.parameters, i, p.ranges[i]), rest) && Separate(rest)
  {
    var children := Children(p.bound, e.parameters, i, p.ranges[i]);
    ChildrenApart(p.bound, e.parameters, i, p.ranges[i]);
    ChildrenApartFrom(r, children, e.parameters);
    SeparateConcat(r, children);
    SeparateTail(e, rest);
    RestApartFrom(r, children, e.parameters, rest);
  }

  /** The lists grown from the first k elements, and what is left. */
  ghost predicate Refining(p: Problem, elements: seq<Entry>, k: nat, keep: seq<Entry>, r: seq<Entry>) {
    && k <= |elements| && Grown(p, elements[..k], keep, r)
    && Separate(r) && Separate(elements[k..]) && AllApartFrom(r, elements[k..])
  }

  lemma RefiningStep(p: Problem, elements: seq<Entry>, k: nat, keep: seq<Entry>, r: seq<Entry>, i: nat)
    requires k < |elements| && Refining(p, elements, k, keep, r)
    requires |elements[k].parameters| == |p.ranges| && Selected(p.ranges, p.opt, elements[k].parameters, i)
    ensures Refining(p, elements, k + 1, keep, r + Children(p.bound, elements[k].parameters, i, p.ranges[i]))
  {
    assert elements[..k + 1] == elements[..k] + [elements[k]];
    assert elements[k..] == [elements[k]] + elements[k + 1..];
    assert elements[k] in elements[k..] && forall e :: e in elements[k + 1..] ==> e in elements[k..];
    GrownStep(p, elements[..k], elements[k], keep, r, i);
    ApartStep(p, r, elements[k], elements[k + 1..], i);
  }

  lemma RefiningStarts(p: Problem, elements: seq<Entry>, keep: seq<Entry>)
    requires Separate(elements) && Separate(keep) && AllApartFrom(keep, elements)
    ensures Refining(p, elements, 0, keep, keep)
  {
    assert elements[0..] == elements;
  }

  lemma RefiningEnds(p: Problem, elements: seq<Entry>, keep: seq<Entry>, r: seq<Entry>)
    requires Refining(p, elements, |elements|, keep, r)
    ensures Grown(p, elements, keep, r) && Separate(r)
  {
    assert elements[..|elements|] == elements;
  }

  /** Appends the children of every element, and nothing else; no best region is lost and the tree shrinks. */
  method RefineAll(p: Problem, elements: seq<Entry>, keep: seq<Entry>, ghost m: nat) returns (r: seq<Entry>)
    requires ValidProblem(p) && ValidEntries(p, elements) && ValidEntries(p, keep) && Unfinished(p, elements)
    requires Separate(elements) && Separate(keep) && AllApartFrom(keep, elements)
    ensures ValidEntries(p, r) && Grown(p, elements, keep, r) && Separate(r)
    ensures TotalWeight(p, r) <= TotalWeight(p, keep) + TotalWeight(p, elements) - |elements|
    ensures SomeCovers(p, keep, m) || SomeCovers(p, elements, m) ==> SomeCovers(p, r, m)
  {
    r := keep;
    RefiningStarts(p, elements, keep);
    for k := 0 to |elements|
      invariant RefinedSoFar(p, elements, k, keep, r, m) && Refining(p, elements, k, keep, r)
    {
      ghost var before, i := r, 0;
      r, i := RefineEntry(p, elements[k], r);
      RefineStep(p, elements, k, keep, before, i, m);
      RefiningStep(p, elements, k, keep, before, i);
    }
    RefiningEnds(p, elements, keep, r);
    assert elements[..|elements|] == elements;
  }

  // ---- The search ----

  datatype SearchResult =
    | GaveUp                  // the work list outgrew its limit
    | NoSolution              // no value below SIZE_MAX exists: the final assertion of the search fails
    | Found(parameters: Vec)

  /** The bounds of entries i and j are the lowest. */
  ghost predicate LowestAt(ws: seq<Entry>, lower: nat, upper: nat, i: nat, j: nat) {
    && i < |ws| && j < |ws| && ws[i].bounds.lower == lower && ws[j].bounds.upper == upper
    && forall k :: 0 <= k < |ws| ==> lower <= ws[k].bounds.lower && upper <= ws[k].bounds.upper
  }

  method LowestBounds(p: Problem, ws: seq<Entry>) returns (lower: nat, upper: nat, ghost i: nat, ghost j: nat)
    requires ValidProblem(p) && ValidEntries(p, ws) && ws != []
    ensures LowestAt(ws, lower, upper, i, j)
  {
    lower, upper, i, j := SIZE_MAX, SIZE_MAX, 0, 0;
    for k := 0 to |ws|
      invariant lower <= SIZE_MAX && upper <= SIZE_MAX && i < |ws| && j < |ws|
      invariant lower == SIZE_MAX || ws[i].bounds.lower == lower
      invariant upper == SIZE_MAX || ws[j].bounds.upper == upper
      invariant forall n :: 0 <= n < k ==> lower <= ws[n].bounds.lower && upper <= ws[n].bounds.upper
    {
      LowerBelowUpper(p, ws[k]);
      if ws[k].bounds.lower < lower { lower := ws[k].bounds.lower; i := k; }
      if ws[k].bounds.upper < upper { upper := ws[k].bounds.upper; j := k; }
    }
    LowerBelowUpper(p, ws[0]);
    LowerBelowUpper(p, ws[i]);
    LowerBelowUpper(p, ws[j]);
  }

  lemma LowerBelowUpper(p: Problem, e: Entry)
    requires ValidProblem(p) && ValidEntry(p, e)
    ensures e.bounds.lower <= e.bounds.upper <= SIZE_MAX
  {
    var v := e.parameters;
    assert UpperIsReached(p.bound, p.ranges, v);
    var c :| Completes(c, v, p.ranges) && p.bound(c).lower <= p.bound(v).upper;
  }

  ghost function SortAll(pass: Pass, init: Sorted, ws: seq<Entry>): Sorted {
    if ws == [] then init else SortEntry(pass, SortAll(pass, init, ws[..|ws| - 1]), ws[|ws| - 1])
  }

  lemma SortStarts(p: Problem, pass: Pass, bestParameters: Vec, m: nat)
    requires KnownBest(p, pass.best, bestParameters)
    ensures SortedSoFar(p, pass, [], Sorted([], [], pass.best, bestParameters), m)
  {
  }

  lemma SortAllStep(pass: Pass, init: Sorted, ws: seq<Entry>, e: Entry)
    ensures SortAll(pass, init, ws + [e]) == SortEntry(pass, SortAll(pass, init, ws), e)
  {
    assert (ws + [e])[..|ws|] == ws;
  }

  /** The pass as a function keeps what matters. */
  lemma {:induction false} SortAllKeeps(p: Problem, pass: Pass, bestParameters: Vec, ws: seq<Entry>, m: nat, w: Entry)
    requires ValidProblem(p) && pass.opt == p.opt && IsMinimum(p, m) && ValidEntries(p, ws)
    requires KnownBest(p, pass.best, bestParameters)
    requires ValidEntry(p, w) && w.bounds.upper == pass.lowestUpper
    ensures SortedSoFar(p, pass, ws, SortAll(pass, Sorted([], [], pass.best, bestParameters), ws), m)
  {
    if ws == [] {
      SortStarts(p, pass, bestParameters, m);
    } else {
      var before, e := ws[..|ws| - 1], ws[|ws| - 1];
      assert ws == before + [e];
      SortAllKeeps(p, pass, bestParameters, before, m, w);
      SortAllKeepsOne(p, pass, Sorted([], [], pass.best, bestParameters), before, e, m, w);
    }
  }

  lemma SortAllKeepsOne(p: Problem, pass: Pass, init: Sorted, seen: seq<Entry>, e: Entry, m: nat, w: Entry)
    requires ValidProblem(p) && pass.opt == p.opt && IsMinimum(p, m)
    requires ValidEntry(p, e) && ValidEntry(p, w) && w.bounds.upper == pass.lowestUpper
    requires SortedSoFar(p, pass, seen, SortAll(pass, init, seen), m)
    ensures SortedSoFar(p, pass, seen + [e], SortAll(pass, init, seen + [e]), m)
  {
    SortAllStep(pass, init, seen, e);
    SortStep(p, pass, seen, SortAll(pass, init, seen), e, m, w);
  }

  // ---- What a pass does to the set of open vectors ----

  ghost predicate GoesOn(pass: Pass, e: Entry) {
    !ShouldFilter(pass, e.bounds) && !Optimized(pass.opt, e.parameters)
  }

  ghost predicate HasLowestBound(pass: Pass, e: Entry) {
    e.bounds.lower == pass.lowestLower || e.bounds.upper == pass.lowestUpper
  }

  ghost predicate Finishes(pass: Pass, e: Entry) {
    !ShouldFilter(pass, e.bounds) && Optimized(pass.opt, e.parameters)
  }

  /** Where the pass puts the entries of ws. */
  ghost predicate SplitUp(pass: Pass, ws: seq<Entry>, s: Sorted) {
    && (forall e :: e in s.refine <==> e in ws && GoesOn(pass, e) && HasLowestBound(pass, e))
    && (forall e :: e in s.keep <==> e in ws && GoesOn(pass, e) && !HasLowestBound(pass, e))
    && s.best <= pass.best
    && (forall e :: e in ws && Finishes(pass, e) ==> s.best <= e.bounds.lower)
    && (s.best == pass.best || exists e :: e in ws && Finishes(pass, e) && e.bounds.lower == s.best)
  }

  ghost predicate SplitApart(ws: seq<Entry>, s: Sorted) {
    Separate(ws) ==> Separate(s.refine) && Separate(s.keep) && AllApartFrom(s.keep, s.refine)
  }

  lemma SplitUpStep(pass: Pass, ws: seq<Entry>, s: Sorted, e: Entry)
    requires SplitUp(pass, ws, s)
    ensures SplitUp(pass, ws + [e], SortEntry(pass, s, e))
  {
    assert forall x :: x in ws + [e] <==> x in ws || x == e;
    assert e in ws + [e];
  }

  lemma SplitApartStep(pass: Pass, ws: seq<Entry>, s: Sorted, e: Entry)
    requires SplitUp(pass, ws, s) && SplitApart(ws, s)
    ensures SplitApart(ws + [e], SortEntry(pass, s, e))
  {
    SeparateAppend(ws, e);
    SeparateAppend(s.refine, e);
    SeparateAppend(s.keep, e);
    if Separate(ws + [e]) {
      assert forall x :: x in s.refine || x in s.keep ==> Apart(x.parameters, e.parameters);
    }
  }

  lemma {:induction false} SortAllSplits(pass: Pass, bestParameters: Vec, ws: seq<Entry>)
    ensures var s := SortAll(pass, Sorted([], [], pass.best, bestParameters), ws);
      SplitUp(pass, ws, s) && SplitApart(ws, s)
  {
    if ws != [] {
      var before, e := ws[..|ws| - 1], ws[|ws| - 1];
      assert ws == before + [e];
      SortAllSplits(pass, bestParameters, before);
      var s := SortAll(pass, Sorted([], [], pass.best, bestParameters), before);
      SplitUpStep(pass, before, s, e);
      SplitApartStep(pass, before, s, e);
    }
  }

  method SortOne(pass: Pass, s: Sorted, e: Entry) returns (t: Sorted)
    ensures t == SortEntry(pass, s, e)
  {
    t := s;
    if !ShouldFilter(pass, e.bounds) {
      if Optimized(pass.opt, e.parameters) {
        if e.bounds.lower < s.best {
          t := s.(best := e.bounds.lower, bestParameters := e.parameters);
        }
      } else if e.bounds.lower == pass.lowestLower || e.bounds.upper == pass.lowestUpper {
        t := s.(refine := s.refine + [e]);
      } else {
        t := s.(keep := s.keep + [e]);
      }
    }
  }

  /** One pass: prune, record finished entries, and split the rest into those to refine and those to keep. */
  method SortWorkList(p: Problem, pass: Pass, ws: seq<Entry>, bestParameters: Vec, ghost m: nat, ghost w: Entry)
    returns (s: Sorted)
    requires ValidProblem(p) && pass.opt == p.opt && IsMinimum(p, m) && ValidEntries(p, ws)
    requires KnownBest(p, pass.best, bestParameters)
    requires ValidEntry(p, w) && w.bounds.upper == pass.lowestUpper
    ensures SortedSoFar(p, pass, ws, s, m) && SplitUp(pass, ws, s) && SplitApart(ws, s)
  {
    ghost var init := Sorted([], [], pass.best, bestParameters);
    s := Sorted([], [], pass.best, bestParameters);
    ghost var seen: seq<Entry> := [];
    for k := 0 to |ws|
      invariant seen == ws[..k] && s == SortAll(pass, init, seen)
    {
      SortAllStep(pass, init, seen, ws[k]);
      s := SortOne(pass, s, ws[k]);
      seen := seen + [ws[k]];
    }
    assert seen == ws;
    SortAllSplits(pass, bestParameters, ws);
    SortAllKeeps(p, pass, bestParameters, ws, m, w);
  }

  method Seed(p: Problem) returns (v: Vec)
    requires ValidProblem(p)
    ensures v == Root(p)
  {
    v := seq(|p.ranges|, _ => None);
    for i := 0 to |p.ranges|
      invariant |v| == |p.ranges|
      invariant forall k :: 0 <= k < |v| ==> v[k] == if k < i && k in p.fixed then Some(p.fixed[k]) else None
    {
      if i in p.fixed { v := v[i := Some(p.fixed[i])]; }
    }
  }

  /** Between rounds: every entry is a search vector, and the minimum is known or still covered. */
  ghost predicate Searching(p: Problem, ws: seq<Entry>, best: nat, bestParameters: Vec, m: nat) {
    && ValidEntries(p, ws) && KnownBest(p, best, bestParameters)
    && (m < SIZE_MAX ==> best == m || SomeCovers(p, ws, m))
  }

  lemma SearchStarts(p: Problem, m: nat)
    requires ValidProblem(p) && IsMinimum(p, m)
    ensures var ws := [Entry(Root(p), p.bound(Root(p)))];
      Searching(p, ws, SIZE_MAX, [], m) && TotalWeight(p, ws) == Weight(p, Root(p), 0)
  {
    var ws := [Entry(Root(p), p.bound(Root(p)))];
    var l :| LeafWithValue(p, l, m);
    assert Refines(l, ws[0].parameters);
    assert Covers(p, ws[0], m);
    assert ws[..0] == [];
  }

  // ---- One round ----

  lemma RoundLowest(p: Problem, pass: Pass, ws: seq<Entry>, i: nat, j: nat)
    requires ValidEntries(p, ws) && LowestAt(ws, pass.lowestLower, pass.lowestUpper, i, j)
    ensures LowestOf(p, Vectors(ws), pass.lowestLower, pass.lowestUpper) && HasLowest(pass, ws)
  {
    assert ws[i] in ws && ws[j] in ws;
    assert ws[i].parameters in Vectors(ws) && ws[j].parameters in Vectors(ws);
  }

  /** An entry is treated as its vector asks for. */
  lemma EntryIsVector(p: Problem, pass: Pass, ws: seq<Entry>, e: Entry)
    requires ValidEntries(p, ws) && pass.opt == p.opt && e in ws
    ensures var f, v := Front(Vectors(ws), pass.best), e.parameters;
      && ValidEntry(p, e) && v in f.open
      && (GoesOn(pass, e) <==> Survives(p, f, v, pass.lowestUpper) && !Complete(p, v))
      && (Finishes(pass, e) <==> Survives(p, f, v, pass.lowestUpper) && Complete(p, v))
      && (HasLowestBound(pass, e) <==> Decisive(p, v, pass.lowestLower, pass.lowestUpper))
  {
  }

  lemma RoundKeeps(p: Problem, pass: Pass, ws: seq<Entry>, s: Sorted, c: Vec)
    requires ValidEntries(p, ws) && pass.opt == p.opt && SplitUp(pass, ws, s)
    ensures c in Vectors(s.keep) <==>
      && Survives(p, Front(Vectors(ws), pass.best), c, pass.lowestUpper) && !Complete(p, c)
      && !Decisive(p, c, pass.lowestLower, pass.lowestUpper)
  {
    if c in Vectors(s.keep) {
      var e :| e in s.keep && e.parameters == c;
      EntryIsVector(p, pass, ws, e);
    }
    if c in Vectors(ws) {
      var e :| e in ws && e.parameters == c;
      EntryIsVector(p, pass, ws, e);
      assert e in s.keep <==> GoesOn(pass, e) && !HasLowestBound(pass, e);
    }
  }

  lemma RoundRefines(p: Problem, pass: Pass, ws: seq<Entry>, s: Sorted, c: Vec)
    requires ValidEntries(p, ws) && pass.opt == p.opt && SplitUp(pass, ws, s)
    ensures ChildOfSome(p, s.refine, c) <==>
            IsRefined(p, Front(Vectors(ws), pass.best), c, pass.lowestLower, pass.lowestUpper)
  {
    var f := Front(Vectors(ws), pass.best);
    if ChildOfSome(p, s.refine, c) {
      var e :| e in s.refine && IsChild(p, e.parameters, c);
      EntryIsVector(p, pass, ws, e);
    }
    if IsRefined(p, f, c, pass.lowestLower, pass.lowestUpper) {
      var v :| Survives(p, f, v, pass.lowestUpper) && !Complete(p, v)
               && Decisive(p, v, pass.lowestLower, pass.lowestUpper) && IsChild(p, v, c);
      var e :| e in ws && e.parameters == v;
      EntryIsVector(p, pass, ws, e);
      assert e in s.refine;
    }
  }

  lemma RoundBest(p: Problem, pass: Pass, ws: seq<Entry>, s: Sorted)
    requires ValidEntries(p, ws) && pass.opt == p.opt && SplitUp(pass, ws, s)
    ensures BestOf(p, Front(Vectors(ws), pass.best), pass.lowestUpper, s.best)
  {
    var f := Front(Vectors(ws), pass.best);
    forall v | Survives(p, f, v, pass.lowestUpper) && Complete(p, v)
      ensures s.best <= p.bound(v).lower
    {
      var e :| e in ws && e.parameters == v;
      EntryIsVector(p, pass, ws, e);
    }
    if s.best != pass.best {
      var e :| e in ws && Finishes(pass, e) && e.bounds.lower == s.best;
      EntryIsVector(p, pass, ws, e);
    }
  }

  lemma RoundFollows(p: Problem, pass: Pass, ws: seq<Entry>, s: Sorted, r: seq<Entry>)
    requires ValidEntries(p, ws) && pass.opt == p.opt && SplitUp(pass, ws, s) && Grown(p, s.refine, s.keep, r)
    requires LowestOf(p, Vectors(ws), pass.lowestLower, pass.lowestUpper)
    ensures Follows(p, Front(Vectors(ws), pass.best), Front(Vectors(r), s.best))
  {
    var f, g := Front(Vectors(ws), pass.best), Front(Vectors(r), s.best);
    RoundBest(p, pass, ws, s);
    forall c
      ensures c in g.open <==> OpenAfter(p, f, c, pass.lowestLower, pass.lowestUpper)
    {
      RoundKeeps(p, pass, ws, s, c);
      RoundRefines(p, pass, ws, s, c);
    }
    assert FollowsWith(p, f, g, pass.lowestLower, pass.lowestUpper);
  }

  lemma RoundIsSound(p: Problem, pass: Pass, ws: seq<Entry>, bestParameters: Vec, s: Sorted, r: seq<Entry>, m: nat)
    requires ValidProblem(p) && IsMinimum(p, m) && Searching(p, ws, pass.best, bestParameters, m)
    requires HasLowest(pass, ws) && SortedSoFar(p, pass, ws, s, m) && ValidEntries(p, r)
    requires TotalWeight(p, r) <= TotalWeight(p, s.keep) + TotalWeight(p, s.refine) - |s.refine|
    requires SomeCovers(p, s.keep, m) || SomeCovers(p, s.refine, m) ==> SomeCovers(p, r, m)
    ensures Searching(p, r, s.best, s.bestParameters, m) && TotalWeight(p, r) < TotalWeight(p, ws)
  {
    assert m < SIZE_MAX && pass.best == m ==> s.best == m;
  }

  /** One round keeps the search sound, strictly shrinks the unexplored tree, and does to the open vectors what a
      round of a run does. */
  method Round(p: Problem, workList: seq<Entry>, best: nat, bestParameters: Vec, ghost m: nat)
    returns (newWorkList: seq<Entry>, newBest: nat, newBestParameters: Vec)
    requires ValidProblem(p) && IsMinimum(p, m) && workList != [] && Separate(workList)
    requires Searching(p, workList, best, bestParameters, m)
    ensures Searching(p, newWorkList, newBest, newBestParameters, m)
    ensures TotalWeight(p, newWorkList) < TotalWeight(p, workList)
    ensures Separate(newWorkList)
    ensures Follows(p, Front(Vectors(workList), best), Front(Vectors(newWorkList), newBest))
  {
    var lowestLower, lowestUpper, i, k := LowestBounds(p, workList);
    var pass := Pass(p.opt, lowestLower, lowestUpper, best);
    RoundLowest(p, pass, workList, i, k);
    var s := SortWorkList(p, pass, workList, bestParameters, m, workList[k]);
    newWorkList := RefineAll(p, s.refine, s.keep, m);
    RoundIsSound(p, pass, workList, bestParameters, s, newWorkList, m);
    RoundFollows(p, pass, workList, s, newWorkList);
    newBest, newBestParameters := s.best, s.bestParameters;
  }

  /** The rounds so far, all within the limit but perhaps the last. */
  ghost predicate InRun(p: Problem, fs: seq<Front>, ws: seq<Entry>, best: nat, limit: Option<nat>) {
    && Separate(ws) && IsRun(p, fs) && fs[|fs| - 1] == Front(Vectors(ws), best)
    && (limit.Some? && |p.opt| > 1 ==> forall k :: 0 <= k < |fs| - 1 ==> |fs[k].open| <= limit.value)
  }

  ghost predicate Exceeds(p: Problem, ws: seq<Entry>, limit: Option<nat>) {
    limit.Some? && |ws| > limit.value && |p.opt| > 1
  }

  lemma RunStarts(p: Problem, limit: Option<nat>)
    ensures var ws := [Entry(Root(p), p.bound(Root(p)))]; InRun(p, [Front(Vectors(ws), SIZE_MAX)], ws, SIZE_MAX, limit)
  {
    var ws := [Entry(Root(p), p.bound(Root(p)))];
    assert Vectors(ws) == {Root(p)};
  }

  lemma RunGoesOn(p: Problem, fs: seq<Front>, ws: seq<Entry>, best: nat, vs: seq<Entry>, newBest: nat,
                  limit: Option<nat>)
    requires InRun(p, fs, ws, best, limit) && !Exceeds(p, ws, limit) && Separate(vs)
    requires Follows(p, Front(Vectors(ws), best), Front(Vectors(vs), newBest))
    ensures InRun(p, fs + [Front(Vectors(vs), newBest)], vs, newBest, limit)
  {
    var gs := fs + [Front(Vectors(vs), newBest)];
    SeparateCount(ws);
    forall k | 0 <= k < |gs| - 1
      ensures Follows(p, gs[k], gs[k + 1])
    {
      assert k < |fs| - 1 ==> Follows(p, fs[k], fs[k + 1]);
    }
  }

  /** A run that meets a list over the limit outgrows it; one that ends without has not. */
  lemma RunDecides(p: Problem, fs: seq<Front>, ws: seq<Entry>, best: nat, limit: Option<nat>)
    requires InRun(p, fs, ws, best, limit)
    ensures Exceeds(p, ws, limit) ==> Outgrows(p, limit.value)
    ensures ws == [] && limit.Some? ==> !Outgrows(p, limit.value)
  {
    SeparateCount(ws);
    if ws == [] && limit.Some? && |p.opt| > 1 { FinishedStaysWithin(p, fs, limit.value); }
  }

  lemma ExceedsTree(p: Problem, ws: seq<Entry>, limit: Option<nat>)
    requires ValidEntries(p, ws) && Exceeds(p, ws, limit) && TotalWeight(p, ws) <= Weight(p, Root(p), 0)
    ensures limit.value < Weight(p, Root(p), 0)
  {
    LengthWithinWeight(p, ws);
  }

  /** A completed search returns a best leaf: neither pruning nor selective refinement loses every optimum. It always
      ends. It gives up exactly if one of the lists that its rounds go through is longer than the limit; that takes
      a limit smaller than the tree, and never happens for a single parameter. */
  method IntegerBranchAndBoundImpl(p: Problem, maxWorkListSize: Option<nat>) returns (r: SearchResult)
    requires ValidProblem(p) && p.opt != {}
    ensures r.GaveUp? <==> maxWorkListSize.Some? && Outgrows(p, maxWorkListSize.value)
    ensures r.GaveUp? ==> |p.opt| > 1 && maxWorkListSize.value < Weight(p, Root(p), 0)
    ensures r.Found? ==> OptimalFor(p, r.parameters) && p.bound(r.parameters).lower < SIZE_MAX
    ensures r.NoSolution? ==> forall l :: Leaf(p, l) ==> p.bound(l).lower >= SIZE_MAX
  {
    ghost var m := MinimumExists(p);
    var root := Seed(p);
    var workList := [Entry(root, p.bound(root))];
    var best, bestParameters := SIZE_MAX, [];
    SearchStarts(p, m);
    RunStarts(p, maxWorkListSize);
    ghost var fs := [Front(Vectors(workList), best)];
    while workList != []
      invariant Searching(p, workList, best, bestParameters, m)
      invariant TotalWeight(p, workList) <= Weight(p, Root(p), 0)
      invariant InRun(p, fs, workList, best, maxWorkListSize)
      decreases TotalWeight(p, workList)
    {
      RunDecides(p, fs, workList, best, maxWorkListSize);
      if maxWorkListSize.Some? && |workList| > maxWorkListSize.value && |p.opt| > 1 {
        ExceedsTree(p, workList, maxWorkListSize);
        return GaveUp;
      }
      var newWorkList, newBest, newParameters := Round(p, workList, best, bestParameters, m);
      RunGoesOn(p, fs, workList, best, newWorkList, newBest, maxWorkListSize);
      fs := fs + [Front(Vectors(newWorkList), newBest)];
      workList, best, bestParameters := newWorkList, newBest, newParameters;
    }
    RunDecides(p, fs, workList, best, maxWorkListSize);
    r := if best == SIZE_MAX then NoSolution else Found(bestParameters);
  }

  ghost predicate GlobalMinimum(ranges: seq<nat>, bound: BoundCallback, v: Vec) {
    && InRange(v, ranges) && AllDefined(v)
    && forall c :: InRange(c, ranges) && AllDefined(c) ==> bound(v).lower <= bound(c).lower
  }

  /** With no limit and nothing fixed the search always completes, and finds a global minimum whenever
      any value is below SIZE_MAX. */
  method IntegerBranchAndBound(ranges: seq<nat>, bound: BoundCallback) returns (r: SearchResult)
    requires (forall i :: 0 <= i < |ranges| ==> ranges[i] > 0) && SoundBounds(bound, ranges)
    ensures !r.GaveUp?
    ensures r.Found? ==> GlobalMinimum(ranges, bound, r.parameters)
    ensures r.NoSolution? ==> forall c :: InRange(c, ranges) && AllDefined(c) ==> bound(c).lower >= SIZE_MAX
  {
    if |ranges| == 0 {
      return Found([]);
    }
    var opt: set<nat> := {};
    for i := 0 to |ranges|
      invariant forall k :: k in opt <==> 0 <= k < i
    {
      opt := opt + {i};
    }
    var p := Problem(ranges, bound, opt, map[]);
    assert 0 in opt;
    r := IntegerBranchAndBoundImpl(p, None);
    assert forall c :: InRange(c, ranges) && AllDefined(c) ==> Leaf(p, c);
  }
}
