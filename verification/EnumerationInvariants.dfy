/** The invariant of the enumeration. */
module EnumerationInvariants {
  import opened CallGraphs

  /** Ancestor sets never hold the key they belong to, and every ancestor really leads there. */
  ghost predicate TrueAncestors(g: CallGraph, s: State) {
    forall k :: k in s.parents ==> AncestorsOf(g, s.parents[k], k)
  }

  ghost predicate AncestorsOf(g: CallGraph, P: set<Key>, k: Key) {
    k in g.keys && P <= g.keys && k !in P && forall p :: p in P ==> LeadsTo(g, p, k)
  }

  /** What is pending was reached from a root; inline instances are older than the next one. */
  ghost predicate KnownInstance(g: CallGraph, roots: set<Key>, s: State, y: Instance) {
    && y.key in g.keys && Reachable(g, roots, y.key)
    && (if Inline(g, y.key) then y.index < Count(s, y.key.func) else y.index == 0)
  }

  ghost predicate AllKnown(g: CallGraph, roots: set<Key>, s: State) {
    && (forall y :: y in s.workList ==> KnownInstance(g, roots, s, y))
    && (forall y :: y in s.visited ==> KnownInstance(g, roots, s, y))
    && (forall y :: y in s.processed ==> KnownInstance(g, roots, s, y))
  }

  /** How often y was or will be processed. */
  function Times(s: State, y: Instance): nat {
    multiset(s.processed)[y] + (if y in s.workList then 1 else 0)
  }

  ghost predicate IsRoot(roots: set<Key>, y: Instance) {
    y.key in roots && y.index == 0
  }

  /** A called instance is processed once; a root once, and once more if it is called after it was processed. */
  ghost predicate RightTimes(roots: set<Key>, s: State, y: Instance) {
    if IsRoot(roots, y) then 1 <= Times(s, y) && Times(s, y) <= (if y in s.visited then 2 else 1)
    else Times(s, y) == (if y in s.visited then 1 else 0)
  }

  ghost predicate Accounted(roots: set<Key>, s: State) {
    forall y :: RightTimes(roots, s, y)
  }

  /** The call to c made by the i-th processed instance has led to an instance. */
  ghost predicate Answered(g: CallGraph, s: State, i: nat, c: Key)
    requires i < |s.processed|
  {
    && c != s.processed[i].key
    && if Inline(g, c) then PendingOrLater(s, i, c) else Instance(c, 0) in s.visited
  }

  ghost predicate PendingOrLater(s: State, i: nat, c: Key) {
    (exists y :: y in s.workList && y.key == c) || (exists j :: i < j < |s.processed| && s.processed[j].key == c)
  }

  ghost predicate CallsAnswered(g: CallGraph, s: State, i: nat, cs: seq<Key>)
    requires i < |s.processed|
  {
    forall c :: c in cs ==> Answered(g, s, i, c)
  }

  ghost predicate AllAnswered(g: CallGraph, s: State, n: nat)
    requires n <= |s.processed|
  {
    forall i :: 0 <= i < n ==> CallsAnswered(g, s, i, g.calls(s.processed[i].key))
  }

  ghost predicate Invariant(g: CallGraph, roots: set<Key>, s: State) {
    TrueAncestors(g, s) && AllKnown(g, roots, s) && Accounted(roots, s) && AllAnswered(g, s, |s.processed|)
  }

  ghost predicate ValidRoots(g: CallGraph, roots: set<Key>) {
    roots <= g.keys && forall r :: r in roots ==> !Inline(g, r)
  }

  lemma InitialInvariant(g: CallGraph, roots: set<Key>)
    requires Closed(g) && ValidRoots(g, roots)
    ensures Invariant(g, roots, Initial(roots))
  {
    var s := Initial(roots);
    forall y
      ensures RightTimes(roots, s, y)
    {
      assert IsRoot(roots, y) <==> y in s.workList by {
        if IsRoot(roots, y) { assert y == Instance(y.key, 0); }
      }
    }
  }

  // ---- One call ----

  lemma CallKeepsAncestors(g: CallGraph, s: State, ancestors: set<Key>, k: Key, c: Key)
    requires Closed(g) && TrueAncestors(g, s) && k in g.keys && c in g.calls(k)
    requires ancestors <= g.keys && forall p :: p in ancestors ==> p == k || LeadsTo(g, p, k)
    ensures Call(g, s, ancestors, c).Some? ==> TrueAncestors(g, Call(g, s, ancestors, c).value)
    ensures Call(g, s, ancestors, c).None? ==> LeadsTo(g, c, c)
  {
    forall p | p in ancestors
      ensures LeadsTo(g, p, c)
    {
      if p == k { CallLeads(g, k, c); } else { LeadsThrough(g, p, k, c); }
    }
    if c !in ancestors { assert AncestorsOf(g, ancestors, c); }
  }

  lemma CallKeepsKnown(g: CallGraph, roots: set<Key>, s: State, ancestors: set<Key>, k: Key, c: Key)
    requires Closed(g) && AllKnown(g, roots, s) && k in g.keys && Reachable(g, roots, k) && c in g.calls(k)
    requires c !in ancestors
    ensures AllKnown(g, roots, Call(g, s, ancestors, c).value)
  {
    ReachableStep(g, roots, k, c);
    var t := Call(g, s, ancestors, c).value;
    forall y | KnownInstance(g, roots, s, y)
      ensures KnownInstance(g, roots, t, y)
    {
    }
    assert KnownInstance(g, roots, t, Callee(g, s, c));
  }

  lemma FreshInstance(g: CallGraph, roots: set<Key>, s: State, c: Key)
    requires AllKnown(g, roots, s) && Inline(g, c)
    ensures Callee(g, s, c) !in s.visited && Callee(g, s, c) !in s.workList && Callee(g, s, c) !in s.processed
  {
    var y := Callee(g, s, c);
    assert !KnownInstance(g, roots, s, y);
  }

  lemma CallKeepsAccounted(g: CallGraph, roots: set<Key>, s: State, ancestors: set<Key>, c: Key)
    requires ValidRoots(g, roots) && AllKnown(g, roots, s) && Accounted(roots, s) && c !in ancestors
    ensures Accounted(roots, Call(g, s, ancestors, c).value)
  {
    var t := Call(g, s, ancestors, c).value;
    forall y
      ensures RightTimes(roots, t, y)
    {
      assert RightTimes(roots, s, y);
    }
  }

  lemma AnsweredStays(g: CallGraph, s: State, t: State, i: nat, c: Key)
    requires i < |s.processed| && Answered(g, s, i, c)
    requires s.processed == t.processed && s.workList <= t.workList && s.visited <= t.visited
    ensures Answered(g, t, i, c)
  {
  }

  lemma CallAnswers(g: CallGraph, roots: set<Key>, s: State, ancestors: set<Key>, i: nat, c: Key)
    requires AllKnown(g, roots, s) && i < |s.processed| && s.processed[i].key in ancestors && c !in ancestors
    ensures Answered(g, Call(g, s, ancestors, c).value, i, c)
  {
    if Inline(g, c) {
      FreshInstance(g, roots, s, c);
      assert Callee(g, s, c) in Call(g, s, ancestors, c).value.workList;
    }
  }

  // ---- All calls of one instance ----

  /** The invariant while the last processed instance has made the calls cs. */
  ghost predicate Midway(g: CallGraph, roots: set<Key>, s: State, cs: seq<Key>) {
    && s.processed != [] && TrueAncestors(g, s) && AllKnown(g, roots, s) && Accounted(roots, s)
    && AllAnswered(g, s, |s.processed| - 1) && CallsAnswered(g, s, |s.processed| - 1, cs)
  }

  /** The ancestors of an instance with key k, itself included. */
  ghost predicate Lineage(g: CallGraph, ancestors: set<Key>, k: Key) {
    k in ancestors && ancestors <= g.keys && forall p :: p in ancestors ==> p == k || LeadsTo(g, p, k)
  }

  lemma AnswersStay(g: CallGraph, s: State, t: State, cs: seq<Key>, c: Key)
    requires s.processed != [] && s.processed == t.processed && s.workList <= t.workList && s.visited <= t.visited
    requires AllAnswered(g, s, |s.processed| - 1) && CallsAnswered(g, s, |s.processed| - 1, cs)
    requires Answered(g, t, |s.processed| - 1, c)
    ensures AllAnswered(g, t, |t.processed| - 1) && CallsAnswered(g, t, |t.processed| - 1, cs + [c])
  {
    var last := |s.processed| - 1;
    forall i | 0 <= i < last
      ensures CallsAnswered(g, t, i, g.calls(t.processed[i].key))
    {
      assert CallsAnswered(g, s, i, g.calls(s.processed[i].key));
      forall d | d in g.calls(t.processed[i].key) { AnsweredStays(g, s, t, i, d); }
    }
    forall d | d in cs { AnsweredStays(g, s, t, last, d); }
  }

  lemma CallKeepsMidway(g: CallGraph, roots: set<Key>, s: State, ancestors: set<Key>, k: Key, cs: seq<Key>, c: Key)
    requires Closed(g) && ValidRoots(g, roots) && Midway(g, roots, s, cs) && Lineage(g, ancestors, k)
    requires Reachable(g, roots, k)
    requires s.processed[|s.processed| - 1].key == k && c in g.calls(k)
    ensures Call(g, s, ancestors, c).Some? ==> Midway(g, roots, Call(g, s, ancestors, c).value, cs + [c])
    ensures Call(g, s, ancestors, c).None? ==> LeadsTo(g, c, c)
  {
    CallKeepsAncestors(g, s, ancestors, k, c);
    if c !in ancestors {
      CallKeepsKnown(g, roots, s, ancestors, k, c);
      CallKeepsAccounted(g, roots, s, ancestors, c);
      CallAnswers(g, roots, s, ancestors, |s.processed| - 1, c);
      AnswersStay(g, s, Call(g, s, ancestors, c).value, cs, c);
    }
  }

  lemma {:induction false} CallsKeepMidway(g: CallGraph, roots: set<Key>, s: State, ancestors: set<Key>, k: Key,
                                           cs: seq<Key>)
    requires Closed(g) && ValidRoots(g, roots) && Midway(g, roots, s, []) && Lineage(g, ancestors, k)
    requires Reachable(g, roots, k)
    requires s.processed[|s.processed| - 1].key == k && forall c :: c in cs ==> c in g.calls(k)
    ensures Calls(g, s, ancestors, cs).Some? ==> Midway(g, roots, Calls(g, s, ancestors, cs).value, cs)
    ensures Calls(g, s, ancestors, cs).Some? ==> Calls(g, s, ancestors, cs).value.processed == s.processed
    ensures Calls(g, s, ancestors, cs).None? ==> exists c :: c in g.calls(k) && LeadsTo(g, c, c)
    decreases |cs|
  {
    if cs != [] {
      var init, c := cs[..|cs| - 1], cs[|cs| - 1];
      CallsKeepMidway(g, roots, s, ancestors, k, init);
      var t := Calls(g, s, ancestors, init);
      if t.Some? {
        CallKeepsMidway(g, roots, t.value, ancestors, k, init, c);
        assert init + [c] == cs;
      }
    }
  }

  lemma TakenIsMidway(g: CallGraph, roots: set<Key>, s: State, x: Instance)
    requires Invariant(g, roots, s) && x in s.workList
    ensures Midway(g, roots, Taken(s, x), [])
  {
    var t := Taken(s, x);
    forall y
      ensures RightTimes(roots, t, y)
    {
      assert RightTimes(roots, s, y);
      assert multiset(t.processed) == multiset(s.processed) + multiset{x};
    }
    forall i | 0 <= i < |s.processed|
      ensures CallsAnswered(g, t, i, g.calls(t.processed[i].key))
    {
      assert CallsAnswered(g, s, i, g.calls(s.processed[i].key));
      forall c | c in g.calls(t.processed[i].key)
        ensures Answered(g, t, i, c)
      {
        TakenStaysAnswered(g, s, x, i, c);
      }
    }
  }

  lemma TakenStaysAnswered(g: CallGraph, s: State, x: Instance, i: nat, c: Key)
    requires i < |s.processed| && Answered(g, s, i, c)
    ensures Answered(g, Taken(s, x), i, c)
  {
    var t := Taken(s, x);
    assert forall j :: 0 <= j < |s.processed| ==> t.processed[j] == s.processed[j];
    assert t.processed[|s.processed|] == x;
    if Inline(g, c) {
      if y :| y in s.workList && y.key == c {
        if y != x { assert y in t.workList; }
      } else {
        var j :| i < j < |s.processed| && s.processed[j].key == c;
        assert t.processed[j].key == c;
      }
    }
  }

  lemma LineageOf(g: CallGraph, s: State, k: Key)
    requires TrueAncestors(g, s) && k in g.keys
    ensures Lineage(g, Ancestors(s, k), k)
  {
    if k in s.parents { assert AncestorsOf(g, s.parents[k], k); }
  }

  /** Processing an instance keeps the invariant, or stops at a function that really calls itself. */
  lemma ProcessKeepsInvariant(g: CallGraph, roots: set<Key>, s: State, x: Instance)
    requires Closed(g) && ValidRoots(g, roots) && Invariant(g, roots, s) && x in s.workList
    ensures Process(g, s, x).Some? ==> Invariant(g, roots, Process(g, s, x).value)
    ensures Process(g, s, x).None? ==> exists c :: Reachable(g, roots, c) && LeadsTo(g, c, c)
  {
    TakenIsMidway(g, roots, s, x);
    assert KnownInstance(g, roots, s, x);
    LineageOf(g, s, x.key);
    var t := Taken(s, x);
    CallsKeepMidway(g, roots, t, Ancestors(s, x.key), x.key, g.calls(x.key));
    var r := Process(g, s, x);
    if r.None? {
      var c :| c in g.calls(x.key) && LeadsTo(g, c, c);
      ReachableStep(g, roots, x.key, c);
    } else {
      AllOfLast(g, r.value, x);
    }
  }

  lemma AllOfLast(g: CallGraph, s: State, x: Instance)
    requires s.processed != [] && s.processed[|s.processed| - 1] == x
    requires AllAnswered(g, s, |s.processed| - 1) && CallsAnswered(g, s, |s.processed| - 1, g.calls(x.key))
    ensures AllAnswered(g, s, |s.processed|)
  {
  }
}
