/** Without inline functions, some order ends without an error exactly if there is an orderly list. */
module EveryOrderReports {
  import opened Wrappers
  import opened Collections
  import opened CallGraphs
  import opened EnumerationInvariants
  import opened EnumerationTermination
  import opened RecursionReports
  import opened PossibleReports
  import opened FirstCallers

  ghost predicate NoInline(g: CallGraph) { forall k :: k in g.keys ==> !Inline(g, k) }

  // ---- A run that ends leaves a list ----

  lemma {:induction false} RunsKeepListed(g: CallGraph, roots: set<Key>, s: State, order: seq<Instance>, final: State)
    requires Closed(g) && ValidRoots(g, roots) && Invariant(g, roots, s) && Chained(g, roots, s) && Listed(g, roots, s)
    requires Runs(g, s, order, final)
    ensures Invariant(g, roots, final) && Chained(g, roots, final) && Listed(g, roots, final)
    decreases |order|
  {
    if order != [] {
      var t := Process(g, s, order[0]).value;
      ProcessKeepsInvariant(g, roots, s, order[0]);
      ProcessKeepsChained(g, roots, s, order[0]);
      ProcessKeepsListed(g, roots, s, order[0], t);
      RunsKeepListed(g, roots, t, order[1..], final);
    }
  }

  /** Whatever functions are inline: without an orderly list every order reports recursion. */
  lemma FinishingNeedsList(g: CallGraph, roots: set<Key>)
    requires Closed(g) && ValidRoots(g, roots) && FinishesWithoutError(g, roots)
    ensures CanBeOrderly(g, roots)
  {
    var order, final: State :| Runs(g, Initial(roots), order, final) && final.workList == {};
    InitialInvariant(g, roots);
    InitialChained(g, roots);
    InitialListed(g, roots);
    RunsKeepListed(g, roots, Initial(roots), order, final);
    FinishedIsOrderly(g, roots, final);
  }

  // ---- Processing in the order of a list ----

  /** The functions of q before position n were processed, and nothing else. */
  ghost predicate Follows(g: CallGraph, roots: set<Key>, q: seq<Key>, own: map<Key, set<Key>>, n: nat, s: State) {
    && n <= |q| && Invariant(g, roots, s) && Chained(g, roots, s) && Traced(g, roots, s, own)
    && Reaches(g, Initial(roots), s) && FirstKeys(s.processed) == q[..n]
  }

  lemma NotProcessed(processed: seq<Instance>, y: Instance)
    requires !Done(processed, y.key)
    ensures y !in processed
  {
  }

  lemma NextIsPending(g: CallGraph, roots: set<Key>, q: seq<Key>, own: map<Key, set<Key>>, n: nat, s: State)
    requires Orderly(g, roots, q, own) && n < |q| && Follows(g, roots, q, own, n, s) && !Inline(g, q[n])
    ensures Instance(q[n], 0) in s.workList
  {
    var y := Instance(q[n], 0);
    FirstCallerOfLonger(g, q[..n], q, q[n]);
    assert RightTimes(roots, s, y);
    assert q[n] !in FirstKeys(s.processed);
    NotProcessed(s.processed, y);
    assert y !in multiset(s.processed);
  }

  lemma PendingAvoids(g: CallGraph, roots: set<Key>, q: seq<Key>, own: map<Key, set<Key>>, n: nat, s: State,
                      x: Instance)
    requires Orderly(g, roots, q, own) && Follows(g, roots, q, own, n, s) && x in s.workList
    requires x.key in q && !Inline(g, x.key)
    ensures Process(g, s, x).Some?
  {
    var k, p := x.key, q[..n];
    assert k in s.parents && Ancestors(s, k) == Inherited(g, p, own, k) + {k};
    if FirstCaller(g, p, k) < |p| { InheritedOfLonger(g, p, q, own, own, k); }
    assert Avoids(g, k, Inherited(g, q, own, k) + {k});
    CallsAvoidAncestors(g, Taken(s, x), Ancestors(s, k), g.calls(k));
  }

  lemma ListStarts(g: CallGraph, roots: set<Key>, q: seq<Key>, own: map<Key, set<Key>>)
    requires Closed(g) && ValidRoots(g, roots)
    ensures Follows(g, roots, q, own, 0, Initial(roots))
  {
    InitialInvariant(g, roots);
    InitialChained(g, roots);
    InitialTraced(g, roots, own);
    assert Runs(g, Initial(roots), [], Initial(roots));
  }

  /** What every step keeps, whatever the list. */
  lemma StepKeeps(g: CallGraph, roots: set<Key>, s: State, x: Instance, t: State)
    requires Stepped(g, roots, s, x, t) && Reaches(g, Initial(roots), s)
    ensures Invariant(g, roots, t) && Chained(g, roots, t) && Reaches(g, Initial(roots), t)
    ensures StepsLeft(g, t) < StepsLeft(g, s)
  {
    ProcessKeepsInvariant(g, roots, s, x);
    ProcessKeepsChained(g, roots, s, x);
    ProcessComesCloser(g, roots, s, x);
    ReachesOneMore(g, Initial(roots), s, x);
  }

  lemma NewFollows(g: CallGraph, roots: set<Key>, q: seq<Key>, own: map<Key, set<Key>>, n: nat, s: State)
    returns (t: State)
    requires Closed(g) && ValidRoots(g, roots) && NoInline(g) && Orderly(g, roots, q, own)
    requires n < |q| && Follows(g, roots, q, own, n, s)
    ensures Follows(g, roots, q, own, n + 1, t)
  {
    var x := Instance(q[n], 0);
    NextIsPending(g, roots, q, own, n, s);
    PendingAvoids(g, roots, q, own, n, s, x);
    t := Process(g, s, x).value;
    StepKeeps(g, roots, s, x, t);
    assert q[n] !in FirstKeys(s.processed);
    NewStaysTraced(g, roots, s, x, t, own);
    PrefixGrows(q, n);
  }

  lemma {:induction false} FollowList(g: CallGraph, roots: set<Key>, q: seq<Key>, own: map<Key, set<Key>>, n: nat)
    returns (s: State)
    requires Closed(g) && ValidRoots(g, roots) && NoInline(g) && Orderly(g, roots, q, own) && n <= |q|
    ensures Follows(g, roots, q, own, n, s)
  {
    if n == 0 {
      s := Initial(roots);
      ListStarts(g, roots, q, own);
    } else {
      var before := FollowList(g, roots, q, own, n - 1);
      s := NewFollows(g, roots, q, own, n - 1, before);
    }
  }

  lemma AgainFollows(g: CallGraph, roots: set<Key>, q: seq<Key>, own: map<Key, set<Key>>, s: State, x: Instance)
    returns (t: State)
    requires Closed(g) && ValidRoots(g, roots) && NoInline(g) && Orderly(g, roots, q, own)
    requires Follows(g, roots, q, own, |q|, s) && x in s.workList
    ensures Follows(g, roots, q, own, |q|, t) && StepsLeft(g, t) < StepsLeft(g, s)
  {
    assert q[..|q|] == q;
    assert KnownInstance(g, roots, s, x);
    PendingIsIntroduced(g, roots, s, x);
    PendingAvoids(g, roots, q, own, |q|, s, x);
    t := Process(g, s, x).value;
    StepKeeps(g, roots, s, x, t);
    AgainStaysTraced(g, roots, s, x, t, own);
  }

  /** What is left are roots that were called after they were processed. */
  lemma {:induction false} DrainWorkList(g: CallGraph, roots: set<Key>, q: seq<Key>, own: map<Key, set<Key>>, s: State)
    returns (final: State)
    requires Closed(g) && ValidRoots(g, roots) && NoInline(g) && Orderly(g, roots, q, own)
    requires Follows(g, roots, q, own, |q|, s)
    ensures Reaches(g, Initial(roots), final) && final.workList == {}
    decreases StepsLeft(g, s)
  {
    if s.workList == {} {
      final := s;
    } else {
      var x :| x in s.workList;
      var t := AgainFollows(g, roots, q, own, s, x);
      final := DrainWorkList(g, roots, q, own, t);
    }
  }

  /** Without inline functions, every order reports recursion exactly if there is no orderly list. */
  lemma EveryOrderReportsExactly(g: CallGraph, roots: set<Key>)
    requires Closed(g) && ValidRoots(g, roots) && NoInline(g)
    ensures !FinishesWithoutError(g, roots) <==> !CanBeOrderly(g, roots)
  {
    if FinishesWithoutError(g, roots) { FinishingNeedsList(g, roots); }
    if CanBeOrderly(g, roots) {
      var q, own :| Orderly(g, roots, q, own);
      var s := FollowList(g, roots, q, own, |q|);
      var final := DrainWorkList(g, roots, q, own, s);
    }
  }
}
