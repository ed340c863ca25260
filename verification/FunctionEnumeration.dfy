/** Enumeration of all function instances, starting from the roots. */
module FunctionEnumeration {
  import opened Wrappers
  import opened CallGraphs
  import opened EnumerationInvariants
  import opened EnumerationTermination
  import opened RecursionReports
  import opened PossibleReports
  import opened FirstCallers
  import opened EveryOrderReports
  import opened Schedules
  import opened InstanceNumbers

  class FunctionInstanceEnumerator {
    const g: CallGraph
    var inlineFunctionInstanceCountMap: map<nat, nat>
    var allInstances: seq<Instance>
    // the working data of Enumerate
    var workList: set<Instance>
    var visitedInstances: set<Instance>
    var callGraphParentInstances: map<Key, set<Key>>

    constructor (g: CallGraph)
      ensures this.g == g
    {
      this.g := g;
      inlineFunctionInstanceCountMap, allInstances := map[], [];
      workList, visitedInstances, callGraphParentInstances := {}, {}, map[];
    }

    ghost function Current(): State
      reads this
    {
      State(workList, visitedInstances, callGraphParentInstances, inlineFunctionInstanceCountMap, allInstances)
    }

    /** The next number of an inline function. */
    method GetInlineInstanceIndex(f: nat) returns (index: nat)
      modifies this`inlineFunctionInstanceCountMap
      ensures index == if f in old(inlineFunctionInstanceCountMap) then old(inlineFunctionInstanceCountMap)[f] else 0
      ensures inlineFunctionInstanceCountMap == old(inlineFunctionInstanceCountMap)[f := index + 1]
    {
      index := if f in inlineFunctionInstanceCountMap then inlineFunctionInstanceCountMap[f] else 0;
      inlineFunctionInstanceCountMap := inlineFunctionInstanceCountMap[f := index + 1];
    }

    /** Visits the calls of an instance; false if one of them goes back to an ancestor. */
    method VisitCalls(calls: seq<Key>, parentInstances: set<Key>) returns (ok: bool)
      modifies this
      ensures ok <==> Calls(g, old(Current()), parentInstances, calls).Some?
      ensures ok ==> Some(Current()) == Calls(g, old(Current()), parentInstances, calls)
    {
      ghost var s := Current();
      var i := 0;
      while i < |calls|
        invariant 0 <= i <= |calls| && Some(Current()) == Calls(g, s, parentInstances, calls[..i])
      {
        CallsOneMore(g, s, parentInstances, calls, i);
        if calls[i] in parentInstances {
          CallsStayFailed(g, s, parentInstances, calls, i + 1);
          return false;
        }
        VisitCall(calls[i], parentInstances);
        i := i + 1;
      }
      assert calls[..i] == calls;
      ok := true;
    }

    method VisitCall(c: Key, parentInstances: set<Key>)
      requires c !in parentInstances
      modifies this
      ensures Some(Current()) == Call(g, old(Current()), parentInstances, c)
    {
      var index := 0;
      if g.isInline(c.func) { index := GetInlineInstanceIndex(c.func); }
      var callee := Instance(c, index);
      if callee !in visitedInstances {
        visitedInstances := visitedInstances + {callee};
        workList := workList + {callee};
        callGraphParentInstances := callGraphParentInstances[c := parentInstances];
      }
    }

    /**
     * Ends for every call graph and every order of processing. An error means a reachable function really calls
     * itself, at the end of a straight chain that turns back. It is raised in every order exactly if there is no
     * schedule of calls.
     * Without an error everything reachable was processed: called instances once, roots at most twice.
     */
    method Enumerate(roots: set<Key>) returns (ok: bool)
      requires Closed(g) && ValidRoots(g, roots)
      requires Current() == State({}, {}, map[], map[], [])
      modifies this
      ensures !ok ==> exists c :: Reachable(g, roots, c) && LeadsTo(g, c, c)
      ensures !ok ==> exists chain :: TurnsBack(g, roots, chain)
      ensures ok ==> workList == {} && Invariant(g, roots, Current())
      ensures ok ==> Complete(g, roots, allInstances, visitedInstances)
      ensures ok ==> InstancesAreRight(g, allInstances, visitedInstances)
      ensures AlwaysReported(g, roots) ==> !ok
    {
      AddRoots(roots);
      InitialInvariant(g, roots);
      InitialChained(g, roots);
      assert Runs(g, Initial(roots), [], Initial(roots));
      while workList != {}
        invariant Invariant(g, roots, Current()) && Chained(g, roots, Current())
        invariant Reaches(g, Initial(roots), Current())
        decreases StepsLeft(g, Current())
      {
        var fine := ProcessOne(roots);
        if !fine { return false; }
      }
      FinishedIsComplete(g, roots, Current());
      ReachedAreRight(g, roots, Current());
      CompleteRulesOut(g, roots, allInstances, visitedInstances);
      ok := true;
    }

    /** Takes some instance off the work list and visits its calls. */
    method ProcessOne(ghost roots: set<Key>) returns (fine: bool)
      requires Closed(g) && ValidRoots(g, roots) && workList != {}
      requires Invariant(g, roots, Current()) && Chained(g, roots, Current()) && Reaches(g, Initial(roots), Current())
      modifies this
      ensures !fine ==> exists c :: Reachable(g, roots, c) && LeadsTo(g, c, c)
      ensures !fine ==> exists chain :: TurnsBack(g, roots, chain)
      ensures fine ==> Invariant(g, roots, Current()) && Chained(g, roots, Current())
      ensures fine ==> Reaches(g, Initial(roots), Current())
      ensures fine ==> StepsLeft(g, Current()) < old(StepsLeft(g, Current()))
    {
      ghost var s := Current();
      var x, parentInstances := Take();
      ProcessOutcome(g, roots, s, x);
      fine := VisitCalls(g.calls(x.key), parentInstances);
    }

    /** Some instance leaves the work list, with its ancestors. */
    method Take() returns (x: Instance, parentInstances: set<Key>)
      requires workList != {}
      modifies this`workList, this`allInstances
      ensures x in old(workList) && Current() == Taken(old(Current()), x)
      ensures parentInstances == Ancestors(Current(), x.key)
    {
      x :| x in workList;
      workList := workList - {x};
      parentInstances := (if x.key in callGraphParentInstances then callGraphParentInstances[x.key] else {}) + {x.key};
      allInstances := allInstances + [x];
    }

    method AddRoots(roots: set<Key>)
      requires Current() == State({}, {}, map[], map[], [])
      modifies this`workList, this`callGraphParentInstances
      ensures Current() == Initial(roots)
    {
      var rest := roots;
      while rest != {}
        invariant rest <= roots && workList == Initial(roots - rest).workList
        invariant callGraphParentInstances == Initial(roots - rest).parents
        decreases |rest|
      {
        var r :| r in rest;
        rest := rest - {r};
        workList := workList + {Instance(r, 0)};
        callGraphParentInstances := callGraphParentInstances[r := {}];
      }
      assert roots - rest == roots;
    }
  }

  /** Processing an instance comes closer to the end, or meets recursion. */
  lemma ProcessOutcome(g: CallGraph, roots: set<Key>, s: State, x: Instance)
    requires Closed(g) && ValidRoots(g, roots) && Invariant(g, roots, s) && Chained(g, roots, s)
    requires Reaches(g, Initial(roots), s) && x in s.workList
    ensures Process(g, s, x).None? ==> exists c :: Reachable(g, roots, c) && LeadsTo(g, c, c)
    ensures Process(g, s, x).None? ==> exists chain :: TurnsBack(g, roots, chain)
    ensures Process(g, s, x).Some? ==>
              var t := Process(g, s, x).value;
              && Invariant(g, roots, t) && Chained(g, roots, t) && Reaches(g, Initial(roots), t)
              && StepsLeft(g, t) < StepsLeft(g, s)
  {
    ProcessKeepsInvariant(g, roots, s, x);
    if Process(g, s, x).Some? {
      ProcessKeepsChained(g, roots, s, x);
      ReachesOneMore(g, Initial(roots), s, x);
      ProcessComesCloser(g, roots, s, x);
    } else {
      var chain := FailureTurnsBack(g, roots, s, x);
    }
  }

  lemma CallsOneMore(g: CallGraph, s: State, P: set<Key>, cs: seq<Key>, i: nat)
    requires i < |cs| && Calls(g, s, P, cs[..i]).Some?
    ensures Calls(g, s, P, cs[..i + 1]) == Call(g, Calls(g, s, P, cs[..i]).value, P, cs[i])
  {
    assert cs[..i + 1][..i] == cs[..i];
  }

  lemma {:induction false} CallsStayFailed(g: CallGraph, s: State, P: set<Key>, cs: seq<Key>, n: nat)
    requires n <= |cs| && Calls(g, s, P, cs[..n]).None?
    ensures Calls(g, s, P, cs).None?
    decreases |cs| - n
  {
    if n < |cs| {
      assert cs[..n + 1][..n] == cs[..n];
      CallsStayFailed(g, s, P, cs, n + 1);
    } else {
      assert cs[..n] == cs;
    }
  }

  // ---- What a finished enumeration means ----

  ghost predicate InlineCycle(g: CallGraph, S: set<Key>) {
    S != {} && forall k :: k in S ==> StaysInline(g, S, k)
  }

  ghost predicate StaysInline(g: CallGraph, S: set<Key>, k: Key) {
    Inline(g, k) && exists c :: c in S && c in g.calls(k)
  }

  /** Once if it was called; a root once, or twice if it was also called. */
  ghost predicate ProcessedRightly(roots: set<Key>, processed: seq<Instance>, called: set<Instance>, y: Instance) {
    var times := multiset(processed)[y];
    if IsRoot(roots, y) then 1 <= times && times <= (if y in called then 2 else 1)
    else times == if y in called then 1 else 0
  }

  /** Exactly the reachable functions were processed; there is a schedule and an orderly list of them, each has a clean
      chain, and no cycle of them is all inline. */
  ghost predicate Complete(g: CallGraph, roots: set<Key>, processed: seq<Instance>, called: set<Instance>) {
    && (forall k :: k in g.keys ==> (Done(processed, k) <==> Reachable(g, roots, k)))
    && (forall y :: ProcessedRightly(roots, processed, called, y))
    && CanBeScheduled(g, roots) && CanBeOrderly(g, roots) && !MustRecur(g, roots)
    && (forall u, v :: u in g.keys && Reachable(g, roots, u) && v in g.calls(u) ==> !OnEveryChain(g, roots, v, u))
    && (forall S :: InlineCycle(g, S) ==> exists k :: k in S && !Reachable(g, roots, k))
  }

  /** Some reachable function calls one that every chain to it passes through. */
  ghost predicate CallsBack(g: CallGraph, roots: set<Key>) {
    exists u, v :: u in g.keys && Reachable(g, roots, u) && v in g.calls(u) && OnEveryChain(g, roots, v, u)
  }

  ghost predicate ReachableInlineCycle(g: CallGraph, roots: set<Key>) {
    exists S :: InlineCycle(g, S) && forall k :: k in S ==> Reachable(g, roots, k)
  }

  /** Recursion that no order of processing hides. */
  ghost predicate AlwaysReported(g: CallGraph, roots: set<Key>) { !CanBeScheduled(g, roots) }

  lemma AlwaysReportedExactly(g: CallGraph, roots: set<Key>)
    requires Closed(g) && ValidRoots(g, roots)
    ensures AlwaysReported(g, roots) <==> !FinishesWithoutError(g, roots)
  {
    FinishesExactlyIfScheduled(g, roots);
  }

  /** The conditions on chains are cases of the one on lists. */
  lemma NoCleanChainNoList(g: CallGraph, roots: set<Key>)
    requires MustRecur(g, roots) || CallsBack(g, roots)
    ensures !CanBeOrderly(g, roots)
  {
    if CallsBack(g, roots) {
      var u, v :| u in g.keys && Reachable(g, roots, u) && v in g.calls(u) && OnEveryChain(g, roots, v, u);
      if CleanlyReachable(g, roots, u) { CleanCallsAvoid(g, roots, u, v); }
    }
    if CanBeOrderly(g, roots) { OrderlyRulesOut(g, roots); }
  }

  lemma CompleteRulesOut(g: CallGraph, roots: set<Key>, processed: seq<Instance>, called: set<Instance>)
    requires Complete(g, roots, processed, called)
    ensures !AlwaysReported(g, roots) && CanBeOrderly(g, roots)
    ensures !MustRecur(g, roots) && !CallsBack(g, roots) && !ReachableInlineCycle(g, roots)
  {
  }

  lemma {:induction false} LastOf(processed: seq<Instance>, S: set<Key>) returns (i: nat)
    requires exists j :: 0 <= j < |processed| && processed[j].key in S
    ensures i < |processed| && processed[i].key in S && forall j :: i < j < |processed| ==> processed[j].key !in S
    decreases |processed|
  {
    if processed[|processed| - 1].key in S {
      i := |processed| - 1;
    } else {
      i := LastOf(processed[..|processed| - 1], S);
    }
  }

  lemma InlineCalleeLater(g: CallGraph, roots: set<Key>, s: State, i: nat, c: Key) returns (j: nat)
    requires Invariant(g, roots, s) && s.workList == {} && i < |s.processed| && c in g.calls(s.processed[i].key)
    requires Inline(g, c)
    ensures i < j < |s.processed| && s.processed[j].key == c
  {
    assert CallsAnswered(g, s, i, g.calls(s.processed[i].key));
    assert Answered(g, s, i, c);
    j :| i < j < |s.processed| && s.processed[j].key == c;
  }

  /** Inline functions calling each other in a circle would need ever later instances. */
  lemma NoInlineCycle(g: CallGraph, roots: set<Key>, s: State, S: set<Key>)
    requires Invariant(g, roots, s) && s.workList == {} && InlineCycle(g, S)
    ensures exists k :: k in S && !Reachable(g, roots, k)
  {
    var k :| k in S;
    if forall k :: k in S ==> Reachable(g, roots, k) {
      ReachableProcessed(g, roots, s, k);
      var y :| y in s.processed && y.key == k;
      var i := LastOf(s.processed, S);
      assert StaysInline(g, S, s.processed[i].key);
      var c :| c in S && c in g.calls(s.processed[i].key);
      assert StaysInline(g, S, c);
      var j := InlineCalleeLater(g, roots, s, i, c);
    }
  }

  lemma FinishedProcessed(g: CallGraph, roots: set<Key>, s: State)
    requires Invariant(g, roots, s) && s.workList == {}
    ensures forall k :: k in g.keys ==> (Done(s.processed, k) <==> Reachable(g, roots, k))
    ensures forall y :: ProcessedRightly(roots, s.processed, s.visited, y)
  {
    forall k | k in g.keys
      ensures Done(s.processed, k) <==> Reachable(g, roots, k)
    {
      if Reachable(g, roots, k) { ReachableProcessed(g, roots, s, k); }
      if y :| y in s.processed && y.key == k { assert KnownInstance(g, roots, s, y); }
    }
    forall y
      ensures ProcessedRightly(roots, s.processed, s.visited, y)
    {
      assert RightTimes(roots, s, y);
    }
  }

  lemma FinishedIsClean(g: CallGraph, roots: set<Key>, s: State)
    requires Invariant(g, roots, s) && Chained(g, roots, s) && s.workList == {}
    ensures !MustRecur(g, roots)
    ensures forall u, v :: u in g.keys && Reachable(g, roots, u) && v in g.calls(u) ==> !OnEveryChain(g, roots, v, u)
  {
    forall u | u in g.keys && Reachable(g, roots, u)
      ensures CleanlyReachable(g, roots, u)
    {
      CleanAfterSuccess(g, roots, s, u);
    }
    forall u, v | u in g.keys && Reachable(g, roots, u) && v in g.calls(u)
      ensures !OnEveryChain(g, roots, v, u)
    {
      if OnEveryChain(g, roots, v, u) { CleanCallsAvoid(g, roots, u, v); }
    }
  }

  lemma FinishedIsComplete(g: CallGraph, roots: set<Key>, s: State)
    requires Closed(g) && ValidRoots(g, roots) && Reaches(g, Initial(roots), s) && s.workList == {}
    ensures Complete(g, roots, s.processed, s.visited)
  {
    ReachedIsChained(g, roots, s);
    assert FinishesWithoutError(g, roots);
    FinishedProcessed(g, roots, s);
    FinishedIsClean(g, roots, s);
    FinishesExactlyIfScheduled(g, roots);
    FinishingNeedsList(g, roots);
    forall S | InlineCycle(g, S)
      ensures exists k :: k in S && !Reachable(g, roots, k)
    {
      NoInlineCycle(g, roots, s, S);
    }
  }

  /** What is easier to check than the absence of a schedule. */
  lemma ReportedInParticular(g: CallGraph, roots: set<Key>)
    requires Closed(g) && ValidRoots(g, roots)
    requires || MustRecur(g, roots) || CallsBack(g, roots) || ReachableInlineCycle(g, roots)
             || !CanBeOrderly(g, roots)
    ensures AlwaysReported(g, roots)
  {
    AlwaysReportedExactly(g, roots);
    if FinishesWithoutError(g, roots) {
      var order, final: State :| Runs(g, Initial(roots), order, final) && final.workList == {};
      FinishedIsComplete(g, roots, final);
      CompleteRulesOut(g, roots, final.processed, final.visited);
    }
  }
}
