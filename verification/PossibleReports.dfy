/** Which functions some order of processing gets to, and which programs some order reports as recursive. */
module PossibleReports {
  import opened CallGraphs
  import opened EnumerationInvariants
  import opened RecursionReports

  /** order are the instances taken from the work list, one after the other; none of them runs into an ancestor. */
  ghost predicate Runs(g: CallGraph, s: State, order: seq<Instance>, final: State)
    decreases |order|
  {
    if order == [] then final == s
    else
      && order[0] in s.workList && Process(g, s, order[0]).Some?
      && Runs(g, Process(g, s, order[0]).value, order[1..], final)
  }

  ghost predicate Reaches(g: CallGraph, s: State, final: State) {
    exists order :: Runs(g, s, order, final)
  }

  lemma {:induction false} RunsLonger(g: CallGraph, s: State, order: seq<Instance>, t: State, x: Instance)
    requires Runs(g, s, order, t) && x in t.workList && Process(g, t, x).Some?
    ensures Runs(g, s, order + [x], Process(g, t, x).value)
    decreases |order|
  {
    if order == [] {
      assert ([] + [x])[1..] == [];
    } else {
      RunsLonger(g, Process(g, s, order[0]).value, order[1..], t, x);
      assert (order + [x])[1..] == order[1..] + [x];
    }
  }

  lemma {:induction false} RunsKeepChained(g: CallGraph, roots: set<Key>, s: State, order: seq<Instance>, final: State)
    requires Closed(g) && ValidRoots(g, roots) && Invariant(g, roots, s) && Chained(g, roots, s)
    requires Runs(g, s, order, final)
    ensures Invariant(g, roots, final) && Chained(g, roots, final)
    decreases |order|
  {
    if order != [] {
      ProcessKeepsInvariant(g, roots, s, order[0]);
      ProcessKeepsChained(g, roots, s, order[0]);
      RunsKeepChained(g, roots, Process(g, s, order[0]).value, order[1..], final);
    }
  }

  lemma SkipStaysClean(g: CallGraph, chain: seq<Key>, i: nat, j: nat)
    requires Clean(g, chain) && i < j < |chain| && chain[j] in g.calls(chain[i])
    ensures Clean(g, chain[..i + 1] + chain[j..])
  {
    var short := chain[..i + 1] + chain[j..];
    assert forall k :: 0 <= k <= i ==> short[k] == chain[k];
    assert forall k :: i < k < |short| ==> short[k] == chain[k + j - i - 1];
    forall k | 0 <= k < |short| - 1
      ensures short[k + 1] in g.calls(short[k])
    {
      if k < i {
        assert chain[k + 1] in g.calls(chain[k]);
      } else if k > i {
        assert chain[k + j - i - 1 + 1] in g.calls(chain[k + j - i - 1]);
      }
    }
  }

  /** A clean chain can be cut short until it is straight. */
  lemma {:induction false} ShortCut(g: CallGraph, roots: set<Key>, u: Key, chain: seq<Key>) returns (straight: seq<Key>)
    requires CleanTo(g, roots, u, chain)
    ensures CleanTo(g, roots, u, straight) && Straight(g, roots, straight)
    decreases |chain|
  {
    if i: nat, j: nat :| i + 1 < j < |chain| && !Inline(g, chain[j]) && chain[j] in g.calls(chain[i]) {
      SkipStaysClean(g, chain, i, j);
      straight := ShortCut(g, roots, u, chain[..i + 1] + chain[j..]);
    } else {
      straight := chain;
    }
  }

  /** The first n functions of the chain were processed, in order, and the next one is pending with them as
      ancestors. */
  ghost predicate Along(g: CallGraph, roots: set<Key>, chain: seq<Key>, n: nat, s: State) {
    && n <= |chain| && Invariant(g, roots, s) && Reaches(g, Initial(roots), s)
    && |s.processed| == n && (forall i :: 0 <= i < n ==> s.processed[i].key == chain[i])
    && (n < |chain| ==> Due(s, chain[n], KeysOf(chain[..n])))
    && CalledAlong(g, chain, n, s.visited)
  }

  ghost predicate Due(s: State, k: Key, P: set<Key>) {
    k in s.parents && s.parents[k] == P && exists y :: y in s.workList && y.key == k
  }

  lemma CallMakesDue(g: CallGraph, roots: set<Key>, s: State, P: set<Key>, c: Key)
    requires AllKnown(g, roots, s) && c !in P && (Inline(g, c) || Instance(c, 0) !in s.visited)
    ensures Due(Call(g, s, P, c).value, c, P)
  {
    if Inline(g, c) { FreshInstance(g, roots, s, c); }
    assert Callee(g, s, c) in Call(g, s, P, c).value.workList;
  }

  lemma CallKeepsDue(g: CallGraph, s: State, P: set<Key>, c: Key, k: Key)
    requires Due(s, k, P) && c !in P
    ensures Due(Call(g, s, P, c).value, k, P)
  {
    var y :| y in s.workList && y.key == k;
    assert y in Call(g, s, P, c).value.workList;
  }

  /** A called function that had no instance before is pending afterwards, with the caller's ancestors. */
  lemma {:induction false} CallsMakeDue(g: CallGraph, roots: set<Key>, s: State, P: set<Key>, k: Key, cs: seq<Key>,
                                        c: Key)
    requires Closed(g) && ValidRoots(g, roots) && Midway(g, roots, s, []) && Lineage(g, P, k) && Reachable(g, roots, k)
    requires s.processed[|s.processed| - 1].key == k && forall d :: d in cs ==> d in g.calls(k) && d !in P
    requires c in cs && (Inline(g, c) || Instance(c, 0) !in s.visited)
    ensures Calls(g, s, P, cs).Some? && Due(Calls(g, s, P, cs).value, c, P)
    decreases |cs|
  {
    var init, d := cs[..|cs| - 1], cs[|cs| - 1];
    CallsAvoidAncestors(g, s, P, cs);
    CallsAvoidAncestors(g, s, P, init);
    var t := Calls(g, s, P, init).value;
    if c in init {
      CallsMakeDue(g, roots, s, P, k, init, c);
      CallKeepsDue(g, t, P, d, c);
    } else {
      CallsKeepMidway(g, roots, s, P, k, init);
      CallsHand(g, s, P, init);
      CallMakesDue(g, roots, t, P, c);
    }
  }

  lemma AlongStarts(g: CallGraph, roots: set<Key>, chain: seq<Key>)
    requires Closed(g) && ValidRoots(g, roots) && Straight(g, roots, chain)
    ensures Along(g, roots, chain, 0, Initial(roots))
  {
    InitialInvariant(g, roots);
    assert Runs(g, Initial(roots), [], Initial(roots));
    assert Instance(chain[0], 0) in Initial(roots).workList;
    assert KeysOf(chain[..0]) == {};
  }

  lemma NextIsNew(g: CallGraph, roots: set<Key>, chain: seq<Key>, n: nat, s: State)
    requires Straight(g, roots, chain) && n + 1 < |chain| && Along(g, roots, chain, n, s) && !Inline(g, chain[n + 1])
    ensures Instance(chain[n + 1], 0) !in s.visited
  {
    forall i | 0 <= i < n
      ensures chain[n + 1] !in g.calls(chain[i])
    {
    }
  }

  /** The ancestors of the next function are the chain so far. */
  lemma AncestorsAlong(g: CallGraph, chain: seq<Key>, n: nat, s: State)
    requires n < |chain| && Due(s, chain[n], KeysOf(chain[..n]))
    ensures Ancestors(s, chain[n]) == KeysOf(chain[..n + 1])
  {
    assert chain[..n + 1] == chain[..n] + [chain[n]];
  }

  /** Function n of the chain calls neither itself nor one before it. */
  ghost predicate CleanAt(g: CallGraph, chain: seq<Key>, n: nat)
    requires n < |chain|
  {
    forall j :: 0 <= j <= n ==> chain[j] !in g.calls(chain[n])
  }

  lemma AlongAvoids(g: CallGraph, chain: seq<Key>, n: nat, s: State)
    requires n < |chain| && CleanAt(g, chain, n) && Due(s, chain[n], KeysOf(chain[..n]))
    ensures forall c :: c in g.calls(chain[n]) ==> c !in Ancestors(s, chain[n])
  {
    AncestorsAlong(g, chain, n, s);
    forall c | c in KeysOf(chain[..n + 1])
      ensures c !in g.calls(chain[n])
    {
      var j :| 0 <= j <= n && chain[j] == c;
    }
  }

  /** Whatever was called by then was called along the chain. */
  ghost predicate CalledAlong(g: CallGraph, chain: seq<Key>, n: nat, visited: set<Instance>)
    requires n <= |chain|
  {
    forall y :: y in visited ==> exists i :: 0 <= i < n && y.key in g.calls(chain[i])
  }

  lemma CalledOneMore(g: CallGraph, chain: seq<Key>, n: nat, before: set<Instance>, after: set<Instance>)
    requires n < |chain| && CalledAlong(g, chain, n, before)
    requires forall y :: y in after ==> y in before || y.key in g.calls(chain[n])
    ensures CalledAlong(g, chain, n + 1, after)
  {
    forall y | y in after
      ensures exists i :: 0 <= i < n + 1 && y.key in g.calls(chain[i])
    {
      if y in before { var i :| 0 <= i < n && y.key in g.calls(chain[i]); }
    }
  }

  lemma NextIsDue(g: CallGraph, roots: set<Key>, chain: seq<Key>, n: nat, s: State, x: Instance)
    requires Closed(g) && ValidRoots(g, roots) && Straight(g, roots, chain) && n + 1 < |chain|
    requires Along(g, roots, chain, n, s) && x in s.workList && x.key == chain[n]
    ensures Process(g, s, x).Some? && Due(Process(g, s, x).value, chain[n + 1], KeysOf(chain[..n + 1]))
  {
    var k := chain[n];
    AlongAvoids(g, chain, n, s);
    AncestorsAlong(g, chain, n, s);
    if !Inline(g, chain[n + 1]) { NextIsNew(g, roots, chain, n, s); }
    TakenIsMidway(g, roots, s, x);
    assert KnownInstance(g, roots, s, x);
    LineageOf(g, s, k);
    CallsMakeDue(g, roots, Taken(s, x), Ancestors(s, k), k, g.calls(k), chain[n + 1]);
  }

  lemma NextIsProcessed(g: CallGraph, roots: set<Key>, chain: seq<Key>, n: nat, s: State, x: Instance)
    requires n < |chain| && CleanAt(g, chain, n) && Along(g, roots, chain, n, s)
    requires x in s.workList && x.key == chain[n]
    ensures Process(g, s, x).Some?
    ensures var t := Process(g, s, x).value;
      t.processed == s.processed + [x] && CalledAlong(g, chain, n + 1, t.visited)
  {
    AlongAvoids(g, chain, n, s);
    CallsAvoidAncestors(g, Taken(s, x), Ancestors(s, x.key), g.calls(x.key));
    CallsHand(g, Taken(s, x), Ancestors(s, x.key), g.calls(x.key));
    CalledOneMore(g, chain, n, s.visited, Process(g, s, x).value.visited);
  }

  lemma AlongStep(g: CallGraph, roots: set<Key>, chain: seq<Key>, n: nat, s: State) returns (t: State)
    requires Closed(g) && ValidRoots(g, roots) && Straight(g, roots, chain) && n < |chain| && CleanAt(g, chain, n)
    requires Along(g, roots, chain, n, s)
    ensures Along(g, roots, chain, n + 1, t)
  {
    var x :| x in s.workList && x.key == chain[n];
    NextIsProcessed(g, roots, chain, n, s, x);
    t := Process(g, s, x).value;
    ProcessKeepsInvariant(g, roots, s, x);
    ReachesOneMore(g, Initial(roots), s, x);
    if n + 1 < |chain| { NextIsDue(g, roots, chain, n, s, x); }
  }

  lemma ReachesOneMore(g: CallGraph, s: State, t: State, x: Instance)
    requires Reaches(g, s, t) && x in t.workList && Process(g, t, x).Some?
    ensures Reaches(g, s, Process(g, t, x).value)
  {
    var order :| Runs(g, s, order, t);
    RunsLonger(g, s, order, t, x);
  }

  lemma {:induction false} AlongAll(g: CallGraph, roots: set<Key>, chain: seq<Key>, n: nat) returns (s: State)
    requires Closed(g) && ValidRoots(g, roots) && Straight(g, roots, chain) && n < |chain|
    ensures Along(g, roots, chain, n, s)
  {
    if n == 0 {
      s := Initial(roots);
      AlongStarts(g, roots, chain);
    } else {
      var before := AlongAll(g, roots, chain, n - 1);
      s := AlongStep(g, roots, chain, n - 1, before);
    }
  }

  /** Some order gets as far as processing u. */
  ghost predicate CanBeProcessed(g: CallGraph, roots: set<Key>, u: Key) {
    exists final: State :: Reaches(g, Initial(roots), final) && Done(final.processed, u)
  }

  /** A function can be processed, in some order, exactly if there is a clean chain to it. */
  lemma ProcessedExactlyIfClean(g: CallGraph, roots: set<Key>, u: Key)
    requires Closed(g) && ValidRoots(g, roots)
    ensures CanBeProcessed(g, roots, u) <==> CleanlyReachable(g, roots, u)
  {
    if CanBeProcessed(g, roots, u) {
      var final: State :| Reaches(g, Initial(roots), final) && Done(final.processed, u);
      ReachedIsChained(g, roots, final);
    }
    if CleanlyReachable(g, roots, u) {
      var chain :| CleanTo(g, roots, u, chain);
      var straight := ShortCut(g, roots, u, chain);
      var before := AlongAll(g, roots, straight, |straight| - 1);
      var final := AlongStep(g, roots, straight, |straight| - 1, before);
      assert final.processed[|straight| - 1] in final.processed;
    }
  }

  lemma ReachedIsChained(g: CallGraph, roots: set<Key>, s: State)
    requires Closed(g) && ValidRoots(g, roots) && Reaches(g, Initial(roots), s)
    ensures Invariant(g, roots, s) && Chained(g, roots, s)
  {
    var order :| Runs(g, Initial(roots), order, s);
    InitialInvariant(g, roots);
    InitialChained(g, roots);
    RunsKeepChained(g, roots, Initial(roots), order, s);
  }

  // ---- What can be reported ----

  /** Some order ends without the recursion error. */
  ghost predicate FinishesWithoutError(g: CallGraph, roots: set<Key>) {
    exists order, final: State :: Runs(g, Initial(roots), order, final) && final.workList == {}
  }

  /** Some order runs into the recursion error. */
  ghost predicate CanFail(g: CallGraph, roots: set<Key>) {
    exists s: State, x :: Reaches(g, Initial(roots), s) && x in s.workList && Process(g, s, x).None?
  }

  /** The last function of a straight chain calls itself or one before it. */
  ghost predicate TurnsBack(g: CallGraph, roots: set<Key>, chain: seq<Key>) {
    Straight(g, roots, chain) && exists j :: 0 <= j < |chain| && chain[j] in g.calls(chain[|chain| - 1])
  }

  /** When an instance runs into an ancestor, its ancestors are a straight chain that turns back. */
  lemma FailureTurnsBack(g: CallGraph, roots: set<Key>, s: State, x: Instance) returns (chain: seq<Key>)
    requires Chained(g, roots, s) && x in s.workList && Process(g, s, x).None?
    ensures TurnsBack(g, roots, chain)
  {
    var P := Ancestors(s, x.key);
    CallsAvoidAncestors(g, Taken(s, x), P, g.calls(x.key));
    var c :| c in g.calls(x.key) && c in P;
    assert Led(g, roots, x.key, s.parents[x.key] + {x.key}, s.processed);
    chain :| LedTo(g, roots, x.key, P, s.processed, chain);
    assert c in KeysOf(chain);
  }

  /** Some order of processing reports recursion exactly if some straight chain turns back. */
  lemma ReportedExactlyIfTurningBack(g: CallGraph, roots: set<Key>)
    requires Closed(g) && ValidRoots(g, roots)
    ensures CanFail(g, roots) <==> exists chain :: TurnsBack(g, roots, chain)
  {
    if CanFail(g, roots) {
      var s: State, x :| Reaches(g, Initial(roots), s) && x in s.workList && Process(g, s, x).None?;
      ReachedIsChained(g, roots, s);
      var chain := FailureTurnsBack(g, roots, s, x);
    }
    if chain :| TurnsBack(g, roots, chain) {
      var s, x := TurningBackFails(g, roots, chain);
    }
  }

  lemma TurningBackFails(g: CallGraph, roots: set<Key>, chain: seq<Key>) returns (s: State, x: Instance)
    requires Closed(g) && ValidRoots(g, roots) && TurnsBack(g, roots, chain)
    ensures Reaches(g, Initial(roots), s) && x in s.workList && Process(g, s, x).None?
  {
    var last := |chain| - 1;
    s := AlongAll(g, roots, chain, last);
    x :| x in s.workList && x.key == chain[last];
    AncestorsAlong(g, chain, last, s);
    var j :| 0 <= j < |chain| && chain[j] in g.calls(chain[last]);
    assert chain[..last + 1] == chain;
    CallsAvoidAncestors(g, Taken(s, x), Ancestors(s, x.key), g.calls(x.key));
  }
}
