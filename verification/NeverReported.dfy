/** Recursion that no order of processing reports: calls between functions that every root calls. */
module NeverReported {
  import opened CallGraphs
  import opened EnumerationInvariants
  import opened RecursionReports
  import opened PossibleReports

  /** An ordinary function, itself no root, that every root calls. */
  ghost predicate CalledByEveryRoot(g: CallGraph, roots: set<Key>, k: Key) {
    !Inline(g, k) && k !in roots && forall r :: r in roots ==> k in g.calls(r)
  }

  /** A call that can lead back to its caller. */
  ghost predicate RecursiveCall(g: CallGraph, u: Key, v: Key) {
    v in g.calls(u) && (u == v || LeadsTo(g, v, u))
  }

  /** On a straight chain such a function can only come right after the root. */
  lemma ComesAfterRoot(g: CallGraph, roots: set<Key>, chain: seq<Key>, i: nat)
    requires Straight(g, roots, chain) && i < |chain| && CalledByEveryRoot(g, roots, chain[i])
    ensures i == 1
  {
    assert chain[i] in g.calls(chain[0]);
  }

  lemma OneOnEachChain(g: CallGraph, roots: set<Key>, n: Key, m: Key, chain: seq<Key>)
    requires Straight(g, roots, chain) && n in chain && m in chain
    requires CalledByEveryRoot(g, roots, n) && CalledByEveryRoot(g, roots, m)
    ensures n == m
  {
    var i :| 0 <= i < |chain| && chain[i] == n;
    var j :| 0 <= j < |chain| && chain[j] == m;
    ComesAfterRoot(g, roots, chain, i);
    ComesAfterRoot(g, roots, chain, j);
  }

  lemma NotOnChain(g: CallGraph, roots: set<Key>, n: Key, m: Key, chain: seq<Key>)
    requires Straight(g, roots, chain) && n in chain && n != m
    requires CalledByEveryRoot(g, roots, n) && CalledByEveryRoot(g, roots, m)
    ensures m !in chain
  {
    if m in chain { OneOnEachChain(g, roots, n, m, chain); }
  }

  /** In no state of any run is one such function an ancestor of another. */
  lemma NeverAncestors(g: CallGraph, roots: set<Key>, s: State, n: Key, m: Key)
    requires Closed(g) && ValidRoots(g, roots) && Reaches(g, Initial(roots), s)
    requires CalledByEveryRoot(g, roots, n) && CalledByEveryRoot(g, roots, m) && n != m
    ensures m !in Ancestors(s, n)
  {
    ReachedIsChained(g, roots, s);
    if n in s.parents {
      assert Led(g, roots, n, s.parents[n] + {n}, s.processed);
      var chain :| LedTo(g, roots, n, s.parents[n] + {n}, s.processed, chain);
      assert n in KeysOf(chain);
      NotOnChain(g, roots, n, m, chain);
    }
  }

  /** If all recursive calls join two different such functions, no order reports recursion. */
  lemma CallsBetweenThemAreNeverReported(g: CallGraph, roots: set<Key>)
    requires Closed(g) && ValidRoots(g, roots)
    requires forall u, v :: RecursiveCall(g, u, v) && Reachable(g, roots, u) ==>
               u != v && CalledByEveryRoot(g, roots, u) && CalledByEveryRoot(g, roots, v)
    ensures !CanFail(g, roots)
  {
    ReportedExactlyIfTurningBack(g, roots);
    forall chain
      ensures !TurnsBack(g, roots, chain)
    {
      if TurnsBack(g, roots, chain) {
        var u, v := TurningCall(g, roots, chain);
        OneOnEachChain(g, roots, u, v, chain);
      }
    }
  }

  /** The call that turns back is recursive. */
  lemma TurningCall(g: CallGraph, roots: set<Key>, chain: seq<Key>) returns (u: Key, v: Key)
    requires TurnsBack(g, roots, chain)
    ensures u in chain && v in chain && RecursiveCall(g, u, v) && Reachable(g, roots, u)
  {
    var last := |chain| - 1;
    var j :| 0 <= j < |chain| && chain[j] in g.calls(chain[last]);
    u, v := chain[last], chain[j];
    if j < last {
      assert IsChain(g, chain[j..]);
      assert LeadsTo(g, v, u);
    }
    if last > 0 { assert LeadsTo(g, chain[0], u); }
  }
}
