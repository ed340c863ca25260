/** Which functions can be processed without the recursion error: those at the end of a clean chain of calls. */
module RecursionReports {
  import opened CallGraphs
  import opened EnumerationInvariants

  /** A chain of calls along which no function calls itself or one before it. */
  ghost predicate Clean(g: CallGraph, chain: seq<Key>) {
    IsChain(g, chain) && forall i, j :: 0 <= j <= i < |chain| ==> chain[j] !in g.calls(chain[i])
  }

  ghost predicate CleanTo(g: CallGraph, roots: set<Key>, u: Key, chain: seq<Key>) {
    Clean(g, chain) && chain[0] in roots && chain[|chain| - 1] == u
  }

  ghost predicate CleanlyReachable(g: CallGraph, roots: set<Key>, u: Key) {
    exists chain :: CleanTo(g, roots, u, chain)
  }

  ghost function KeysOf(chain: seq<Key>): set<Key> { set k | k in chain }

  /** A chain from a root that is clean up to its last call, and on which only the function before it calls an
      ordinary function: one that was called earlier is not called again. */
  ghost predicate Straight(g: CallGraph, roots: set<Key>, chain: seq<Key>) {
    && IsChain(g, chain) && chain[0] in roots
    && (forall i, j :: 0 <= j <= i < |chain| - 1 ==> chain[j] !in g.calls(chain[i]))
    && (forall i, j :: 0 <= i && i + 1 < j < |chain| && !Inline(g, chain[j]) ==> chain[j] !in g.calls(chain[i]))
  }

  ghost predicate Done(processed: seq<Instance>, k: Key) { exists y :: y in processed && y.key == k }

  /** A straight chain to k whose functions are exactly S, and were all processed but the last. */
  ghost predicate LedTo(g: CallGraph, roots: set<Key>, k: Key, S: set<Key>, processed: seq<Instance>, chain: seq<Key>) {
    && Straight(g, roots, chain) && chain[|chain| - 1] == k && KeysOf(chain) == S
    && (forall i :: 0 <= i < |chain| - 1 ==> Done(processed, chain[i]))
  }

  ghost predicate Led(g: CallGraph, roots: set<Key>, k: Key, S: set<Key>, processed: seq<Instance>) {
    exists chain :: LedTo(g, roots, k, S, processed, chain)
  }

  /** The ancestors of every pending key are a chain to it, and what was processed has a clean chain. */
  ghost predicate Chained(g: CallGraph, roots: set<Key>, s: State) {
    && (forall k :: k in s.parents ==> Led(g, roots, k, s.parents[k] + {k}, s.processed))
    && (forall y :: y in s.workList ==> y.key in s.parents)
    && (forall y :: y in s.processed ==> CleanlyReachable(g, roots, y.key))
  }

  lemma InitialChained(g: CallGraph, roots: set<Key>)
    ensures Chained(g, roots, Initial(roots))
  {
    forall k | k in roots
      ensures Led(g, roots, k, {} + {k}, [])
    {
      assert LedTo(g, roots, k, {} + {k}, [], [k]);
    }
  }

  // ---- What the calls of one instance do ----

  lemma {:induction false} CallsAvoidAncestors(g: CallGraph, s: State, P: set<Key>, cs: seq<Key>)
    ensures Calls(g, s, P, cs).Some? <==> forall c :: c in cs ==> c !in P
    decreases |cs|
  {
    if cs != [] {
      CallsAvoidAncestors(g, s, P, cs[..|cs| - 1]);
      assert cs == cs[..|cs| - 1] + [cs[|cs| - 1]];
    }
  }

  /** Ancestors were only handed to called functions, to ordinary ones only the first time they are called, and only
      their instances are new. */
  ghost predicate Handed(g: CallGraph, s: State, t: State, P: set<Key>, cs: seq<Key>) {
    && s.processed == t.processed && s.parents.Keys <= t.parents.Keys && s.workList <= t.workList
    && s.visited <= t.visited
    && (forall k :: k in t.parents ==> HandedTo(g, s, t, P, cs, k) || (k in s.parents && s.parents[k] == t.parents[k]))
    && (forall y :: y in t.workList ==> y in s.workList || (y.key in cs && y.key in t.parents && y !in s.visited))
    && (forall y :: y in t.visited ==> y in s.visited || y.key in cs)
  }

  ghost predicate HandedTo(g: CallGraph, s: State, t: State, P: set<Key>, cs: seq<Key>, k: Key)
    requires k in t.parents
  {
    k in cs && t.parents[k] == P && (Inline(g, k) || Instance(k, 0) !in s.visited)
  }

  lemma HandedOneMore(g: CallGraph, s: State, t: State, P: set<Key>, cs: seq<Key>, c: Key)
    requires Handed(g, s, t, P, cs) && c !in P
    ensures Handed(g, s, Call(g, t, P, c).value, P, cs + [c])
  {
  }

  lemma {:induction false} CallsHand(g: CallGraph, s: State, P: set<Key>, cs: seq<Key>)
    requires Calls(g, s, P, cs).Some?
    ensures Handed(g, s, Calls(g, s, P, cs).value, P, cs)
    decreases |cs|
  {
    if cs != [] {
      var init, c := cs[..|cs| - 1], cs[|cs| - 1];
      CallsHand(g, s, P, init);
      HandedOneMore(g, s, Calls(g, s, P, init).value, P, init, c);
      assert init + [c] == cs;
    }
  }

  lemma ChainIsClean(g: CallGraph, roots: set<Key>, k: Key, S: set<Key>, processed: seq<Instance>, chain: seq<Key>)
    requires LedTo(g, roots, k, S, processed, chain) && forall c :: c in g.calls(k) ==> c !in S
    ensures CleanTo(g, roots, k, chain)
  {
    forall j | 0 <= j < |chain|
      ensures chain[j] in S
    {
    }
  }

  /** What was processed called only what was visited before. */
  lemma DoneCallsVisited(g: CallGraph, roots: set<Key>, s: State, k: Key, c: Key)
    requires Invariant(g, roots, s) && Done(s.processed, k) && c in g.calls(k) && !Inline(g, c)
    ensures Instance(c, 0) in s.visited
  {
    var y :| y in s.processed && y.key == k;
    var i :| 0 <= i < |s.processed| && s.processed[i] == y;
    assert CallsAnswered(g, s, i, g.calls(s.processed[i].key));
    assert Answered(g, s, i, c);
  }

  lemma ChainLeadsOn(g: CallGraph, roots: set<Key>, s: State, x: Instance, S: set<Key>, chain: seq<Key>, c: Key)
    requires Invariant(g, roots, s) && LedTo(g, roots, x.key, S, s.processed, chain)
    requires CleanTo(g, roots, x.key, chain) && c in g.calls(x.key) && (Inline(g, c) || Instance(c, 0) !in s.visited)
    ensures Led(g, roots, c, S + {c}, s.processed + [x])
  {
    var longer := chain + [c];
    forall i, j | 0 <= i && i + 1 < j < |longer| && !Inline(g, longer[j])
      ensures longer[j] !in g.calls(longer[i])
    {
      if j == |chain| && c in g.calls(chain[i]) { DoneCallsVisited(g, roots, s, chain[i], c); }
    }
    LongerIsDone(s.processed, x, chain, c);
    assert LedTo(g, roots, c, S + {c}, s.processed + [x], longer);
  }

  lemma LongerIsDone(processed: seq<Instance>, x: Instance, chain: seq<Key>, c: Key)
    requires chain != [] && chain[|chain| - 1] == x.key
    requires forall i :: 0 <= i < |chain| - 1 ==> Done(processed, chain[i])
    ensures forall i :: 0 <= i < |chain| ==> Done(processed + [x], (chain + [c])[i])
  {
    forall i | 0 <= i < |chain|
      ensures Done(processed + [x], (chain + [c])[i])
    {
      if i < |chain| - 1 { DoneStays(processed, x, chain[i]); } else { assert x in processed + [x]; }
    }
  }

  lemma DoneStays(processed: seq<Instance>, x: Instance, k: Key)
    requires Done(processed, k)
    ensures Done(processed + [x], k)
  {
    var y :| y in processed && y.key == k;
    assert y in processed + [x];
  }

  lemma LedStays(g: CallGraph, roots: set<Key>, k: Key, S: set<Key>, processed: seq<Instance>, x: Instance)
    requires Led(g, roots, k, S, processed)
    ensures Led(g, roots, k, S, processed + [x])
  {
    var chain :| LedTo(g, roots, k, S, processed, chain);
    forall i | 0 <= i < |chain| - 1
      ensures Done(processed + [x], chain[i])
    {
      DoneStays(processed, x, chain[i]);
    }
    assert LedTo(g, roots, k, S, processed + [x], chain);
  }

  lemma StillLed(g: CallGraph, roots: set<Key>, s: State, x: Instance, P: set<Key>, chain: seq<Key>, t: State, c: Key)
    requires Invariant(g, roots, s) && Chained(g, roots, s)
    requires LedTo(g, roots, x.key, P, s.processed, chain) && CleanTo(g, roots, x.key, chain)
    requires Handed(g, Taken(s, x), t, P, g.calls(x.key)) && c in t.parents
    ensures Led(g, roots, c, t.parents[c] + {c}, t.processed)
  {
    if HandedTo(g, Taken(s, x), t, P, g.calls(x.key), c) {
      ChainLeadsOn(g, roots, s, x, P, chain, c);
    } else {
      LedStays(g, roots, c, s.parents[c] + {c}, s.processed, x);
    }
  }

  /** Processing an instance keeps the chains, and shows a clean one for it. */
  lemma ProcessKeepsChained(g: CallGraph, roots: set<Key>, s: State, x: Instance)
    requires Invariant(g, roots, s) && Chained(g, roots, s) && x in s.workList && Process(g, s, x).Some?
    ensures Chained(g, roots, Process(g, s, x).value)
  {
    var k, P, t := x.key, Ancestors(s, x.key), Process(g, s, x).value;
    assert Led(g, roots, k, s.parents[k] + {k}, s.processed);
    var chain :| LedTo(g, roots, k, P, s.processed, chain);
    CallsAvoidAncestors(g, Taken(s, x), P, g.calls(k));
    ChainIsClean(g, roots, k, P, s.processed, chain);
    CallsHand(g, Taken(s, x), P, g.calls(k));
    forall c | c in t.parents
      ensures Led(g, roots, c, t.parents[c] + {c}, t.processed)
    {
      StillLed(g, roots, s, x, P, chain, t, c);
    }
    StillClean(g, roots, s, x);
  }

  lemma StillClean(g: CallGraph, roots: set<Key>, s: State, x: Instance)
    requires CleanlyReachable(g, roots, x.key) && forall y :: y in s.processed ==> CleanlyReachable(g, roots, y.key)
    ensures forall y :: y in s.processed + [x] ==> CleanlyReachable(g, roots, y.key)
  {
  }

  // ---- What a finished run has processed ----

  lemma CalleeProcessed(g: CallGraph, roots: set<Key>, s: State, i: nat, c: Key)
    requires Invariant(g, roots, s) && s.workList == {} && i < |s.processed| && c in g.calls(s.processed[i].key)
    ensures Done(s.processed, c)
  {
    assert CallsAnswered(g, s, i, g.calls(s.processed[i].key));
    assert Answered(g, s, i, c);
    if !Inline(g, c) {
      var y := Instance(c, 0);
      assert RightTimes(roots, s, y);
      assert y in multiset(s.processed);
      assert y in s.processed;
    }
  }

  lemma {:induction false} ChainProcessed(g: CallGraph, roots: set<Key>, s: State, chain: seq<Key>)
    requires Invariant(g, roots, s) && s.workList == {} && IsChain(g, chain) && Done(s.processed, chain[0])
    ensures Done(s.processed, chain[|chain| - 1])
    decreases |chain|
  {
    if |chain| > 1 {
      var init := chain[..|chain| - 1];
      ChainProcessed(g, roots, s, init);
      var y :| y in s.processed && y.key == init[|init| - 1];
      var i :| 0 <= i < |s.processed| && s.processed[i] == y;
      assert chain[|init| - 1 + 1] in g.calls(chain[|init| - 1]);
      CalleeProcessed(g, roots, s, i, chain[|chain| - 1]);
    }
  }

  lemma RootProcessed(g: CallGraph, roots: set<Key>, s: State, r: Key)
    requires Invariant(g, roots, s) && s.workList == {} && r in roots
    ensures Done(s.processed, r)
  {
    var y := Instance(r, 0);
    assert IsRoot(roots, y) && RightTimes(roots, s, y);
    assert y in multiset(s.processed);
    assert y in s.processed;
  }

  lemma ReachableProcessed(g: CallGraph, roots: set<Key>, s: State, k: Key)
    requires Invariant(g, roots, s) && s.workList == {} && Reachable(g, roots, k)
    ensures Done(s.processed, k)
  {
    if k in roots {
      RootProcessed(g, roots, s, k);
    } else {
      var r :| r in roots && LeadsTo(g, r, k);
      RootProcessed(g, roots, s, r);
      var chain :| IsChain(g, chain) && |chain| > 1 && chain[0] == r && chain[|chain| - 1] == k;
      ChainProcessed(g, roots, s, chain);
    }
  }

  lemma CleanAfterSuccess(g: CallGraph, roots: set<Key>, s: State, u: Key)
    requires Invariant(g, roots, s) && Chained(g, roots, s) && s.workList == {} && Reachable(g, roots, u)
    ensures CleanlyReachable(g, roots, u)
  {
    ReachableProcessed(g, roots, s, u);
  }

  // ---- What is always reported ----

  /** Some reachable function has no clean chain. */
  ghost predicate MustRecur(g: CallGraph, roots: set<Key>) {
    exists u :: u in g.keys && Reachable(g, roots, u) && !CleanlyReachable(g, roots, u)
  }

  /** Every chain of calls from a root to u passes through v. */
  ghost predicate OnEveryChain(g: CallGraph, roots: set<Key>, v: Key, u: Key) {
    forall chain :: IsChain(g, chain) && chain[0] in roots && chain[|chain| - 1] == u ==> v in chain
  }

  /** A function that can be reached cleanly calls none that every chain to it passes through; itself is one. */
  lemma CleanCallsAvoid(g: CallGraph, roots: set<Key>, u: Key, v: Key)
    requires CleanlyReachable(g, roots, u) && OnEveryChain(g, roots, v, u)
    ensures v !in g.calls(u)
  {
    var chain :| CleanTo(g, roots, u, chain);
    CleanEndAvoids(g, roots, u, chain, v);
  }

  lemma CleanEndAvoids(g: CallGraph, roots: set<Key>, u: Key, chain: seq<Key>, v: Key)
    requires CleanTo(g, roots, u, chain) && v in chain
    ensures v !in g.calls(u)
  {
    var j :| 0 <= j < |chain| && chain[j] == v;
  }
}
