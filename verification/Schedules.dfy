/** Runs as lists of functions: which programs, with inline functions or without, every order reports. */
module Schedules {
  import opened Wrappers
  import opened Collections
  import opened CallGraphs
  import opened EnumerationInvariants
  import opened RecursionReports
  import opened PossibleReports
  import opened FirstCallers

  // ---- What a list of functions leaves, without any state ----

  /** How often the functions of q call k. */
  ghost function CallsTo(g: CallGraph, q: seq<Key>, k: Key): nat {
    if q == [] then 0 else CallsTo(g, q[..|q| - 1], k) + multiset(g.calls(q[|q| - 1]))[k]
  }

  /** The ancestors k has after q: an ordinary function those of its first caller, an inline one those of its last. */
  ghost function Given(g: CallGraph, q: seq<Key>, k: Key): set<Key> {
    if q == [] then {}
    else
      var p, u := q[..|q| - 1], q[|q| - 1];
      if k in g.calls(u) && (Inline(g, k) || CallsTo(g, p, k) == 0) then Given(g, p, u) + {u} else Given(g, p, k)
  }

  /** How often k is still to come: an inline function once for each call, an ordinary one once it is called. */
  ghost function Waiting(g: CallGraph, roots: set<Key>, q: seq<Key>, k: Key): int {
    if q == [] then (if k in roots then 1 else 0)
    else
      var p, u := q[..|q| - 1], q[|q| - 1];
      if Inline(g, k) then Waiting(g, roots, p, k) + multiset(g.calls(u))[k] - (if u == k then 1 else 0)
      else if k in g.calls(u) && CallsTo(g, p, k) == 0 then 1
      else if u == k then 0
      else Waiting(g, roots, p, k)
  }

  /** Every function of q was still to come when it came, and called nothing it was given, nor itself. */
  ghost predicate Playable(g: CallGraph, roots: set<Key>, q: seq<Key>) {
    forall n :: 0 <= n < |q| ==>
      Waiting(g, roots, q[..n], q[n]) > 0 && Avoids(g, q[n], Given(g, q[..n], q[n]) + {q[n]})
  }

  /** A playable list after which nothing is still to come. */
  ghost predicate Schedule(g: CallGraph, roots: set<Key>, q: seq<Key>) {
    Playable(g, roots, q) && forall k :: Waiting(g, roots, q, k) == 0
  }

  ghost predicate CanBeScheduled(g: CallGraph, roots: set<Key>) { exists q :: Schedule(g, roots, q) }

  lemma OneMoreFunction(g: CallGraph, roots: set<Key>, q: seq<Key>, u: Key, k: Key)
    ensures CallsTo(g, q + [u], k) == CallsTo(g, q, k) + multiset(g.calls(u))[k]
    ensures Given(g, q + [u], k) ==
            if k in g.calls(u) && (Inline(g, k) || CallsTo(g, q, k) == 0) then Given(g, q, u) + {u} else Given(g, q, k)
    ensures Waiting(g, roots, q + [u], k) ==
            if Inline(g, k) then Waiting(g, roots, q, k) + multiset(g.calls(u))[k] - (if u == k then 1 else 0)
            else if k in g.calls(u) && CallsTo(g, q, k) == 0 then 1
            else if u == k then 0
            else Waiting(g, roots, q, k)
  {
    assert (q + [u])[..|q|] == q;
  }

  // ---- The list of a run ----

  ghost function KeyList(processed: seq<Instance>): (q: seq<Key>)
    ensures |q| == |processed| && forall i :: 0 <= i < |q| ==> q[i] == processed[i].key
  {
    seq(|processed|, i requires 0 <= i < |processed| => processed[i].key)
  }

  ghost function Pending(s: State, k: Key): set<Instance> { set y | y in s.workList && y.key == k }

  /** What the list says is what the state holds. */
  ghost predicate Mirrors(g: CallGraph, roots: set<Key>, s: State) {
    var q := KeyList(s.processed);
    && (forall k :: k in s.parents ==> s.parents[k] == Given(g, q, k))
    && (forall k :: !Inline(g, k) ==> (Instance(k, 0) in s.visited <==> CallsTo(g, q, k) > 0))
    && (forall k :: |Pending(s, k)| == Waiting(g, roots, q, k))
  }

  lemma InitialMirrors(g: CallGraph, roots: set<Key>)
    ensures Mirrors(g, roots, Initial(roots))
  {
    var s := Initial(roots);
    forall k
      ensures |Pending(s, k)| == if k in roots then 1 else 0
    {
      assert Pending(s, k) == if k in roots then {Instance(k, 0)} else {};
    }
  }

  lemma KeyListGrows(processed: seq<Instance>, x: Instance)
    ensures KeyList(processed + [x]) == KeyList(processed) + [x.key]
  {
  }

  // ---- One step ----

  /** Each call of an inline function adds an instance. */
  lemma {:induction false} CallsAddInline(g: CallGraph, roots: set<Key>, s: State, P: set<Key>, u: Key, cs: seq<Key>,
                                          k: Key)
    requires Closed(g) && ValidRoots(g, roots) && Midway(g, roots, s, []) && Lineage(g, P, u) && Reachable(g, roots, u)
    requires s.processed[|s.processed| - 1].key == u && forall c :: c in cs ==> c in g.calls(u)
    requires Calls(g, s, P, cs).Some? && Inline(g, k)
    ensures |Pending(Calls(g, s, P, cs).value, k)| == |Pending(s, k)| + multiset(cs)[k]
    decreases |cs|
  {
    if cs != [] {
      var init, c := cs[..|cs| - 1], cs[|cs| - 1];
      assert init + [c] == cs;
      CallsAddInline(g, roots, s, P, u, init, k);
      CallsKeepMidway(g, roots, s, P, u, init);
      CallAddsInline(g, roots, Calls(g, s, P, init).value, P, c, k);
      assert multiset(cs)[k] == multiset(init)[k] + if c == k then 1 else 0;
    }
  }

  lemma CallAddsInline(g: CallGraph, roots: set<Key>, s: State, P: set<Key>, c: Key, k: Key)
    requires AllKnown(g, roots, s) && c !in P && Inline(g, k)
    ensures |Pending(Call(g, s, P, c).value, k)| == |Pending(s, k)| + if c == k then 1 else 0
  {
    if c == k {
      FreshInstance(g, roots, s, c);
      NewPending(g, s, P, c);
    } else {
      assert Pending(Call(g, s, P, c).value, k) == Pending(s, k);
    }
  }

  lemma NewPending(g: CallGraph, s: State, P: set<Key>, c: Key)
    requires c !in P && Callee(g, s, c) !in s.visited && Callee(g, s, c) !in s.workList
    ensures |Pending(Call(g, s, P, c).value, c)| == |Pending(s, c)| + 1
  {
    var y := Callee(g, s, c);
    assert Pending(Call(g, s, P, c).value, c) == Pending(s, c) + {y};
    assert y !in Pending(s, c);
  }

  lemma TakenPending(s: State, x: Instance, k: Key)
    requires x in s.workList
    ensures |Pending(Taken(s, x), k)| == |Pending(s, k)| - if x.key == k then 1 else 0
  {
    assert Pending(Taken(s, x), k) == Pending(s, k) - {x};
    assert x in Pending(s, k) <==> x.key == k;
  }

  lemma InlineWaits(g: CallGraph, roots: set<Key>, s: State, x: Instance, t: State, k: Key)
    requires Stepped(g, roots, s, x, t) && Inline(g, k)
    ensures |Pending(t, k)| == |Pending(s, k)| + multiset(g.calls(x.key))[k] - if x.key == k then 1 else 0
  {
    TakenIsMidway(g, roots, s, x);
    assert KnownInstance(g, roots, s, x);
    LineageOf(g, s, x.key);
    CallsAddInline(g, roots, Taken(s, x), Ancestors(s, x.key), x.key, g.calls(x.key), k);
    TakenPending(s, x, k);
  }

  /** Ordinary functions have one instance. */
  lemma OrdinaryPending(g: CallGraph, roots: set<Key>, s: State, k: Key)
    requires AllKnown(g, roots, s) && !Inline(g, k)
    ensures |Pending(s, k)| == if Instance(k, 0) in s.workList then 1 else 0
  {
    forall y | y in Pending(s, k)
      ensures y == Instance(k, 0)
    {
      assert KnownInstance(g, roots, s, y);
    }
    assert Pending(s, k) == if Instance(k, 0) in s.workList then {Instance(k, 0)} else {};
  }

  lemma OrdinaryWaits(g: CallGraph, roots: set<Key>, s: State, x: Instance, t: State, k: Key)
    requires Stepped(g, roots, s, x, t) && !Inline(g, k)
    ensures Instance(k, 0) in t.workList <==>
            if k in g.calls(x.key) && Instance(k, 0) !in s.visited then true
            else x.key != k && Instance(k, 0) in s.workList
  {
    StepHands(g, roots, s, x, t);
    AvoidsAncestors(g, s, x);
    assert KnownInstance(g, roots, s, x);
    if k in g.calls(x.key) && Instance(k, 0) !in s.visited {
      NewCallee(g, roots, s, x, t, k);
    } else {
      assert x == Instance(x.key, 0) || Inline(g, x.key);
    }
  }

  lemma CalleeIsGiven(g: CallGraph, roots: set<Key>, s: State, x: Instance, t: State, c: Key)
    requires Stepped(g, roots, s, x, t) && c in g.calls(x.key) && (Inline(g, c) || Instance(c, 0) !in s.visited)
    ensures c in t.parents && t.parents[c] == Ancestors(s, x.key)
  {
    AvoidsAncestors(g, s, x);
    TakenIsMidway(g, roots, s, x);
    assert KnownInstance(g, roots, s, x);
    LineageOf(g, s, x.key);
    CallsMakeDue(g, roots, Taken(s, x), Ancestors(s, x.key), x.key, g.calls(x.key), c);
  }

  /** The parents, the visits and the pending instances of one function after a step. */
  lemma StepMirrorsParent(g: CallGraph, roots: set<Key>, s: State, x: Instance, t: State, k: Key)
    requires Stepped(g, roots, s, x, t) && Mirrors(g, roots, s) && k in t.parents
    ensures t.parents[k] == Given(g, KeyList(s.processed) + [x.key], k)
  {
    OneMoreFunction(g, roots, KeyList(s.processed), x.key, k);
    assert x.key in s.parents;
    StepHands(g, roots, s, x, t);
    if k in g.calls(x.key) && (Inline(g, k) || Instance(k, 0) !in s.visited) {
      CalleeIsGiven(g, roots, s, x, t, k);
    }
  }

  lemma StepMirrorsVisit(g: CallGraph, roots: set<Key>, s: State, x: Instance, t: State, k: Key)
    requires Stepped(g, roots, s, x, t) && Mirrors(g, roots, s) && !Inline(g, k)
    ensures Instance(k, 0) in t.visited <==> CallsTo(g, KeyList(s.processed) + [x.key], k) > 0
  {
    OneMoreFunction(g, roots, KeyList(s.processed), x.key, k);
    StepHands(g, roots, s, x, t);
    if k in g.calls(x.key) { CalleesVisited(g, roots, s, x, t, k); }
  }

  lemma StepMirrorsPending(g: CallGraph, roots: set<Key>, s: State, x: Instance, t: State, k: Key)
    requires Stepped(g, roots, s, x, t) && Mirrors(g, roots, s)
    ensures |Pending(t, k)| == Waiting(g, roots, KeyList(s.processed) + [x.key], k)
  {
    OneMoreFunction(g, roots, KeyList(s.processed), x.key, k);
    if Inline(g, k) {
      InlineWaits(g, roots, s, x, t, k);
    } else {
      ProcessKeepsInvariant(g, roots, s, x);
      OrdinaryPending(g, roots, s, k);
      OrdinaryPending(g, roots, t, k);
      OrdinaryWaits(g, roots, s, x, t, k);
    }
  }

  lemma StepMirrors(g: CallGraph, roots: set<Key>, s: State, x: Instance, t: State)
    requires Stepped(g, roots, s, x, t) && Mirrors(g, roots, s)
    ensures Mirrors(g, roots, t) && KeyList(t.processed) == KeyList(s.processed) + [x.key]
  {
    StepHands(g, roots, s, x, t);
    KeyListGrows(s.processed, x);
    forall k | k in t.parents { StepMirrorsParent(g, roots, s, x, t, k); }
    forall k | !Inline(g, k)
      ensures Instance(k, 0) in t.visited <==> CallsTo(g, KeyList(s.processed) + [x.key], k) > 0
    {
      StepMirrorsVisit(g, roots, s, x, t, k);
    }
    forall k
      ensures |Pending(t, k)| == Waiting(g, roots, KeyList(s.processed) + [x.key], k)
    {
      StepMirrorsPending(g, roots, s, x, t, k);
    }
  }

  /** A pending instance can be processed exactly if its function may come next on the list. */
  lemma MayComeNext(g: CallGraph, roots: set<Key>, s: State, x: Instance)
    requires Chained(g, roots, s) && Mirrors(g, roots, s) && x in s.workList
    ensures Waiting(g, roots, KeyList(s.processed), x.key) > 0
    ensures Process(g, s, x).Some? <==> Avoids(g, x.key, Given(g, KeyList(s.processed), x.key) + {x.key})
  {
    assert x in Pending(s, x.key);
    assert x.key in s.parents;
    CallsAvoidAncestors(g, Taken(s, x), Ancestors(s, x.key), g.calls(x.key));
  }

  // ---- Runs and lists ----

  ghost predicate Mirrored(g: CallGraph, roots: set<Key>, s: State) {
    Invariant(g, roots, s) && Chained(g, roots, s) && Mirrors(g, roots, s) && Playable(g, roots, KeyList(s.processed))
  }

  lemma PlaysOn(g: CallGraph, roots: set<Key>, q: seq<Key>, u: Key)
    requires Playable(g, roots, q) && Waiting(g, roots, q, u) > 0 && Avoids(g, u, Given(g, q, u) + {u})
    ensures Playable(g, roots, q + [u])
  {
    var q2 := q + [u];
    forall n | 0 <= n < |q2|
      ensures Waiting(g, roots, q2[..n], q2[n]) > 0 && Avoids(g, q2[n], Given(g, q2[..n], q2[n]) + {q2[n]})
    {
      if n < |q| { assert q2[..n] == q[..n]; } else { assert q2[..n] == q; }
    }
  }

  lemma ProcessKeepsMirrored(g: CallGraph, roots: set<Key>, s: State, x: Instance, t: State)
    requires Stepped(g, roots, s, x, t) && Mirrored(g, roots, s)
    ensures Mirrored(g, roots, t) && KeyList(t.processed) == KeyList(s.processed) + [x.key]
  {
    MayComeNext(g, roots, s, x);
    StepMirrors(g, roots, s, x, t);
    PlaysOn(g, roots, KeyList(s.processed), x.key);
    ProcessKeepsInvariant(g, roots, s, x);
    ProcessKeepsChained(g, roots, s, x);
  }

  lemma InitialMirrored(g: CallGraph, roots: set<Key>)
    requires Closed(g) && ValidRoots(g, roots)
    ensures Mirrored(g, roots, Initial(roots))
  {
    InitialInvariant(g, roots);
    InitialChained(g, roots);
    InitialMirrors(g, roots);
  }

  lemma {:induction false} RunsKeepMirrored(g: CallGraph, roots: set<Key>, s: State, order: seq<Instance>, final: State)
    requires Closed(g) && ValidRoots(g, roots) && Mirrored(g, roots, s) && Runs(g, s, order, final)
    ensures Mirrored(g, roots, final)
    decreases |order|
  {
    if order != [] {
      var t := Process(g, s, order[0]).value;
      ProcessKeepsMirrored(g, roots, s, order[0], t);
      RunsKeepMirrored(g, roots, t, order[1..], final);
    }
  }

  /** s is where a run along the list q gets. */
  ghost predicate Played(g: CallGraph, roots: set<Key>, q: seq<Key>, s: State) {
    Mirrored(g, roots, s) && Reaches(g, Initial(roots), s) && KeyList(s.processed) == q
  }

  lemma PlayStarts(g: CallGraph, roots: set<Key>)
    requires Closed(g) && ValidRoots(g, roots)
    ensures Played(g, roots, [], Initial(roots))
  {
    InitialMirrored(g, roots);
    assert Runs(g, Initial(roots), [], Initial(roots));
  }

  /** Every playable list is the list of a run. */
  lemma {:induction false} PlayList(g: CallGraph, roots: set<Key>, q: seq<Key>, n: nat) returns (s: State)
    requires Closed(g) && ValidRoots(g, roots) && Playable(g, roots, q) && n <= |q|
    ensures Played(g, roots, q[..n], s)
  {
    if n == 0 {
      s := Initial(roots);
      PlayStarts(g, roots);
      assert q[..0] == [];
    } else {
      var before := PlayList(g, roots, q, n - 1);
      s := PlayOne(g, roots, q, n - 1, before);
    }
  }

  lemma PlayOne(g: CallGraph, roots: set<Key>, q: seq<Key>, n: nat, s: State) returns (t: State)
    requires Closed(g) && ValidRoots(g, roots) && Playable(g, roots, q) && n < |q|
    requires Played(g, roots, q[..n], s)
    ensures Played(g, roots, q[..n + 1], t)
  {
    assert |Pending(s, q[n])| > 0;
    var x :| x in Pending(s, q[n]);
    MayComeNext(g, roots, s, x);
    t := Process(g, s, x).value;
    ProcessKeepsMirrored(g, roots, s, x, t);
    ReachesOneMore(g, Initial(roots), s, x);
    PrefixGrows(q, n);
  }

  lemma PendingCount(g: CallGraph, roots: set<Key>, s: State, y: Instance)
    requires Mirrors(g, roots, s) && y in s.workList
    ensures Waiting(g, roots, KeyList(s.processed), y.key) > 0
  {
    assert y in Pending(s, y.key);
    assert |Pending(s, y.key)| == Waiting(g, roots, KeyList(s.processed), y.key);
  }

  lemma NothingPending(g: CallGraph, roots: set<Key>, s: State)
    requires Mirrors(g, roots, s)
    ensures s.workList == {} <==> forall k :: Waiting(g, roots, KeyList(s.processed), k) == 0
  {
    if s.workList == {} {
      forall k
        ensures Waiting(g, roots, KeyList(s.processed), k) == 0
      {
        assert Pending(s, k) == {};
      }
    } else {
      var y :| y in s.workList;
      PendingCount(g, roots, s, y);
      assert !(Waiting(g, roots, KeyList(s.processed), y.key) == 0);
    }
  }

  /** Some order ends without an error exactly if there is a schedule. */
  lemma FinishesExactlyIfScheduled(g: CallGraph, roots: set<Key>)
    requires Closed(g) && ValidRoots(g, roots)
    ensures FinishesWithoutError(g, roots) <==> CanBeScheduled(g, roots)
  {
    if FinishesWithoutError(g, roots) {
      var order, final: State :| Runs(g, Initial(roots), order, final) && final.workList == {};
      InitialMirrored(g, roots);
      RunsKeepMirrored(g, roots, Initial(roots), order, final);
      NothingPending(g, roots, final);
      assert Schedule(g, roots, KeyList(final.processed));
    }
    if q :| Schedule(g, roots, q) {
      var final := PlayList(g, roots, q, |q|);
      assert q[..|q|] == q;
      NothingPending(g, roots, final);
    }
  }
}
