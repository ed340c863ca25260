/** An ordinary function keeps the ancestors its first caller hands it: which programs every order reports. */
module FirstCallers {
  import opened Wrappers
  import opened CallGraphs
  import opened EnumerationInvariants
  import opened EnumerationTermination
  import opened RecursionReports
  import opened PossibleReports

  // ---- Lists of functions ----

  /** The position of the first function of q that calls k; |q| if none does. */
  ghost function FirstCaller(g: CallGraph, q: seq<Key>, k: Key): (i: nat)
    ensures i <= |q| && (i < |q| ==> k in g.calls(q[i])) && forall j :: 0 <= j < i ==> k !in g.calls(q[j])
  {
    if q == [] then 0
    else
      var i := FirstCaller(g, q[..|q| - 1], k);
      if i < |q| - 1 || k in g.calls(q[|q| - 1]) then i else |q|
  }

  /** The ancestors of the function at position n when the functions of q come first in this order. Those of inline
      functions, which later calls overwrite, are given. */
  ghost function Path(g: CallGraph, q: seq<Key>, own: map<Key, set<Key>>, n: nat): set<Key>
    requires n < |q|
  {
    if Inline(g, q[n]) then (if q[n] in own then own[q[n]] else {})
    else
      var i := FirstCaller(g, q, q[n]);
      (if i < n then Path(g, q, own, i) else {}) + {q[n]}
  }

  /** What the first caller of k in q hands down to it. */
  ghost function Inherited(g: CallGraph, q: seq<Key>, own: map<Key, set<Key>>, k: Key): set<Key> {
    var i := FirstCaller(g, q, k);
    if i < |q| then Path(g, q, own, i) else {}
  }

  ghost predicate Avoids(g: CallGraph, k: Key, S: set<Key>) { forall c :: c in g.calls(k) ==> c !in S }

  /** The ancestors given for an inline function are a straight chain of functions before it, and it avoids them. */
  ghost predicate Owned(g: CallGraph, roots: set<Key>, q: seq<Key>, own: map<Key, set<Key>>, n: nat)
    requires n < |q|
  {
    && q[n] in own && Avoids(g, q[n], own[q[n]])
    && exists chain :: OwnChain(g, roots, q[..n], q[n], own[q[n]], chain)
  }

  ghost predicate OwnChain(g: CallGraph, roots: set<Key>, before: seq<Key>, k: Key, S: set<Key>, chain: seq<Key>) {
    && Straight(g, roots, chain) && chain[|chain| - 1] == k && KeysOf(chain) == S
    && (forall i :: 0 <= i < |chain| - 1 ==> chain[i] in before)
  }

  /** Every function of q is a root or comes after one that calls it. */
  ghost predicate Introduced(g: CallGraph, roots: set<Key>, q: seq<Key>) {
    && (forall i, j :: 0 <= i < j < |q| ==> q[i] != q[j])
    && (forall n :: 0 <= n < |q| ==> q[n] in g.keys && (q[n] in roots || FirstCaller(g, q, q[n]) < n))
  }

  /** q lists the reachable functions so that none calls back to what its first caller hands it, or to itself. */
  ghost predicate Orderly(g: CallGraph, roots: set<Key>, q: seq<Key>, own: map<Key, set<Key>>) {
    && Introduced(g, roots, q)
    && (forall r :: r in roots ==> r in q)
    && (forall k, c :: k in q && c in g.calls(k) ==> c in q)
    && (forall k :: k in q && !Inline(g, k) ==> Avoids(g, k, Inherited(g, q, own, k) + {k}))
    && (forall n :: 0 <= n < |q| && Inline(g, q[n]) ==> Owned(g, roots, q, own, n))
  }

  ghost predicate CanBeOrderly(g: CallGraph, roots: set<Key>) {
    exists q, own :: Orderly(g, roots, q, own)
  }

  // ---- Longer lists ----

  lemma FirstCallerOfLonger(g: CallGraph, p: seq<Key>, q: seq<Key>, k: Key)
    requires p <= q
    ensures FirstCaller(g, p, k) < |p| ==> FirstCaller(g, q, k) == FirstCaller(g, p, k)
    ensures FirstCaller(g, p, k) == |p| ==> FirstCaller(g, q, k) >= |p|
  {
    assert forall j :: 0 <= j < |p| ==> p[j] == q[j];
  }

  ghost predicate SameOwn(p: seq<Key>, own: map<Key, set<Key>>, longer: map<Key, set<Key>>) {
    forall k :: k in p ==> (k in own <==> k in longer) && (k in own ==> own[k] == longer[k])
  }

  lemma {:induction false} PathOfLonger(g: CallGraph, p: seq<Key>, q: seq<Key>, own: map<Key, set<Key>>,
                                        longer: map<Key, set<Key>>, n: nat)
    requires p <= q && n < |p| && SameOwn(p, own, longer)
    ensures Path(g, p, own, n) == Path(g, q, longer, n)
    decreases n
  {
    assert p[n] == q[n] && p[n] in p;
    if !Inline(g, p[n]) {
      FirstCallerOfLonger(g, p, q, p[n]);
      var i := FirstCaller(g, p, p[n]);
      if i < n { PathOfLonger(g, p, q, own, longer, i); }
    }
  }

  lemma InheritedOfLonger(g: CallGraph, p: seq<Key>, q: seq<Key>, own: map<Key, set<Key>>, longer: map<Key, set<Key>>,
                          k: Key)
    requires p <= q && SameOwn(p, own, longer) && FirstCaller(g, p, k) < |p|
    ensures FirstCaller(g, q, k) < |q| && Inherited(g, q, longer, k) == Inherited(g, p, own, k)
  {
    FirstCallerOfLonger(g, p, q, k);
    PathOfLonger(g, p, q, own, longer, FirstCaller(g, p, k));
  }

  // ---- What a run leaves is such a list ----

  /** The functions of the processed instances, in the order in which they were first processed. */
  ghost function FirstKeys(processed: seq<Instance>): (q: seq<Key>)
    ensures forall k :: k in q <==> Done(processed, k)
    ensures forall i, j :: 0 <= i < j < |q| ==> q[i] != q[j]
  {
    if processed == [] then []
    else
      var init, x := processed[..|processed| - 1], processed[|processed| - 1];
      var q := FirstKeys(init);
      DoneOneMore(init, x, processed);
      if x.key in q then q else q + [x.key]
  }

  lemma DoneOneMore(init: seq<Instance>, x: Instance, processed: seq<Instance>)
    requires processed != [] && init == processed[..|processed| - 1] && x == processed[|processed| - 1]
    ensures forall k :: Done(processed, k) <==> Done(init, k) || k == x.key
  {
    assert processed == init + [x];
    forall k
      ensures Done(processed, k) <==> Done(init, k) || k == x.key
    {
      if Done(init, k) { DoneStays(init, x, k); }
      if k == x.key { assert x in processed; }
    }
  }

  lemma FirstKeysOneMore(processed: seq<Instance>, x: Instance)
    ensures FirstKeys(processed + [x]) ==
            FirstKeys(processed) + if x.key in FirstKeys(processed) then [] else [x.key]
  {
    assert (processed + [x])[..|processed|] == processed;
  }

  /** Ordinary functions that are pending or waiting have the ancestors their first caller handed them. */
  ghost predicate TracedParents(g: CallGraph, q: seq<Key>, own: map<Key, set<Key>>, s: State) {
    forall k :: k in s.parents && !Inline(g, k) ==> s.parents[k] == Inherited(g, q, own, k)
  }

  ghost predicate TracedVisits(g: CallGraph, q: seq<Key>, s: State) {
    forall k :: !Inline(g, k) ==> (Instance(k, 0) in s.visited <==> FirstCaller(g, q, k) < |q|)
  }

  /** An ordinary function that was called avoids what it inherits, or is still pending. */
  ghost predicate TracedCalls(g: CallGraph, q: seq<Key>, own: map<Key, set<Key>>, s: State) {
    forall k :: !Inline(g, k) && FirstCaller(g, q, k) < |q| ==>
      Instance(k, 0) in s.workList || Avoids(g, k, Inherited(g, q, own, k) + {k})
  }

  ghost predicate TracedOwn(g: CallGraph, roots: set<Key>, q: seq<Key>, own: map<Key, set<Key>>) {
    forall n :: 0 <= n < |q| && Inline(g, q[n]) ==> Owned(g, roots, q, own, n)
  }

  ghost predicate Traced(g: CallGraph, roots: set<Key>, s: State, own: map<Key, set<Key>>) {
    var q := FirstKeys(s.processed);
    && Introduced(g, roots, q) && TracedOwn(g, roots, q, own)
    && TracedParents(g, q, own, s) && TracedVisits(g, q, s) && TracedCalls(g, q, own, s)
  }

  lemma InitialTraced(g: CallGraph, roots: set<Key>, own: map<Key, set<Key>>)
    ensures Traced(g, roots, Initial(roots), own)
  {
  }

  /** The state after x, which avoids its ancestors, was processed. */
  ghost predicate Stepped(g: CallGraph, roots: set<Key>, s: State, x: Instance, t: State) {
    && Closed(g) && ValidRoots(g, roots) && Invariant(g, roots, s) && Chained(g, roots, s) && x in s.workList
    && Process(g, s, x) == Some(t)
  }

  // ---- A function processed again ----

  lemma AgainVisitsNothing(g: CallGraph, roots: set<Key>, s: State, x: Instance, t: State)
    requires Stepped(g, roots, s, x, t) && Done(s.processed, x.key)
    ensures forall k :: !Inline(g, k) ==> (Instance(k, 0) in t.visited <==> Instance(k, 0) in s.visited)
    ensures forall k :: !Inline(g, k) && k in t.parents ==> k in s.parents && t.parents[k] == s.parents[k]
    ensures s.workList - {x} <= t.workList
  {
    var P := Ancestors(s, x.key);
    CallsHand(g, Taken(s, x), P, g.calls(x.key));
    forall c | c in g.calls(x.key) && !Inline(g, c)
      ensures Instance(c, 0) in s.visited
    {
      DoneCallsVisited(g, roots, s, x.key, c);
    }
  }

  lemma AvoidsAncestors(g: CallGraph, s: State, x: Instance)
    requires Process(g, s, x).Some?
    ensures Avoids(g, x.key, Ancestors(s, x.key))
  {
    CallsAvoidAncestors(g, Taken(s, x), Ancestors(s, x.key), g.calls(x.key));
  }

  lemma AgainKeepsCalls(g: CallGraph, s: State, x: Instance, t: State, q: seq<Key>, own: map<Key, set<Key>>)
    requires s.workList - {x} <= t.workList && Process(g, s, x).Some? && x.key in s.parents
    requires TracedParents(g, q, own, s) && TracedCalls(g, q, own, s)
    ensures TracedCalls(g, q, own, t)
  {
    if !Inline(g, x.key) { OwnCall(g, s, x, q, own); }
  }

  lemma AgainStaysTraced(g: CallGraph, roots: set<Key>, s: State, x: Instance, t: State, own: map<Key, set<Key>>)
    requires Stepped(g, roots, s, x, t) && Done(s.processed, x.key) && Traced(g, roots, s, own)
    ensures Traced(g, roots, t, own) && FirstKeys(t.processed) == FirstKeys(s.processed)
  {
    AgainVisitsNothing(g, roots, s, x, t);
    StepHands(g, roots, s, x, t);
    FirstKeysOneMore(s.processed, x);
    AgainKeepsCalls(g, s, x, t, FirstKeys(s.processed), own);
  }

  // ---- A function processed for the first time ----

  ghost function NewOwn(g: CallGraph, s: State, own: map<Key, set<Key>>, k: Key): map<Key, set<Key>> {
    if Inline(g, k) then own[k := Ancestors(s, k)] else own
  }

  lemma NewOwnIsSame(g: CallGraph, s: State, own: map<Key, set<Key>>, k: Key)
    requires !Done(s.processed, k)
    ensures SameOwn(FirstKeys(s.processed), own, NewOwn(g, s, own, k))
  {
  }

  /** The new function's place on the list yields the ancestors it was processed with. */
  lemma PathOfNew(g: CallGraph, roots: set<Key>, s: State, x: Instance, t: State, own: map<Key, set<Key>>)
    requires Stepped(g, roots, s, x, t) && !Done(s.processed, x.key) && Traced(g, roots, s, own)
    ensures var q := FirstKeys(s.processed);
      Path(g, q + [x.key], NewOwn(g, s, own, x.key), |q|) == Ancestors(s, x.key)
  {
    var q, k := FirstKeys(s.processed), x.key;
    assert k in s.parents;
    if !Inline(g, k) { PathOfOrdinary(g, q, own, k); }
  }

  lemma PathOfOrdinary(g: CallGraph, q: seq<Key>, own: map<Key, set<Key>>, k: Key)
    requires !Inline(g, k)
    ensures Path(g, q + [k], own, |q|) == Inherited(g, q, own, k) + {k}
  {
    NewFirstCaller(g, q, k, k);
    if FirstCaller(g, q, k) < |q| { PathOfLonger(g, q, q + [k], own, own, FirstCaller(g, q, k)); }
  }

  /** A function called for the first time is pending, with the ancestors of its caller. */
  lemma NewCallee(g: CallGraph, roots: set<Key>, s: State, x: Instance, t: State, c: Key)
    requires Stepped(g, roots, s, x, t) && c in g.calls(x.key) && !Inline(g, c) && Instance(c, 0) !in s.visited
    ensures c in t.parents && t.parents[c] == Ancestors(s, x.key) && Instance(c, 0) in t.workList
  {
    AvoidsAncestors(g, s, x);
    TakenIsMidway(g, roots, s, x);
    assert KnownInstance(g, roots, s, x);
    LineageOf(g, s, x.key);
    CallsMakeDue(g, roots, Taken(s, x), Ancestors(s, x.key), x.key, g.calls(x.key), c);
    ProcessKeepsInvariant(g, roots, s, x);
    var y :| y in t.workList && y.key == c;
    assert KnownInstance(g, roots, t, y);
  }

  lemma CalleesVisited(g: CallGraph, roots: set<Key>, s: State, x: Instance, t: State, c: Key)
    requires Stepped(g, roots, s, x, t) && c in g.calls(x.key) && !Inline(g, c)
    ensures Instance(c, 0) in t.visited
  {
    ProcessKeepsInvariant(g, roots, s, x);
    CallsHand(g, Taken(s, x), Ancestors(s, x.key), g.calls(x.key));
    assert x in t.processed;
    DoneCallsVisited(g, roots, t, x.key, c);
  }

  lemma NewFirstCaller(g: CallGraph, q: seq<Key>, k: Key, c: Key)
    ensures FirstCaller(g, q + [k], c) ==
            if FirstCaller(g, q, c) < |q| then FirstCaller(g, q, c) else if c in g.calls(k) then |q| else |q| + 1
  {
    assert (q + [k])[..|q|] == q;
  }

  lemma NewVisits(g: CallGraph, roots: set<Key>, s: State, x: Instance, t: State)
    requires Stepped(g, roots, s, x, t) && TracedVisits(g, FirstKeys(s.processed), s)
    ensures TracedVisits(g, FirstKeys(s.processed) + [x.key], t)
  {
    var q := FirstKeys(s.processed);
    CallsHand(g, Taken(s, x), Ancestors(s, x.key), g.calls(x.key));
    forall c | !Inline(g, c)
      ensures Instance(c, 0) in t.visited <==> FirstCaller(g, q + [x.key], c) < |q| + 1
    {
      NewFirstCaller(g, q, x.key, c);
      if c in g.calls(x.key) { CalleesVisited(g, roots, s, x, t, c); }
    }
  }

  lemma StepHands(g: CallGraph, roots: set<Key>, s: State, x: Instance, t: State)
    requires Stepped(g, roots, s, x, t)
    ensures Handed(g, Taken(s, x), t, Ancestors(s, x.key), g.calls(x.key))
  {
    CallsHand(g, Taken(s, x), Ancestors(s, x.key), g.calls(x.key));
  }

  lemma KeptParent(g: CallGraph, s: State, x: Instance, t: State, q: seq<Key>, own: map<Key, set<Key>>, c: Key)
    requires Handed(g, Taken(s, x), t, Ancestors(s, x.key), g.calls(x.key))
    requires TracedParents(g, q, own, s) && TracedVisits(g, q, s) && c in t.parents && !Inline(g, c)
    requires FirstCaller(g, q, c) < |q| || c !in g.calls(x.key)
    ensures t.parents[c] == Inherited(g, q, own, c)
  {
  }

  /** Functions called before inherit the same, and functions called now what the new one's ancestors are. */
  lemma NewInherited(g: CallGraph, q: seq<Key>, k: Key, own: map<Key, set<Key>>, longer: map<Key, set<Key>>, c: Key)
    requires SameOwn(q, own, longer)
    ensures Inherited(g, q + [k], longer, c) ==
            if FirstCaller(g, q, c) < |q| then Inherited(g, q, own, c)
            else if c in g.calls(k) then Path(g, q + [k], longer, |q|) else {}
  {
    NewFirstCaller(g, q, k, c);
    if FirstCaller(g, q, c) < |q| { InheritedOfLonger(g, q, q + [k], own, longer, c); }
  }

  lemma {:induction false} NewParent(g: CallGraph, roots: set<Key>, s: State, x: Instance, t: State,
                                     own: map<Key, set<Key>>, c: Key)
    requires Stepped(g, roots, s, x, t) && !Done(s.processed, x.key) && Traced(g, roots, s, own)
    requires c in t.parents && !Inline(g, c)
    ensures t.parents[c] == Inherited(g, FirstKeys(s.processed) + [x.key], NewOwn(g, s, own, x.key), c)
  {
    var q, longer := FirstKeys(s.processed), NewOwn(g, s, own, x.key);
    NewOwnIsSame(g, s, own, x.key);
    NewInherited(g, q, x.key, own, longer, c);
    StepHands(g, roots, s, x, t);
    if FirstCaller(g, q, c) < |q| || c !in g.calls(x.key) {
      KeptParent(g, s, x, t, q, own, c);
    } else {
      NewCallee(g, roots, s, x, t, c);
      PathOfNew(g, roots, s, x, t, own);
    }
  }

  lemma {:induction false} KeptCall(g: CallGraph, s: State, x: Instance, t: State, q: seq<Key>, own: map<Key, set<Key>>,
                                    c: Key)
    requires Handed(g, Taken(s, x), t, Ancestors(s, x.key), g.calls(x.key)) && c != x.key
    requires TracedCalls(g, q, own, s) && !Inline(g, c) && FirstCaller(g, q, c) < |q|
    ensures Instance(c, 0) in t.workList || Avoids(g, c, Inherited(g, q, own, c) + {c})
  {
  }

  lemma OwnCall(g: CallGraph, s: State, x: Instance, q: seq<Key>, own: map<Key, set<Key>>)
    requires Process(g, s, x).Some? && x.key in s.parents && !Inline(g, x.key) && TracedParents(g, q, own, s)
    ensures Avoids(g, x.key, Inherited(g, q, own, x.key) + {x.key})
  {
    AvoidsAncestors(g, s, x);
  }

  /** A function called before x was processed. */
  lemma {:induction false} EarlierCall(g: CallGraph, s: State, x: Instance, t: State, q: seq<Key>,
                                       own: map<Key, set<Key>>, longer: map<Key, set<Key>>, c: Key)
    requires Handed(g, Taken(s, x), t, Ancestors(s, x.key), g.calls(x.key)) && Process(g, s, x).Some?
    requires TracedParents(g, q, own, s) && TracedCalls(g, q, own, s) && x.key in s.parents && SameOwn(q, own, longer)
    requires !Inline(g, c) && FirstCaller(g, q, c) < |q|
    ensures Instance(c, 0) in t.workList || Avoids(g, c, Inherited(g, q + [x.key], longer, c) + {c})
  {
    NewInherited(g, q, x.key, own, longer, c);
    if c == x.key { OwnCall(g, s, x, q, own); } else { KeptCall(g, s, x, t, q, own, c); }
  }

  /** A function that x is the first to call. */
  lemma {:induction false} LaterCall(g: CallGraph, roots: set<Key>, s: State, x: Instance, t: State, q: seq<Key>,
                                     c: Key)
    requires Stepped(g, roots, s, x, t) && TracedVisits(g, q, s) && !Inline(g, c)
    requires FirstCaller(g, q, c) == |q| && FirstCaller(g, q + [x.key], c) <= |q|
    ensures Instance(c, 0) in t.workList
  {
    NewFirstCaller(g, q, x.key, c);
    NewCallee(g, roots, s, x, t, c);
  }

  lemma {:induction false} NewCalls(g: CallGraph, roots: set<Key>, s: State, x: Instance, t: State, q: seq<Key>,
                                    own: map<Key, set<Key>>, longer: map<Key, set<Key>>)
    requires Stepped(g, roots, s, x, t) && TracedParents(g, q, own, s) && TracedVisits(g, q, s)
    requires TracedCalls(g, q, own, s) && SameOwn(q, own, longer)
    ensures TracedCalls(g, q + [x.key], longer, t)
  {
    StepHands(g, roots, s, x, t);
    forall c | !Inline(g, c) && FirstCaller(g, q + [x.key], c) < |q + [x.key]|
      ensures Instance(c, 0) in t.workList || Avoids(g, c, Inherited(g, q + [x.key], longer, c) + {c})
    {
      if FirstCaller(g, q, c) < |q| {
        EarlierCall(g, s, x, t, q, own, longer, c);
      } else {
        LaterCall(g, roots, s, x, t, q, c);
      }
    }
  }

  lemma NewIsOwned(g: CallGraph, roots: set<Key>, s: State, x: Instance, t: State, own: map<Key, set<Key>>)
    requires Stepped(g, roots, s, x, t) && !Done(s.processed, x.key) && Inline(g, x.key)
    ensures Owned(g, roots, FirstKeys(s.processed) + [x.key], NewOwn(g, s, own, x.key), |FirstKeys(s.processed)|)
  {
    var q, k := FirstKeys(s.processed), x.key;
    AvoidsAncestors(g, s, x);
    assert Led(g, roots, k, s.parents[k] + {k}, s.processed);
    var chain :| LedTo(g, roots, k, s.parents[k] + {k}, s.processed, chain);
    assert (q + [k])[..|q|] == q;
    assert OwnChain(g, roots, q, k, Ancestors(s, k), chain);
  }

  lemma OwnedOfLonger(g: CallGraph, roots: set<Key>, q: seq<Key>, own: map<Key, set<Key>>, longer: map<Key, set<Key>>,
                      k: Key, n: nat)
    requires n < |q| && Owned(g, roots, q, own, n) && SameOwn(q, own, longer)
    ensures Owned(g, roots, q + [k], longer, n)
  {
    assert (q + [k])[..n] == q[..n] && q[n] in q;
  }

  lemma OneMoreOwned(g: CallGraph, roots: set<Key>, q: seq<Key>, own: map<Key, set<Key>>, longer: map<Key, set<Key>>,
                     k: Key)
    requires TracedOwn(g, roots, q, own) && SameOwn(q, own, longer)
    requires Inline(g, k) ==> Owned(g, roots, q + [k], longer, |q|)
    ensures TracedOwn(g, roots, q + [k], longer)
  {
    forall n | 0 <= n < |q| && Inline(g, q[n])
      ensures Owned(g, roots, q + [k], longer, n)
    {
      OwnedOfLonger(g, roots, q, own, longer, k, n);
    }
  }

  lemma NewKeepsOwn(g: CallGraph, roots: set<Key>, s: State, x: Instance, t: State, own: map<Key, set<Key>>)
    requires Stepped(g, roots, s, x, t) && !Done(s.processed, x.key) && TracedOwn(g, roots, FirstKeys(s.processed), own)
    ensures TracedOwn(g, roots, FirstKeys(s.processed) + [x.key], NewOwn(g, s, own, x.key))
  {
    if Inline(g, x.key) { NewIsOwned(g, roots, s, x, t, own); }
    NewOwnIsSame(g, s, own, x.key);
    OneMoreOwned(g, roots, FirstKeys(s.processed), own, NewOwn(g, s, own, x.key), x.key);
  }

  lemma NewStaysTraced(g: CallGraph, roots: set<Key>, s: State, x: Instance, t: State, own: map<Key, set<Key>>)
    requires Stepped(g, roots, s, x, t) && !Done(s.processed, x.key) && Traced(g, roots, s, own)
    ensures Traced(g, roots, t, NewOwn(g, s, own, x.key))
    ensures FirstKeys(t.processed) == FirstKeys(s.processed) + [x.key]
  {
    var q, longer := FirstKeys(s.processed), NewOwn(g, s, own, x.key);
    var q2 := q + [x.key];
    FirstKeysOneMore(s.processed, x);
    NewOwnIsSame(g, s, own, x.key);
    StepHands(g, roots, s, x, t);
    NewVisits(g, roots, s, x, t);
    assert TracedParents(g, q2, longer, t) by {
      forall c | c in t.parents && !Inline(g, c) { NewParent(g, roots, s, x, t, own, c); }
    }
    NewCalls(g, roots, s, x, t, q, own, longer);
    NewKeepsOwn(g, roots, s, x, t, own);
    NewIsIntroduced(g, roots, s, x);
  }

  lemma NewIsIntroduced(g: CallGraph, roots: set<Key>, s: State, x: Instance)
    requires Invariant(g, roots, s) && Chained(g, roots, s) && x in s.workList && !Done(s.processed, x.key)
    requires Introduced(g, roots, FirstKeys(s.processed))
    ensures Introduced(g, roots, FirstKeys(s.processed) + [x.key])
  {
    PendingIsIntroduced(g, roots, s, x);
    OneMoreIntroduced(g, roots, FirstKeys(s.processed), x.key);
  }

  lemma OneMoreIntroduced(g: CallGraph, roots: set<Key>, q: seq<Key>, k: Key)
    requires Introduced(g, roots, q) && k !in q && k in g.keys && (k in roots || FirstCaller(g, q, k) < |q|)
    ensures Introduced(g, roots, q + [k])
  {
    var q2 := q + [k];
    forall n | 0 <= n < |q2|
      ensures q2[n] in g.keys && (q2[n] in roots || FirstCaller(g, q2, q2[n]) < n)
    {
      NewFirstCaller(g, q, k, q2[n]);
    }
  }

  /** A pending instance is a root or was called. */
  lemma PendingIsIntroduced(g: CallGraph, roots: set<Key>, s: State, x: Instance)
    requires Invariant(g, roots, s) && Chained(g, roots, s) && x in s.workList
    ensures x.key in g.keys
    ensures (x.key in roots || FirstCaller(g, FirstKeys(s.processed), x.key) < |FirstKeys(s.processed)|)
  {
    var q, k := FirstKeys(s.processed), x.key;
    assert KnownInstance(g, roots, s, x);
    assert Led(g, roots, k, s.parents[k] + {k}, s.processed);
    var chain :| LedTo(g, roots, k, s.parents[k] + {k}, s.processed, chain);
    if |chain| > 1 {
      assert chain[|chain| - 2 + 1] in g.calls(chain[|chain| - 2]);
      var i :| 0 <= i < |q| && q[i] == chain[|chain| - 2];
    }
  }

  ghost predicate Listed(g: CallGraph, roots: set<Key>, s: State) { exists own :: Traced(g, roots, s, own) }

  /** Every step of a run keeps the list. */
  lemma ProcessKeepsListed(g: CallGraph, roots: set<Key>, s: State, x: Instance, t: State)
    requires Stepped(g, roots, s, x, t) && Listed(g, roots, s)
    ensures Listed(g, roots, t)
  {
    var own :| Traced(g, roots, s, own);
    if Done(s.processed, x.key) {
      AgainStaysTraced(g, roots, s, x, t, own);
    } else {
      NewStaysTraced(g, roots, s, x, t, own);
    }
  }

  lemma InitialListed(g: CallGraph, roots: set<Key>)
    ensures Listed(g, roots, Initial(roots))
  {
    InitialTraced(g, roots, map[]);
  }

  /** A run that ends without an error leaves an orderly list. */
  lemma FinishedIsOrderly(g: CallGraph, roots: set<Key>, s: State)
    requires Invariant(g, roots, s) && Listed(g, roots, s) && s.workList == {}
    ensures CanBeOrderly(g, roots)
  {
    var own :| Traced(g, roots, s, own);
    FinishedIsClosed(g, roots, s);
    assert Orderly(g, roots, FirstKeys(s.processed), own);
  }

  lemma FinishedIsClosed(g: CallGraph, roots: set<Key>, s: State)
    requires Invariant(g, roots, s) && s.workList == {}
    ensures forall r :: r in roots ==> r in FirstKeys(s.processed)
    ensures forall k, c :: k in FirstKeys(s.processed) && c in g.calls(k) ==> c in FirstKeys(s.processed)
  {
    forall r | r in roots
      ensures Done(s.processed, r)
    {
      RootProcessed(g, roots, s, r);
    }
    forall k, c | Done(s.processed, k) && c in g.calls(k)
      ensures Done(s.processed, c)
    {
      var y :| y in s.processed && y.key == k;
      var i :| 0 <= i < |s.processed| && s.processed[i] == y;
      CalleeProcessed(g, roots, s, i, c);
    }
  }

  // ---- Orderly lists are clean ----

  /** A clean chain to the function at position n, within its ancestors. */
  ghost predicate CleanPath(g: CallGraph, roots: set<Key>, q: seq<Key>, own: map<Key, set<Key>>, n: nat,
                            chain: seq<Key>)
    requires n < |q|
  {
    CleanTo(g, roots, q[n], chain) && KeysOf(chain) <= Path(g, q, own, n)
  }

  lemma {:induction false} OrderlyIsClean(g: CallGraph, roots: set<Key>, q: seq<Key>, own: map<Key, set<Key>>, n: nat)
    returns (chain: seq<Key>)
    requires Orderly(g, roots, q, own) && n < |q|
    ensures CleanPath(g, roots, q, own, n, chain)
    decreases n
  {
    var k, i := q[n], FirstCaller(g, q, q[n]);
    if Inline(g, k) {
      assert Owned(g, roots, q, own, n);
      chain :| OwnChain(g, roots, q[..n], k, own[k], chain);
      OwnChainIsClean(g, roots, q[..n], k, own[k], chain);
    } else if i < n {
      var before := OrderlyIsClean(g, roots, q, own, i);
      chain := before + [k];
      CleanGoesOn(g, roots, q[i], before, k, Inherited(g, q, own, k));
    } else {
      chain := [k];
      assert k in {k};
    }
  }

  lemma OwnChainIsClean(g: CallGraph, roots: set<Key>, before: seq<Key>, k: Key, S: set<Key>, chain: seq<Key>)
    requires OwnChain(g, roots, before, k, S, chain) && Avoids(g, k, S)
    ensures CleanTo(g, roots, k, chain)
  {
    forall j | 0 <= j < |chain|
      ensures chain[j] in S
    {
    }
  }

  lemma CleanGoesOn(g: CallGraph, roots: set<Key>, b: Key, before: seq<Key>, k: Key, S: set<Key>)
    requires CleanTo(g, roots, b, before) && k in g.calls(b) && KeysOf(before) <= S && Avoids(g, k, S + {k})
    ensures CleanTo(g, roots, k, before + [k]) && KeysOf(before + [k]) <= S + {k}
  {
    forall j | 0 <= j < |before|
      ensures before[j] !in g.calls(k) && before[j] !in g.calls(before[|before| - 1])
    {
      assert before[j] in KeysOf(before);
    }
  }

  lemma {:induction false} OrderlyCovers(g: CallGraph, roots: set<Key>, q: seq<Key>, own: map<Key, set<Key>>,
                                         chain: seq<Key>)
    requires Orderly(g, roots, q, own) && IsChain(g, chain) && chain[0] in q
    ensures chain[|chain| - 1] in q
    decreases |chain|
  {
    if |chain| > 1 {
      OrderlyCovers(g, roots, q, own, chain[..|chain| - 1]);
      assert chain[|chain| - 2 + 1] in g.calls(chain[|chain| - 2]);
    }
  }

  /** Wherever some reachable function has no clean chain there is no orderly list. */
  lemma OrderlyRulesOut(g: CallGraph, roots: set<Key>)
    requires CanBeOrderly(g, roots)
    ensures !MustRecur(g, roots)
  {
    var q, own :| Orderly(g, roots, q, own);
    forall u | Reachable(g, roots, u)
      ensures CleanlyReachable(g, roots, u)
    {
      if u !in roots {
        var r :| r in roots && LeadsTo(g, r, u);
        var path :| IsChain(g, path) && |path| > 1 && path[0] == r && path[|path| - 1] == u;
        OrderlyCovers(g, roots, q, own, path);
      }
      var n :| 0 <= n < |q| && q[n] == u;
      var chain := OrderlyIsClean(g, roots, q, own, n);
    }
  }
}
