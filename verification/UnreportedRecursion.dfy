/** Programs whose recursion some orders of processing report, none does, or every one does. */
module UnreportedRecursion {
  import opened Wrappers
  import opened CallGraphs
  import opened EnumerationInvariants
  import opened RecursionReports
  import opened PossibleReports
  import opened FirstCallers
  import opened EveryOrderReports
  import opened NeverReported
  import opened FunctionEnumeration

  lemma RunOne(g: CallGraph, s: State, x: Instance, order: seq<Instance>, t: State, final: State)
    requires x in s.workList && Process(g, s, x) == Some(t) && Runs(g, t, order, final)
    ensures Runs(g, s, [x] + order, final)
  {
    assert ([x] + order)[1..] == order;
  }

  lemma OneCallTurn(g: CallGraph, s: State, x: Instance, c: Key, y: Instance, P: set<Key>, t: State)
    requires g.calls(x.key) == [c] && P == Ancestors(s, x.key) && c !in P && y == Callee(g, s, c)
    requires t.processed == s.processed + [x] && t.inlineCounts == Counted(g, s, c).inlineCounts
    requires t.workList == s.workList - {x} + (if y in s.visited then {} else {y})
    requires t.visited == s.visited + {y} && t.parents == if y in s.visited then s.parents else s.parents[c := P]
    ensures Process(g, s, x) == Some(t)
  {
    assert [c][..0] == [];
    var u := Taken(s, x);
    assert Calls(g, u, P, [c]) == Call(g, u, P, c);
    assert Callee(g, u, c) == y;
    if y in s.visited { assert s.visited + {y} == s.visited && s.workList - {x} + {} == s.workList - {x}; }
    var r := Call(g, u, P, c).value;
    assert r.workList == t.workList && r.visited == t.visited && r.parents == t.parents;
  }

  const R := Key(0, 0)
  const N := Key(1, 0)
  const M := Key(2, 0)
  const I := Key(3, 0)

  /** R and M are roots; N calls the inline function I, which calls N; M calls I as well. */
  function CallsOf(k: Key): seq<Key> {
    if k == R || k == I then [N] else if k == N || k == M then [I] else []
  }

  function Example(): CallGraph {
    CallGraph({R, N, M, I}, (f: nat) => f == 3, CallsOf)
  }

  ghost function Step0(): State { State({Instance(R, 0), Instance(M, 0)}, {}, map[R := {}, M := {}], map[], []) }

  ghost function Step1(): State {
    State({Instance(N, 0), Instance(M, 0)}, {Instance(N, 0)}, map[R := {}, M := {}, N := {R}], map[], [Instance(R, 0)])
  }

  ghost function Step2(): State {
    State({Instance(I, 0), Instance(M, 0)}, {Instance(N, 0), Instance(I, 0)},
          map[R := {}, M := {}, N := {R}, I := {R, N}], map[3 := 1],
          [Instance(R, 0), Instance(N, 0)])
  }

  ghost function Step3(): State {
    State({Instance(I, 0), Instance(I, 1)}, {Instance(N, 0), Instance(I, 0), Instance(I, 1)},
          map[R := {}, M := {}, N := {R}, I := {M}], map[3 := 2],
          [Instance(R, 0), Instance(N, 0), Instance(M, 0)])
  }

  ghost function Step4(): State {
    State({Instance(I, 1)}, {Instance(N, 0), Instance(I, 0), Instance(I, 1)}, map[R := {}, M := {}, N := {R}, I := {M}],
          map[3 := 2],
          [Instance(R, 0), Instance(N, 0), Instance(M, 0), Instance(I, 0)])
  }

  ghost function Step5(): State {
    State({}, {Instance(N, 0), Instance(I, 0), Instance(I, 1)}, map[R := {}, M := {}, N := {R}, I := {M}], map[3 := 2],
          [Instance(R, 0), Instance(N, 0), Instance(M, 0), Instance(I, 0), Instance(I, 1)])
  }

  lemma Turn0()
    ensures Process(Example(), Step0(), Instance(R, 0)) == Some(Step1())
  {
    assert Ancestors(Step0(), R) == {R};
    OneCallTurn(Example(), Step0(), Instance(R, 0), N, Instance(N, 0), {R}, Step1());
  }

  lemma Turn1()
    ensures Process(Example(), Step1(), Instance(N, 0)) == Some(Step2())
  {
    assert Ancestors(Step1(), N) == {R, N};
    OneCallTurn(Example(), Step1(), Instance(N, 0), I, Instance(I, 0), {R, N}, Step2());
  }

  /** M overwrites the ancestors of I, which had N among them. */
  lemma Turn2()
    ensures Process(Example(), Step2(), Instance(M, 0)) == Some(Step3())
  {
    assert Ancestors(Step2(), M) == {M};
    OneCallTurn(Example(), Step2(), Instance(M, 0), I, Instance(I, 1), {M}, Step3());
  }

  lemma Turn3()
    ensures Process(Example(), Step3(), Instance(I, 0)) == Some(Step4())
  {
    assert Ancestors(Step3(), I) == {M, I};
    OneCallTurn(Example(), Step3(), Instance(I, 0), N, Instance(N, 0), {M, I}, Step4());
  }

  lemma Turn4()
    ensures Process(Example(), Step4(), Instance(I, 1)) == Some(Step5())
  {
    assert Ancestors(Step4(), I) == {M, I};
    OneCallTurn(Example(), Step4(), Instance(I, 1), N, Instance(N, 0), {M, I}, Step5());
  }

  /** N calls I, which calls N, both reachable, and yet the enumeration finishes without an error. */
  lemma CycleThroughInlineGoesUnreported()
    ensures Closed(Example()) && ValidRoots(Example(), {R, M})
    ensures Reachable(Example(), {R, M}, N) && LeadsTo(Example(), N, N)
    ensures FinishesWithoutError(Example(), {R, M})
  {
    var g := Example();
    CallLeads(g, R, N);
    CallLeads(g, N, I);
    LeadsThrough(g, N, I, N);
    InitialIsStep0();
    TurnsRun();
  }

  lemma InitialIsStep0()
    ensures Initial({R, M}) == Step0()
  {
    assert Initial({R, M}).workList == Step0().workList;
    assert Initial({R, M}).parents == Step0().parents;
  }

  lemma TurnsRun()
    ensures Runs(Example(), Step0(), [Instance(R, 0), Instance(N, 0), Instance(M, 0), Instance(I, 0), Instance(I, 1)],
                 Step5())
  {
    var g := Example();
    var o4 := [Instance(I, 1)];
    var o3 := [Instance(I, 0)] + o4;
    var o2 := [Instance(M, 0)] + o3;
    var o1 := [Instance(N, 0)] + o2;
    Turn4();
    RunOne(g, Step4(), Instance(I, 1), [], Step5(), Step5());
    assert [Instance(I, 1)] + [] == o4;
    Turn3();
    RunOne(g, Step3(), Instance(I, 0), o4, Step4(), Step5());
    Turn2();
    RunOne(g, Step2(), Instance(M, 0), o3, Step3(), Step5());
    Turn1();
    RunOne(g, Step1(), Instance(N, 0), o2, Step2(), Step5());
    Turn0();
    RunOne(g, Step0(), Instance(R, 0), o1, Step1(), Step5());
    assert [Instance(R, 0)] + o1 == [Instance(R, 0), Instance(N, 0), Instance(M, 0), Instance(I, 0), Instance(I, 1)];
  }

  /** Taking I right after N, before M overwrites its ancestors, reports the same recursion: the order decides. */
  lemma OrderDecides()
    ensures CanFail(Example(), {R, M}) && FinishesWithoutError(Example(), {R, M})
  {
    var g, x := Example(), Instance(I, 0);
    CycleThroughInlineGoesUnreported();
    InitialIsStep0();
    Turn0();
    Turn1();
    RunOne(g, Step1(), Instance(N, 0), [], Step2(), Step2());
    RunOne(g, Step0(), Instance(R, 0), [Instance(N, 0)] + [], Step1(), Step2());
    assert N in Ancestors(Step2(), I) && N in g.calls(I);
    CallsAvoidAncestors(g, Taken(Step2(), x), Ancestors(Step2(), I), g.calls(I));
  }

  // ---- Recursion no order reports ----

  /** R calls the ordinary functions N and M, which call each other. */
  function MutualCalls(k: Key): seq<Key> {
    if k == R then [N, M] else if k == N then [M] else if k == M then [N] else []
  }

  function Mutual(): CallGraph { CallGraph({R, N, M}, (f: nat) => false, MutualCalls) }

  /** Nobody calls R. */
  lemma NobodyLeadsToRoot(k: Key)
    ensures !LeadsTo(Mutual(), k, R)
  {
    forall chain | IsChain(Mutual(), chain) && |chain| > 1
      ensures chain[|chain| - 1] != R
    {
      assert chain[|chain| - 2 + 1] in MutualCalls(chain[|chain| - 2]);
    }
  }

  /** Both are called before either is processed, so neither becomes an ancestor of the other, whatever the order. */
  lemma MutualCallsAreNeverReported()
    ensures Closed(Mutual()) && ValidRoots(Mutual(), {R})
    ensures Reachable(Mutual(), {R}, N) && LeadsTo(Mutual(), N, N)
    ensures !CanFail(Mutual(), {R})
  {
    var g := Mutual();
    CallLeads(g, R, N);
    CallLeads(g, N, M);
    LeadsThrough(g, N, M, N);
    forall u, v | RecursiveCall(g, u, v)
      ensures u != v && CalledByEveryRoot(g, {R}, u) && CalledByEveryRoot(g, {R}, v)
    {
      NobodyLeadsToRoot(v);
    }
    CallsBetweenThemAreNeverReported(g, {R});
  }

  /** With a second root Q that calls N only, the same two functions can be reported. */
  const Q := Key(4, 0)

  function TwoRootCalls(k: Key): seq<Key> { if k == Q then [N] else MutualCalls(k) }

  function TwoRoots(): CallGraph { CallGraph({R, N, M, Q}, (f: nat) => false, TwoRootCalls) }

  lemma OneRootIsNotEnough()
    ensures Closed(TwoRoots()) && ValidRoots(TwoRoots(), {R, Q})
    ensures N in TwoRoots().calls(R) && M in TwoRoots().calls(R) && CanFail(TwoRoots(), {R, Q})
  {
    var g, chain := TwoRoots(), [Q, N, M];
    assert Straight(g, {R, Q}, chain);
    assert chain[1] in g.calls(chain[2]);
    assert TurnsBack(g, {R, Q}, chain);
    ReportedExactlyIfTurningBack(g, {R, Q});
  }

  // ---- Recursion every order reports ----

  const A := Key(5, 0)
  const B := Key(6, 0)
  const C := Key(7, 0)
  const D := Key(8, 0)

  /** A and B both call C and D; C calls back to A, and D to B. */
  function CrossedCalls(k: Key): seq<Key> {
    if k == R then [A, B] else if k == A || k == B then [C, D] else if k == C then [A] else if k == D then [B] else []
  }

  function Crossed(): CallGraph { CallGraph({R, A, B, C, D}, (f: nat) => false, CrossedCalls) }

  /** Whichever of A and B comes first is an ancestor of both C and D. */
  lemma FirstIsAncestor(q: seq<Key>, own: map<Key, set<Key>>, c: Key)
    requires (c == C || c == D) && FirstCaller(Crossed(), q, c) < |q|
    ensures var k := q[FirstCaller(Crossed(), q, c)];
      (k == A || k == B) && k in Inherited(Crossed(), q, own, c)
  {
  }

  lemma DoesNotAvoid(g: CallGraph, c: Key, k: Key, S: set<Key>)
    requires k in g.calls(c) && k in S
    ensures !Avoids(g, c, S + {c})
  {
  }

  lemma {:induction false} OneCallsBack(q: seq<Key>, own: map<Key, set<Key>>)
    requires FirstCaller(Crossed(), q, C) < |q|
    ensures !Avoids(Crossed(), C, Inherited(Crossed(), q, own, C) + {C}) ||
            !Avoids(Crossed(), D, Inherited(Crossed(), q, own, D) + {D})
  {
    SameFirstCaller(q);
    FirstIsAncestor(q, own, C);
    FirstIsAncestor(q, own, D);
    if q[FirstCaller(Crossed(), q, C)] == A {
      DoesNotAvoid(Crossed(), C, A, Inherited(Crossed(), q, own, C));
    } else {
      DoesNotAvoid(Crossed(), D, B, Inherited(Crossed(), q, own, D));
    }
  }

  lemma {:induction false} CrossedIsNotOrderly(q: seq<Key>, own: map<Key, set<Key>>)
    ensures !Orderly(Crossed(), {R}, q, own)
  {
    var i := FirstCaller(Crossed(), q, C);
    if i < |q| {
      OneCallsBack(q, own);
      assert q[i] == A || q[i] == B;
      assert C in CrossedCalls(q[i]) && D in CrossedCalls(q[i]) && q[i] in q;
    } else {
      UncalledIsNotListed(q);
      assert A in Crossed().calls(R);
    }
  }

  lemma UncalledIsNotListed(q: seq<Key>)
    requires FirstCaller(Crossed(), q, C) == |q|
    ensures A !in q
  {
    assert C in CrossedCalls(A);
  }

  lemma SameFirstCaller(q: seq<Key>)
    ensures FirstCaller(Crossed(), q, C) == FirstCaller(Crossed(), q, D)
  {
  }

  /** No condition on chains shows it: every function has a clean chain, none calls one that all chains to it pass
      through, and nothing is inline. Yet every order reports it. */
  lemma FirstComeIsReported()
    ensures Closed(Crossed()) && ValidRoots(Crossed(), {R})
    ensures !MustRecur(Crossed(), {R}) && !CallsBack(Crossed(), {R}) && !ReachableInlineCycle(Crossed(), {R})
    ensures AlwaysReported(Crossed(), {R}) && !FinishesWithoutError(Crossed(), {R})
  {
    var g := Crossed();
    forall q, own
      ensures !Orderly(g, {R}, q, own)
    {
      CrossedIsNotOrderly(q, own);
    }
    EveryOrderReportsExactly(g, {R});
    AlwaysReportedExactly(g, {R});
    CrossedChains();
    CrossedIsNotInline();
  }

  lemma CrossedIsNotInline()
    ensures !ReachableInlineCycle(Crossed(), {R})
  {
    forall S
      ensures !InlineCycle(Crossed(), S)
    {
      if k :| k in S { assert !StaysInline(Crossed(), S, k); }
    }
  }

  lemma CrossedChains()
    ensures !MustRecur(Crossed(), {R}) && !CallsBack(Crossed(), {R})
  {
    forall u | u in Crossed().keys
      ensures CleanlyReachable(Crossed(), {R}, u)
    {
      assert CrossedCalls(u) != [];
      CrossedIsClean(u, CrossedCalls(u)[0]);
    }
    forall u, v | u in Crossed().keys && v in Crossed().calls(u)
      ensures !OnEveryChain(Crossed(), {R}, v, u)
    {
      CrossedIsClean(u, v);
    }
  }

  lemma CrossedIsClean(u: Key, v: Key)
    requires u in Crossed().keys && v in Crossed().calls(u)
    ensures CleanlyReachable(Crossed(), {R}, u) && !OnEveryChain(Crossed(), {R}, v, u)
  {
    var chain := if u == C then [R, B, C] else if u == D then [R, A, D] else if u == R then [R] else [R, u];
    assert CleanTo(Crossed(), {R}, u, chain);
    assert v !in chain;
  }
}
