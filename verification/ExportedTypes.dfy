/** Ordering the exported types so that each comes after the types it is made of. */
module ExportedTypes {
  type Type = nat

  /** mentions(t) are the types t contains, however deeply, without going through references. */
  datatype TypeInfo = TypeInfo(mentions: Type -> set<Type>, isClass: Type -> bool, shouldExport: Type -> bool)

  /** t waits for u: t is no class and mentions u, which is another type to export and no class either. */
  ghost predicate Waits(p: TypeInfo, t: Type, u: Type) {
    !p.isClass(t) && u in p.mentions(t) && u != t && p.shouldExport(u) && !p.isClass(u)
  }

  /** Everything waited for comes earlier. */
  ghost predicate InOrder(p: TypeInfo, s: seq<Type>) {
    forall i, u :: 0 <= i < |s| && Waits(p, s[i], u) ==> u in s[..i]
  }

  ghost predicate WaitsForNone(p: TypeInfo, t: Type, S: set<Type>) {
    forall u :: u in S ==> !Waits(p, t, u)
  }

  /** Some member of S waits for no member of S. */
  ghost predicate HasFirst(p: TypeInfo, S: set<Type>) {
    exists t {:trigger WaitsForNone(p, t, S)} :: t in S && WaitsForNone(p, t, S)
  }

  /** Nothing outside is waited for, and there is no circle: every non-empty subset has a member that waits for none
      of the others. */
  ghost predicate Orderable(p: TypeInfo, all: set<Type>) {
    && (forall t, u :: t in all && Waits(p, t, u) ==> u in all)
    && forall S: set<Type> :: S != {} && S <= all ==> HasFirst(p, S)
  }

  /** The types that have to come before t. */
  function Needs(p: TypeInfo, t: Type): (needed: set<Type>)
    ensures forall u :: u in needed <==> Waits(p, t, u)
  {
    if p.isClass(t) then {} else set u | u in p.mentions(t) && u != t && p.shouldExport(u) && !p.isClass(u)
  }

  function SetOf(s: seq<Type>): set<Type> { set t | t in s }

  // ---- Passes ----

  datatype Progress = Progress(remaining: seq<Type>, exported: seq<Type>)

  /** Visits the list from front to back, moving what can be moved. */
  function Visit(p: TypeInfo, list: seq<Type>, exported: seq<Type>): Progress {
    if list == [] then Progress([], exported)
    else
      var q, t := Visit(p, list[..|list| - 1], exported), list[|list| - 1];
      if Needs(p, t) <= SetOf(q.exported) then Progress(q.remaining, q.exported + [t])
      else Progress(q.remaining + [t], q.exported)
  }

  function Passes(p: TypeInfo, types: seq<Type>, n: nat): Progress {
    if n == 0 then Progress(types, [])
    else
      var q := Passes(p, types, n - 1);
      Visit(p, q.remaining, q.exported)
  }

  lemma Appended(p: TypeInfo, s: seq<Type>, t: Type)
    requires InOrder(p, s) && Needs(p, t) <= SetOf(s)
    ensures InOrder(p, s + [t])
  {
    forall i, u | 0 <= i < |s + [t]| && Waits(p, (s + [t])[i], u)
      ensures u in (s + [t])[..i]
    {
      assert (s + [t])[..i] == s[..i];
      if i == |s| { assert s[..i] == s; }
    }
  }

  /** A pass keeps the order and loses nothing; what it leaves behind was not ready when it began. */
  lemma {:induction false} VisitMoves(p: TypeInfo, list: seq<Type>, exported: seq<Type>)
    requires InOrder(p, exported)
    ensures var q := Visit(p, list, exported);
            && InOrder(p, q.exported) && exported <= q.exported
            && multiset(q.exported + q.remaining) == multiset(exported + list)
            && |q.remaining| <= |list|
            && (|q.remaining| == |list| ==> forall t :: t in list ==> !(Needs(p, t) <= SetOf(exported)))
    decreases |list|
  {
    if list == [] {
      assert exported + [] == exported;
    } else {
      var init, t := list[..|list| - 1], list[|list| - 1];
      VisitMoves(p, init, exported);
      var q := Visit(p, init, exported);
      assert list == init + [t];
      SameMembers(q.exported, q.remaining, exported, init, t);
      if Needs(p, t) <= SetOf(q.exported) {
        Appended(p, q.exported, t);
      } else {
        assert SetOf(exported) <= SetOf(q.exported);
      }
    }
  }

  lemma SameMembers(a: seq<Type>, b: seq<Type>, c: seq<Type>, d: seq<Type>, t: Type)
    requires multiset(a + b) == multiset(c + d)
    ensures multiset((a + [t]) + b) == multiset(c + (d + [t])) == multiset(a + (b + [t]))
  {
    assert c + (d + [t]) == (c + d) + [t] && a + (b + [t]) == (a + b) + [t];
  }

  lemma ReadyIfFirst(p: TypeInfo, all: set<Type>, remaining: set<Type>, exported: set<Type>, t: Type)
    requires exported + remaining == all && t in remaining && WaitsForNone(p, t, remaining)
    requires forall u :: Waits(p, t, u) ==> u in all
    ensures Needs(p, t) <= exported
  {
  }

  /** As long as something orderable remains, something is ready. */
  lemma SomethingIsReady(p: TypeInfo, all: set<Type>, remaining: seq<Type>, exported: seq<Type>)
    requires Orderable(p, all) && SetOf(exported) + SetOf(remaining) == all && remaining != []
    ensures exists t :: t in remaining && Needs(p, t) <= SetOf(exported)
  {
    assert remaining[0] in SetOf(remaining);
    assert HasFirst(p, SetOf(remaining));
    var t :| t in SetOf(remaining) && WaitsForNone(p, t, SetOf(remaining));
    ReadyIfFirst(p, all, SetOf(remaining), SetOf(exported), t);
    assert t in remaining;
  }

  lemma SameSet(a: seq<Type>, b: seq<Type>, c: seq<Type>)
    requires multiset(a + b) == multiset(c)
    ensures SetOf(a) + SetOf(b) == SetOf(c)
  {
    forall t
      ensures t in a || t in b <==> t in c
    {
      assert t in c <==> t in multiset(c);
      assert t in a + b <==> t in multiset(a + b);
    }
  }

  /** An order shows that there is no circle. */
  lemma OrderMeansOrderable(p: TypeInfo, s: seq<Type>)
    requires InOrder(p, s)
    ensures Orderable(p, SetOf(s))
  {
    forall t, u | t in SetOf(s) && Waits(p, t, u)
      ensures u in SetOf(s)
    {
      var i :| 0 <= i < |s| && s[i] == t;
      assert u in s[..i];
    }
    forall S: set<Type> | S != {} && S <= SetOf(s)
      ensures HasFirst(p, S)
    {
      var t :| t in S;
      var k :| 0 <= k < |s| && s[k] == t;
      var i := FirstIn(s, S, k);
      forall u | Waits(p, s[i], u)
        ensures u !in S
      {
        var j :| 0 <= j < i && s[j] == u;
      }
      assert WaitsForNone(p, s[i], S);
    }
  }

  lemma {:induction false} FirstIn(s: seq<Type>, S: set<Type>, k: nat) returns (i: nat)
    requires k < |s| && s[k] in S
    ensures i <= k && s[i] in S && forall j :: 0 <= j < i ==> s[j] !in S
  {
    if j: nat :| j < k && s[j] in S {
      i := FirstIn(s, S, j);
    } else {
      i := k;
    }
  }

  lemma {:induction false} PassesKeepOrder(p: TypeInfo, types: seq<Type>, n: nat)
    ensures InOrder(p, Passes(p, types, n).exported)
    ensures multiset(Passes(p, types, n).exported + Passes(p, types, n).remaining) == multiset(types)
  {
    if n == 0 {
      assert [] + types == types;
    } else {
      PassesKeepOrder(p, types, n - 1);
      var q := Passes(p, types, n - 1);
      VisitMoves(p, q.remaining, q.exported);
    }
  }

  lemma {:induction false} PassesShorten(p: TypeInfo, types: seq<Type>, n: nat)
    requires Orderable(p, SetOf(types)) && n <= |types|
    ensures |Passes(p, types, n).remaining| <= |types| - n
  {
    if n > 0 {
      PassesShorten(p, types, n - 1);
      PassesKeepOrder(p, types, n - 1);
      var q := Passes(p, types, n - 1);
      VisitMoves(p, q.remaining, q.exported);
      if q.remaining != [] {
        SameSet(q.exported, q.remaining, types);
        SomethingIsReady(p, SetOf(types), q.remaining, q.exported);
      }
    }
  }

  /** The passes come to an end exactly when the types can be ordered. */
  lemma EndsExactlyIfOrderable(p: TypeInfo, types: seq<Type>)
    ensures (exists n: nat :: Passes(p, types, n).remaining == []) <==> Orderable(p, SetOf(types))
  {
    if n: nat :| Passes(p, types, n).remaining == [] {
      var q := Passes(p, types, n);
      PassesKeepOrder(p, types, n);
      OrderMeansOrderable(p, q.exported);
      SameSet(q.exported, [], types);
      assert SetOf(q.exported) + SetOf([]) == SetOf(q.exported);
    }
    if Orderable(p, SetOf(types)) {
      PassesShorten(p, types, |types|);
      assert Passes(p, types, |types|).remaining == [];
    }
  }

  // ---- When each type comes out ----

  /** order[k] is the index of the type that came out as number k, and passes[k] the pass in which it did. */
  datatype Trace = Trace(order: seq<nat>, passes: seq<nat>)

  /** The turn of index i in pass n comes before that of index j in pass m. */
  ghost predicate Before(n: nat, i: nat, m: nat, j: nat) { n < m || (n == m && i < j) }

  /** u has come out before the turn of index i in pass n. */
  ghost predicate OutBefore(types: seq<Type>, tr: Trace, u: Type, n: nat, i: nat) {
    exists l ::
      && 0 <= l < |tr.order| && l < |tr.passes| && tr.order[l] < |types| && types[tr.order[l]] == u
      && Before(tr.passes[l], tr.order[l], n, i)
  }

  /** In pass n the type at index i still waits for one. */
  ghost predicate StillWaits(p: TypeInfo, types: seq<Type>, tr: Trace, n: nat, i: nat) {
    i < |types| && exists u :: Waits(p, types[i], u) && !OutBefore(types, tr, u, n, i)
  }

  /** The types came out pass by pass and within a pass in the order of the list, none twice, and none could have come
      out in the pass before. */
  ghost predicate IsTrace(p: TypeInfo, types: seq<Type>, exported: seq<Type>, tr: Trace) {
    && |tr.order| == |tr.passes| == |exported|
    && (forall k :: 0 <= k < |exported| ==> tr.order[k] < |types| && exported[k] == types[tr.order[k]])
    && (forall k, l :: 0 <= k < l < |exported| ==>
          tr.order[k] != tr.order[l] && Before(tr.passes[k], tr.order[k], tr.passes[l], tr.order[l]))
    && (forall k :: 0 <= k < |exported| && tr.passes[k] > 0 ==>
          StillWaits(p, types, tr, tr.passes[k] - 1, tr.order[k]))
  }

  ghost predicate Increasing(s: seq<nat>) { forall j, k :: 0 <= j < k < |s| ==> s[j] < s[k] }

  /** In pass n, `left` was left behind and it is the turn of `rest`. */
  ghost predicate InPass(p: TypeInfo, types: seq<Type>, exported: seq<Type>, tr: Trace, n: nat, left: seq<nat>,
                         rest: seq<nat>)
  {
    && IsTrace(p, types, exported, tr) && Increasing(left + rest)
    && (forall k :: 0 <= k < |exported| ==> tr.passes[k] <= n)
    && (forall k, x :: 0 <= k < |exported| && x in rest && tr.passes[k] == n ==> tr.order[k] < x)
    && (forall k :: 0 <= k < |exported| ==> tr.order[k] !in left && tr.order[k] !in rest)
    && (forall x :: x in left ==> StillWaits(p, types, tr, n, x))
    && (forall x :: x in rest ==> x < |types| && (n > 0 ==> StillWaits(p, types, tr, n - 1, x)))
  }

  ghost function OneMore(tr: Trace, n: nat, i: nat): Trace { Trace(tr.order + [i], tr.passes + [n]) }

  /** What comes out later changes nothing about earlier turns. */
  lemma StillWaitsThen(p: TypeInfo, types: seq<Type>, tr: Trace, n: nat, i: nat, m: nat, j: nat)
    requires StillWaits(p, types, tr, n, i) && |tr.order| == |tr.passes| && !Before(m, j, n, i)
    ensures StillWaits(p, types, OneMore(tr, m, j), n, i)
  {
    var u :| Waits(p, types[i], u) && !OutBefore(types, tr, u, n, i);
    var more := OneMore(tr, m, j);
    forall l | 0 <= l < |more.order| && Before(more.passes[l], more.order[l], n, i) && more.order[l] < |types|
      ensures types[more.order[l]] != u
    {
      assert l < |tr.order|;
      assert more.passes[l] == tr.passes[l] && more.order[l] == tr.order[l];
    }
    assert !OutBefore(types, more, u, n, i);
  }

  lemma TraceGrows(p: TypeInfo, types: seq<Type>, exported: seq<Type>, tr: Trace, n: nat, i: nat)
    requires IsTrace(p, types, exported, tr) && i < |types| && (n > 0 ==> StillWaits(p, types, tr, n - 1, i))
    requires forall k :: 0 <= k < |exported| ==> tr.order[k] != i && Before(tr.passes[k], tr.order[k], n, i)
    ensures IsTrace(p, types, exported + [types[i]], OneMore(tr, n, i))
  {
    var more := OneMore(tr, n, i);
    forall k | 0 <= k <= |exported| && more.passes[k] > 0
      ensures StillWaits(p, types, more, more.passes[k] - 1, more.order[k])
    {
      assert k < |exported| ==> more.passes[k] == tr.passes[k] && more.order[k] == tr.order[k];
      StillWaitsThen(p, types, tr, more.passes[k] - 1, more.order[k], n, i);
    }
  }

  lemma FirstOfRest(left: seq<nat>, x: nat, rest: seq<nat>)
    requires Increasing(left + ([x] + rest))
    ensures Increasing(left + rest) && Increasing((left + [x]) + rest)
    ensures (forall y :: y in left ==> y < x) && (forall y :: y in rest ==> x < y)
  {
    var all := left + ([x] + rest);
    assert (left + [x]) + rest == all;
    assert all[|left|] == x;
    forall y | y in left
      ensures y < x
    {
      var k :| 0 <= k < |left| && left[k] == y;
      assert all[k] == y;
    }
    forall y | y in rest
      ensures x < y
    {
      var k :| 0 <= k < |rest| && rest[k] == y;
      assert all[|left| + 1 + k] == y;
    }
    var fewer := left + rest;
    forall j, k | 0 <= j < k < |fewer|
      ensures fewer[j] < fewer[k]
    {
      assert fewer[j] == all[if j < |left| then j else j + 1] && fewer[k] == all[if k < |left| then k else k + 1];
    }
  }

  lemma PassMoves(p: TypeInfo, types: seq<Type>, exported: seq<Type>, tr: Trace, n: nat, left: seq<nat>, x: nat,
                  rest: seq<nat>)
    requires x < |types| && InPass(p, types, exported, tr, n, left, [x] + rest)
    ensures InPass(p, types, exported + [types[x]], OneMore(tr, n, x), n, left, rest)
  {
    FirstOfRest(left, x, rest);
    assert x in [x] + rest && forall y :: y in rest ==> y in [x] + rest;
    TraceGrows(p, types, exported, tr, n, x);
    forall y | y in left
      ensures StillWaits(p, types, OneMore(tr, n, x), n, y)
    {
      StillWaitsThen(p, types, tr, n, y, n, x);
    }
    forall y | y in rest && n > 0
      ensures StillWaits(p, types, OneMore(tr, n, x), n - 1, y)
    {
      StillWaitsThen(p, types, tr, n - 1, y, n, x);
    }
  }

  lemma PassLeaves(p: TypeInfo, types: seq<Type>, exported: seq<Type>, tr: Trace, n: nat, left: seq<nat>, x: nat,
                   rest: seq<nat>)
    requires x < |types| && InPass(p, types, exported, tr, n, left, [x] + rest)
    requires !(Needs(p, types[x]) <= SetOf(exported))
    ensures InPass(p, types, exported, tr, n, left + [x], rest)
  {
    FirstOfRest(left, x, rest);
    assert x in [x] + rest && forall y :: y in rest ==> y in [x] + rest;
    var u :| u in Needs(p, types[x]) && u !in SetOf(exported);
    forall l | 0 <= l < |tr.order|
      ensures types[tr.order[l]] != u
    {
      assert exported[l] in exported;
    }
    assert !OutBefore(types, tr, u, n, x);
    assert StillWaits(p, types, tr, n, x);
  }

  lemma NextPass(p: TypeInfo, types: seq<Type>, exported: seq<Type>, tr: Trace, n: nat, left: seq<nat>)
    requires InPass(p, types, exported, tr, n, left, [])
    ensures InPass(p, types, exported, tr, n + 1, [], left)
  {
    assert left + [] == left == [] + left;
  }

  // ---- The program ----

  /** The list holds the types at the given places. */
  ghost predicate AreAt(types: seq<Type>, places: seq<nat>, list: seq<Type>) {
    |list| == |places| && forall k :: 0 <= k < |list| ==> places[k] < |types| && list[k] == types[places[k]]
  }

  ghost function Places(n: nat): (r: seq<nat>)
    ensures |r| == n && forall k :: 0 <= k < n ==> r[k] == k
  {
    seq(n, k requires 0 <= k < n => k)
  }

  /** One pass; added is what exported holds. */
  method Pass(p: TypeInfo, remaining: seq<Type>, exported: seq<Type>, added: set<Type>, ghost types: seq<Type>,
              ghost tr: Trace, ghost n: nat, ghost places: seq<nat>)
    returns (left: seq<Type>, exported': seq<Type>, added': set<Type>, ghost tr': Trace, ghost places': seq<nat>)
    requires added == SetOf(exported) && InPass(p, types, exported, tr, n, [], places)
    requires AreAt(types, places, remaining)
    ensures Progress(left, exported') == Visit(p, remaining, exported) && added' == SetOf(exported')
    ensures InPass(p, types, exported', tr', n, places', []) && AreAt(types, places', left)
  {
    left, exported', added' := [], exported, added;
    tr', places' := tr, [];
    ghost var rest := places;
    var i := 0;
    while i < |remaining|
      invariant 0 <= i <= |remaining| && rest == places[i..]
      invariant Progress(left, exported') == Visit(p, remaining[..i], exported) && added' == SetOf(exported')
      invariant InPass(p, types, exported', tr', n, places', rest) && AreAt(types, places', left)
    {
      var candidate := remaining[i];
      assert remaining[..i + 1][..i] == remaining[..i];
      assert rest == [places[i]] + places[i + 1..];
      if Needs(p, candidate) <= added' {
        PassMoves(p, types, exported', tr', n, places', places[i], places[i + 1..]);
        tr' := OneMore(tr', n, places[i]);
        exported' := exported' + [candidate];
        added' := added' + {candidate};
      } else {
        PassLeaves(p, types, exported', tr', n, places', places[i], places[i + 1..]);
        places' := places' + [places[i]];
        left := left + [candidate];
      }
      rest := places[i + 1..];
      i := i + 1;
    }
    assert remaining[..i] == remaining;
  }

  /** A pass over what remains of orderable types moves something. */
  lemma PassMovesSome(p: TypeInfo, types: seq<Type>, n: nat)
    requires Orderable(p, SetOf(types)) && Passes(p, types, n).remaining != []
    ensures |Passes(p, types, n + 1).remaining| < |Passes(p, types, n).remaining|
  {
    var q := Passes(p, types, n);
    PassesKeepOrder(p, types, n);
    VisitMoves(p, q.remaining, q.exported);
    SameSet(q.exported, q.remaining, types);
    SomethingIsReady(p, SetOf(types), q.remaining, q.exported);
  }

  lemma AllAreOut(p: TypeInfo, types: seq<Type>, n: nat)
    requires Passes(p, types, n).remaining == []
    ensures multiset(Passes(p, types, n).exported) == multiset(types) && InOrder(p, Passes(p, types, n).exported)
  {
    PassesKeepOrder(p, types, n);
    assert Passes(p, types, n).exported + [] == Passes(p, types, n).exported;
  }

  lemma FirstPassStarts(p: TypeInfo, types: seq<Type>)
    ensures InPass(p, types, [], Trace([], []), 0, [], Places(|types|)) && AreAt(types, Places(|types|), types)
  {
    assert [] + Places(|types|) == Places(|types|);
  }

  /** A class comes out in the first pass. */
  lemma ClassesWaitForNobody(p: TypeInfo, types: seq<Type>, exported: seq<Type>, tr: Trace, k: nat)
    requires IsTrace(p, types, exported, tr) && k < |exported| && p.isClass(exported[k])
    ensures tr.passes[k] == 0
  {
  }

  /** Orderable types are all exported, each after everything it waits for, and each as early as the passes allow. */
  method SortExportedTypes(p: TypeInfo, types: seq<Type>) returns (exported: seq<Type>, ghost tr: Trace)
    requires Orderable(p, SetOf(types))
    ensures multiset(exported) == multiset(types) && InOrder(p, exported)
    ensures forall i, u :: 0 <= i < |exported| && u in p.mentions(exported[i]) ==>
              p.isClass(exported[i]) || u == exported[i] || !p.shouldExport(u) || p.isClass(u) || u in exported[..i]
    ensures IsTrace(p, types, exported, tr)
  {
    var remaining := types;
    var added: set<Type> := {};
    exported := [];
    ghost var n: nat := 0;
    ghost var places := Places(|types|);
    tr := Trace([], []);
    FirstPassStarts(p, types);
    while remaining != []
      invariant Progress(remaining, exported) == Passes(p, types, n) && added == SetOf(exported)
      invariant InPass(p, types, exported, tr, n, [], places) && AreAt(types, places, remaining)
      decreases |remaining|
    {
      PassMovesSome(p, types, n);
      remaining, exported, added, tr, places := Pass(p, remaining, exported, added, types, tr, n, places);
      NextPass(p, types, exported, tr, n, places);
      n := n + 1;
    }
    AllAreOut(p, types, n);
    assert forall i, u :: 0 <= i < |exported| && Waits(p, exported[i], u) ==> u in exported[..i];
  }
}
