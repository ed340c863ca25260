/** What an object tracks, and how many selects a conditional is left with, in terms of the program. */
module IfConversionTracks {
  import opened Ir
  import opened LocalUpdatesSpec
  import opened LocalUpdatesEffect
  import opened LocalUpdatesFrame
  import opened IfConversion
  import opened IfConversionFrame
  import opened IfConversionComplete

  // ---- What the program assigns ----

  /** Somewhere in p, however deep, r is assigned. */
  ghost predicate Assigns(p: Program, r: Reg) {
    match p
    case Skip => false
    case Then(first, rest) => AssignsStmt(first, r) || Assigns(rest, r)
  }

  ghost predicate AssignsStmt(st: Stmt, r: Reg) {
    match st
    case Assign(dst, _, _) => dst == r
    case Load(dst, _) => dst == r
    case Cond(cases, _) => exists k :: 0 <= k < CaseCount(cases) && CaseAssigns(cases, k, r)
    case _ => false
  }

  /** Case number k assigns r. */
  ghost predicate CaseAssigns(cases: CaseList, k: nat, r: Reg) {
    match cases
    case NoMore => false
    case Case(_, _, body, others) => if k == 0 then Assigns(body, r) else CaseAssigns(others, k - 1, r)
  }

  ghost function CaseCount(cases: CaseList): nat {
    match cases
    case NoMore => 0
    case Case(_, _, _, others) => 1 + CaseCount(others)
  }

  /** How many cases assign r. */
  ghost function AssignCount(cases: CaseList, r: Reg): nat {
    match cases
    case NoMore => 0
    case Case(_, _, body, others) => (if Assigns(body, r) then 1 else 0) + AssignCount(others, r)
  }

  ghost predicate SomeAssigns(cases: CaseList, r: Reg) {
    exists k :: 0 <= k < CaseCount(cases) && CaseAssigns(cases, k, r)
  }

  lemma SomeAssignsMore(body: Program, others: CaseList, p: Reg, mode: Mode, r: Reg)
    ensures SomeAssigns(Case(p, mode, body, others), r) <==> Assigns(body, r) || SomeAssigns(others, r)
  {
    var cases := Case(p, mode, body, others);
    if k :| 0 <= k < CaseCount(others) && CaseAssigns(others, k, r) { assert CaseAssigns(cases, k + 1, r); }
    if Assigns(body, r) { assert CaseAssigns(cases, 0, r); }
    if k :| 0 <= k < CaseCount(cases) && CaseAssigns(cases, k, r) {
      if k > 0 { assert CaseAssigns(others, k - 1, r); }
    }
  }

  ghost predicate AllAssign(cases: CaseList, r: Reg) {
    forall k :: 0 <= k < CaseCount(cases) ==> CaseAssigns(cases, k, r)
  }

  lemma AllAssignMore(body: Program, others: CaseList, p: Reg, mode: Mode, r: Reg)
    ensures AllAssign(Case(p, mode, body, others), r) <==> Assigns(body, r) && AllAssign(others, r)
  {
    var cases := Case(p, mode, body, others);
    assert CaseAssigns(cases, 0, r) == Assigns(body, r);
    forall k | 0 <= k < CaseCount(others)
      ensures CaseAssigns(cases, k + 1, r) == CaseAssigns(others, k, r)
    {
    }
    if Assigns(body, r) && AllAssign(others, r) {
      forall k | 0 <= k < CaseCount(cases)
        ensures CaseAssigns(cases, k, r)
      {
        if k > 0 { assert CaseAssigns(others, k - 1, r); }
      }
    }
  }

  lemma {:induction false} CountIsAll(cases: CaseList, r: Reg)
    ensures AssignCount(cases, r) <= CaseCount(cases)
    ensures AssignCount(cases, r) == CaseCount(cases) <==> AllAssign(cases, r)
    ensures AssignCount(cases, r) > 0 <==> SomeAssigns(cases, r)
  {
    match cases
    case NoMore =>
    case Case(p, mode, body, others) =>
      CountIsAll(others, r);
      SomeAssignsMore(body, others, p, mode, r);
      AllAssignMore(body, others, p, mode, r);
  }

  // ---- What the objects track ----

  /** From c to d, within one case, r is written or not. */
  ghost predicate Tracks(c: Clu, d: Clu, r: Reg, writes: bool) {
    && d.depth == c.depth && d.current == c.current
    && (r in d.updated <==> r in c.updated || writes)
    && (forall k :: r in d.updated ==>
          (k in d.updated[r].cases <==> (r in c.updated && k in c.updated[r].cases) || (writes && k == c.current)))
  }

  lemma TracksBoth(a: Clu, b: Clu, c: Clu, r: Reg, first: bool, second: bool)
    requires Tracks(a, b, r, first) && Tracks(b, c, r, second)
    ensures Tracks(a, c, r, first || second)
  {
  }

  /** Object i was created when r was visible already. */
  ghost predicate Watches(env: Env, stack: seq<Clu>, i: nat, r: Reg) {
    i < |stack| && r in env && env[r] < stack[i].depth
  }

  lemma {:induction false} NotifyTracks(stack: seq<Clu>, next: nat, q: Reg, depth: nat, i: nat, r: Reg)
    requires i < |stack|
    ensures |NotifyAll(stack, next, q, depth).0| == |stack|
    ensures Tracks(stack[i], NotifyAll(stack, next, q, depth).0[i], r, q == r && depth < stack[i].depth)
  {
    NotifyLength(stack, next, q, depth);
    var n := |stack| - 1;
    NotifyLength(stack[..n], next, q, depth);
    if i < n { NotifyTracks(stack[..n], next, q, depth, i, r); }
  }

  lemma {:induction false} ProgramTracks(p: Program, env: Env, ctx: Ctx, base: nat, i: nat, r: Reg)
    requires Scoped(p, env, |ctx.stack|, base) && Watches(env, ctx.stack, i, r)
    ensures Tracks(ctx.stack[i], Emit(p, env, ctx).1.stack[i], r, Assigns(p, r))
    decreases p, 0
  {
    match p
    case Skip =>
    case Then(first, rest) =>
      var env2, ctx1 := EnvAfter(first, env, |ctx.stack|), EmitStmt(first, env, ctx).1;
      StmtTracks(first, env, ctx, base, i, r);
      ProgramTracks(rest, env2, ctx1, base, i, r);
      TracksBoth(ctx.stack[i], ctx1.stack[i], Emit(rest, env2, ctx1).1.stack[i], r, AssignsStmt(first, r),
                 Assigns(rest, r));
  }

  lemma {:induction false} StmtTracks(st: Stmt, env: Env, ctx: Ctx, base: nat, i: nat, r: Reg)
    requires ScopedStmt(st, env, |ctx.stack|, base) && Watches(env, ctx.stack, i, r)
    ensures Tracks(ctx.stack[i], EmitStmt(st, env, ctx).1.stack[i], r, AssignsStmt(st, r))
    decreases st, 0
  {
    match st
    case Declare(_, _, _) =>
    case Assign(dst, _, _) => NotifyTracks(ctx.stack, ctx.next, dst, Depth(env, dst), i, r);
    case Load(dst, _) => NotifyTracks(ctx.stack, ctx.next, dst, Depth(env, dst), i, r);
    case Store(_, _) =>
    case Cond(cases, complete) =>
      CasesTrackOutside(cases, env, 0, Opened(ctx), {}, base, i, r);
  }

  /** Between cases only the top object changes by itself. */
  lemma {:induction false} CasesTrackOutside(cases: CaseList, env: Env, at: nat, now: Ctx, replaced: set<Reg>,
                                             base: nat, i: nat, r: Reg)
    requires now.stack != [] && ScopedCases(cases, env, |now.stack|, base) && Watches(env, now.stack, i, r)
    requires i < |now.stack| - 1
    ensures Tracks(now.stack[i], EmitCases(cases, env, at, now, replaced).1.stack[i], r, SomeAssigns(cases, r))
    decreases cases, 0
  {
    match cases
    case NoMore =>
    case Case(p, mode, body, others) =>
      var one := EmitCase(p, mode, body, env, at, now, replaced);
      CaseTracks(p, mode, body, env, at, now, replaced, base, i, r);
      CasesTrackOutside(others, env, at + |one.0|, one.1, replaced, base, i, r);
      var more := EmitCases(others, env, at + |one.0|, one.1, replaced);
      TracksBoth(now.stack[i], one.1.stack[i], more.1.stack[i], r, Assigns(body, r), SomeAssigns(others, r));
      SomeAssignsMore(body, others, p, mode, r);
      EmitCasesIs(cases, env, at, now, replaced, one, more);
  }

  /** The body of a case, with the predicate set. */
  lemma {:induction false} BodyTracks(p: Reg, mode: Mode, body: Program, env: Env, now: Ctx, base: nat, i: nat, r: Reg)
    requires now.stack != [] && Scoped(body, env, |now.stack|, base) && Watches(env, now.stack, i, r)
    ensures Tracks(now.stack[i], Emit(body, env, BeginCase(now, p, mode).1).1.stack[i], r, Assigns(body, r))
    decreases body, 1
  {
    var ctx1 := BeginCase(now, p, mode).1;
    BeginCaseKeepsStack(now, p, mode);
    assert ctx1.stack == now.stack[..|now.stack| - 1] + [Top(now).(predicate_ := now.next, mode := mode)];
    assert Tracks(now.stack[i], ctx1.stack[i], r, false);
    ProgramTracks(body, env, ctx1, base, i, r);
    TracksBoth(now.stack[i], ctx1.stack[i], Emit(body, env, ctx1).1.stack[i], r, false, Assigns(body, r));
  }

  lemma {:induction false} CaseTracks(p: Reg, mode: Mode, body: Program, env: Env, at: nat, now: Ctx,
                                      replaced: set<Reg>, base: nat, i: nat, r: Reg)
    requires now.stack != [] && Scoped(body, env, |now.stack|, base) && Watches(env, now.stack, i, r)
    requires i < |now.stack| - 1
    ensures Tracks(now.stack[i], EmitCase(p, mode, body, env, at, now, replaced).1.stack[i], r, Assigns(body, r))
    decreases body, 2
  {
    BodyTracks(p, mode, body, env, now, base, i, r);
    BeginCaseKeepsStack(now, p, mode);
    var inner, ctx2 := Emit(body, env, BeginCase(now, p, mode).1).0, Emit(body, env, BeginCase(now, p, mode).1).1;
    EmitCaseIs(p, mode, body, env, at, now, replaced, inner, ctx2);
  }

  /** From c to d a case has been finished, which wrote r or not. */
  ghost predicate TracksCase(c: Clu, d: Clu, r: Reg, writes: bool) {
    d.current == c.current + 1 && Tracks(c, d.(current := c.current), r, writes)
  }

  lemma AfterTracks(c: Clu, ctx2: Ctx, at: nat, r: Reg, writes: bool)
    requires ctx2.stack != [] && ctx2.preds != [] && Tracks(c, Top(ctx2), r, writes)
    ensures TracksCase(c, Top(AfterCase(ctx2, at)), r, writes)
  {
    RecordFirstKeeps(Top(ctx2), ctx2.next, at);
  }

  lemma TopTracksCase(p: Reg, mode: Mode, body: Program, env: Env, at: nat, now: Ctx, replaced: set<Reg>, base: nat,
                      r: Reg)
    requires now.stack != [] && Scoped(body, env, |now.stack|, base) && Watches(env, now.stack, |now.stack| - 1, r)
    ensures TracksCase(Top(now), Top(EmitCase(p, mode, body, env, at, now, replaced).1), r, Assigns(body, r))
  {
    BodyTracks(p, mode, body, env, now, base, |now.stack| - 1, r);
    BeginCaseKeepsStack(now, p, mode);
    var inner, ctx2 := Emit(body, env, BeginCase(now, p, mode).1).0, Emit(body, env, BeginCase(now, p, mode).1).1;
    EmitCaseIs(p, mode, body, env, at, now, replaced, inner, ctx2);
    AfterTracks(Top(now), ctx2, at + |BeginCase(now, p, mode).0| + |inner|, r, Assigns(body, r));
  }

  /** c becomes d in the course of the cases. */
  ghost predicate TracksCases(c: Clu, d: Clu, r: Reg, cases: CaseList) {
    && d.current == c.current + CaseCount(cases)
    && (r in d.updated <==> r in c.updated || SomeAssigns(cases, r))
    && (forall k :: r in d.updated ==>
          (k in d.updated[r].cases <==>
           (r in c.updated && k in c.updated[r].cases) ||
           (c.current <= k < d.current && CaseAssigns(cases, k - c.current, r))))
  }

  lemma TracksCasesMore(c: Clu, b: Clu, d: Clu, r: Reg, p: Reg, mode: Mode, body: Program, others: CaseList)
    requires TracksCase(c, b, r, Assigns(body, r)) && TracksCases(b, d, r, others)
    ensures TracksCases(c, d, r, Case(p, mode, body, others))
  {
    SomeAssignsMore(body, others, p, mode, r);
  }

  /** The object of a conditional tracks a visible register exactly if some case assigns it, and remembers which. */
  lemma {:induction false} TopTracks(cases: CaseList, env: Env, at: nat, now: Ctx, replaced: set<Reg>, base: nat,
                                     r: Reg)
    requires now.stack != [] && ScopedCases(cases, env, |now.stack|, base)
    requires Watches(env, now.stack, |now.stack| - 1, r)
    ensures TracksCases(Top(now), Top(EmitCases(cases, env, at, now, replaced).1), r, cases)
    decreases cases, 0
  {
    match cases
    case NoMore =>
    case Case(p, mode, body, others) =>
      var one := EmitCase(p, mode, body, env, at, now, replaced);
      TopTracksCase(p, mode, body, env, at, now, replaced, base, r);
      assert Watches(env, one.1.stack, |one.1.stack| - 1, r);
      TopTracks(others, env, at + |one.0|, one.1, replaced, base, r);
      var more := EmitCases(others, env, at + |one.0|, one.1, replaced);
      TracksCasesMore(Top(now), Top(one.1), Top(more.1), r, p, mode, body, others);
      EmitCasesIs(cases, env, at, now, replaced, one, more);
  }

  /** The object marks a register as written by all cases exactly if there are cases and all of them assign it. */
  lemma AllWrittenExactly(cases: CaseList, env: Env, ctx: Ctx, plain: (seq<Op>, Ctx), base: nat, r: Reg)
    requires CtxOk(ctx, base) && EnvOk(env, |ctx.stack|, base) && ScopedCases(cases, env, |ctx.stack| + 1, base)
    requires r in env && plain == EmitCases(cases, env, 0, Opened(ctx), {}) && plain.1.stack != []
    requires Continues(env, ctx, [], plain, base)
    ensures r in AllWritten(Top(plain.1), plain.1.next) <==> cases.Case? && AllAssign(cases, r)
  {
    TopTracks(cases, env, 0, Opened(ctx), {}, base, r);
    MarkedExactly(Top(Opened(ctx)), Top(plain.1), r, cases);
  }

  lemma MarkedExactly(c: Clu, d: Clu, r: Reg, cases: CaseList)
    requires TracksCases(c, d, r, cases) && c.updated == map[] && c.current == 0
    ensures WrittenByAll(d, r) <==> cases.Case? && AllAssign(cases, r)
  {
    CountIsAll(cases, r);
    var n := CaseCount(cases);
    if r in d.updated {
      var s := d.updated[r].cases;
      CasesAreAll(s, n);
      if |s| == n {
        forall k | 0 <= k < n
          ensures CaseAssigns(cases, k, r)
        {
          assert k in s;
        }
      }
      if AllAssign(cases, r) {
        forall k | 0 <= k < n
          ensures k in s
        {
          assert CaseAssigns(cases, k, r);
        }
      }
    }
  }

  lemma CasesAreAll(s: set<nat>, n: nat)
    requires forall k :: k in s ==> k < n
    ensures |s| == n <==> forall k :: 0 <= k < n ==> k in s
  {
    if |s| == n {
      forall k | 0 <= k < n
        ensures k in s
      {
        FullSet(s, n, k);
      }
    } else if forall k :: 0 <= k < n ==> k in s {
      SizeOfAll(s, n);
    }
  }

  lemma {:induction false} SizeOfAll(s: set<nat>, n: nat)
    requires forall k :: k in s <==> 0 <= k < n
    ensures |s| == n
  {
    if n > 0 { SizeOfAll(s - {n - 1}, n - 1); } else { assert s == {}; }
  }

  // ---- Counting selects ----

  /** How many of the operations select a value for v. */
  ghost function SelectCount(ops: seq<Op>, v: Reg): nat {
    if ops == [] then 0
    else
      SelectCount(ops[..|ops| - 1], v)
      + if ops[|ops| - 1].Select? && ops[|ops| - 1].dst == v then 1 else 0
  }

  lemma {:induction false} SelectCountConcat(a: seq<Op>, b: seq<Op>, v: Reg)
    ensures SelectCount(a + b, v) == SelectCount(a, v) + SelectCount(b, v)
    decreases |b|
  {
    if b == [] {
      assert a + b == a;
    } else {
      assert (a + b)[..|a + b| - 1] == a + b[..|b| - 1];
      SelectCountConcat(a, b[..|b| - 1], v);
    }
  }

  lemma {:induction false} NoSelect(ops: seq<Op>, v: Reg)
    requires forall i :: 0 <= i < |ops| ==> !(ops[i].Select? && ops[i].dst == v)
    ensures SelectCount(ops, v) == 0
  {
    if ops != [] { NoSelect(ops[..|ops| - 1], v); }
  }

  lemma UnwrittenUnselected(ops: seq<Op>, v: Reg)
    requires !Writes(ops, v)
    ensures SelectCount(ops, v) == 0
  {
    NoSelect(ops, v);
  }

  lemma EndOneCount(c: Clu, q: Reg, replaced: set<Reg>, v: Reg)
    ensures SelectCount(EndOne(c, q, replaced), v) ==
            if WrittenNow(c, q) && q !in replaced && c.updated[q].value == v then 1 else 0
  {
    if WrittenNow(c, q) {
      var ops := EndOne(c, q, replaced);
      assert ops == [UpdateOp(c, q, replaced)] + [Mov(q, c.updated[q].backup)];
      SelectCountConcat([UpdateOp(c, q, replaced)], [Mov(q, c.updated[q].backup)], v);
      assert [ops[0]][..0] == [] && [ops[1]][..0] == [];
    }
  }

  /** The end of a case selects a value for each register the case wrote, unless it is replaced. */
  lemma {:induction false} EndCount(c: Clu, n: nat, replaced: set<Reg>, r: Reg, v: Reg)
    requires r in c.updated && c.updated[r].value == v
    requires forall q :: q in c.updated && q != r ==> c.updated[q].value != v
    ensures SelectCount(EndOps(c, n, replaced), v) == if r < n && WrittenNow(c, r) && r !in replaced then 1 else 0
  {
    if n > 0 {
      EndCount(c, n - 1, replaced, r, v);
      EndOneCount(c, n - 1, replaced, v);
      SelectCountConcat(EndOps(c, n - 1, replaced), EndOne(c, n - 1, replaced), v);
    }
  }

  lemma {:induction false} EndCountOther(c: Clu, n: nat, replaced: set<Reg>, v: Reg)
    requires forall q :: q in c.updated ==> c.updated[q].value != v
    ensures SelectCount(EndOps(c, n, replaced), v) == 0
  {
    if n > 0 {
      EndCountOther(c, n - 1, replaced, v);
      EndOneCount(c, n - 1, replaced, v);
      SelectCountConcat(EndOps(c, n - 1, replaced), EndOne(c, n - 1, replaced), v);
    }
  }

  /** v is the selected value that r has in the object, or will have when it is tracked. */
  ghost predicate IsValueOf(c: Clu, next: nat, r: Reg, v: Reg) {
    if r in c.updated then c.updated[r].value == v else v >= next
  }

  lemma CaseEndCount(c1: Clu, c2: Clu, next: nat, base: nat, body: Program, replaced: set<Reg>, r: Reg, v: Reg)
    requires Tracks(c1, c2, r, Assigns(body, r)) && CluOk(c2, base, next) && r < base <= next
    requires r in c1.updated ==> c1.current !in c1.updated[r].cases
    requires IsValueOf(c2, next, r, v)
    ensures SelectCount(EndOps(c2, next, replaced), v) == if Assigns(body, r) && r !in replaced then 1 else 0
  {
    if r in c2.updated {
      forall q | q in c2.updated && q != r
        ensures c2.updated[q].value != v
      {
      }
      EndCount(c2, next, replaced, r, v);
    } else {
      forall q | q in c2.updated
        ensures c2.updated[q].value != v
      {
        OwnedRegisters(c2.updated, next, q);
      }
      EndCountOther(c2, next, replaced, v);
    }
  }

  lemma BeginCount(now: Ctx, p: Reg, mode: Mode, v: Reg)
    requires now.stack != []
    ensures SelectCount(BeginCase(now, p, mode).0, v) == 0
  {
    NoSelect(BeginCase(now, p, mode).0, v);
  }

  /** The body of a case does not write the selected value of a register that the object around it tracks. */
  lemma InnerCount(env: Env, ctx1: Ctx, inner: seq<Op>, ctx2: Ctx, base: nat, r: Reg, v: Reg)
    requires ctx2.stack != [] && Confined(env, ctx1, inner, ctx2, base) && base <= v
    requires IsValueOf(Top(ctx2), ctx2.next, r, v)
    ensures SelectCount(inner, v) == 0
  {
    assert Owned(ctx2, r, v) ==> OwnedBy(ctx2.stack, v);
    assert Writes(inner, v) ==> WriteOk(env, ctx1.next, ctx2.stack, ctx2.next, base, v);
    UnwrittenUnselected(inner, v);
  }

  ghost predicate Owned(ctx: Ctx, r: Reg, v: Reg)
    requires ctx.stack != []
  {
    r in Top(ctx).updated && Owns(ctx.stack[|ctx.stack| - 1].updated, v)
  }

  ghost predicate CaseSelects(one: (seq<Op>, Ctx), now: Ctx, body: Program, replaced: set<Reg>, r: Reg, v: Reg)
    requires now.stack != []
  {
    SelectCount(one.0, v) ==
    if Assigns(body, r) && !(Top(now).current == 0 && r in replaced) then 1 else 0
  }

  lemma OneCaseCount(p: Reg, mode: Mode, body: Program, env: Env, ctx: Ctx, ops: seq<Op>, now: Ctx, at: nat,
                     replaced: set<Reg>, base: nat, r: Reg, v: Reg)
    requires CtxOk(ctx, base) && EnvOk(env, |ctx.stack|, base) && Inside(env, ctx, ops, now, base)
    requires Scoped(body, env, |ctx.stack| + 1, base) && r in env && base <= v
    requires var one := EmitCase(p, mode, body, env, at, now, replaced);
      one.1.stack != [] && IsValueOf(Top(one.1), one.1.next, r, v)
    ensures CaseSelects(EmitCase(p, mode, body, env, at, now, replaced), now, body, replaced, r, v)
  {
    var inner, ctx2 := CaseBody(p, mode, body, env, ctx, ops, now, at, replaced, base);
    CaseLater(env, now, p, mode, inner, ctx2, 0, base);
    BodyTracksTop(p, mode, body, env, ctx, ops, now, base, r);
    BodyValue(now, p, mode, inner, ctx2, at, Replaced(now, replaced), r, v);
    InnerCount(env, BeginCase(now, p, mode).1, inner, ctx2, base, r, v);
    assert CluOk(ctx2.stack[|ctx2.stack| - 1], base, ctx2.next);
    CaseEndCount(Top(now), Top(ctx2), ctx2.next, base, body, Replaced(now, replaced), r, v);
    ResultCount(now, p, mode, inner, ctx2, at, Replaced(now, replaced), v);
  }

  lemma BodyTracksTop(p: Reg, mode: Mode, body: Program, env: Env, ctx: Ctx, ops: seq<Op>, now: Ctx, base: nat, r: Reg)
    requires CtxOk(ctx, base) && EnvOk(env, |ctx.stack|, base) && Inside(env, ctx, ops, now, base)
    requires Scoped(body, env, |ctx.stack| + 1, base) && r in env
    ensures Tracks(Top(now), Top(Emit(body, env, BeginCase(now, p, mode).1).1), r, Assigns(body, r))
  {
    BodyTracks(p, mode, body, env, now, base, |now.stack| - 1, r);
  }

  lemma BodyValue(now: Ctx, p: Reg, mode: Mode, inner: seq<Op>, ctx2: Ctx, at: nat, replaced: set<Reg>, r: Reg, v: Reg)
    requires now.stack != [] && ctx2.stack != [] && ctx2.preds != []
    requires var one := CaseResult(now, p, mode, inner, ctx2, at, replaced);
      one.1.stack != [] && IsValueOf(Top(one.1), one.1.next, r, v)
    ensures IsValueOf(Top(ctx2), ctx2.next, r, v)
  {
    RecordFirstKeeps(Top(ctx2), ctx2.next, at + |BeginCase(now, p, mode).0| + |inner|);
  }

  lemma ResultCount(now: Ctx, p: Reg, mode: Mode, inner: seq<Op>, ctx2: Ctx, at: nat, replaced: set<Reg>, v: Reg)
    requires now.stack != [] && ctx2.stack != [] && ctx2.preds != [] && SelectCount(inner, v) == 0
    ensures SelectCount(CaseResult(now, p, mode, inner, ctx2, at, replaced).0, v) ==
            SelectCount(EndOps(Top(ctx2), ctx2.next, replaced), v)
  {
    var begin, end := BeginCase(now, p, mode).0, EndOps(Top(ctx2), ctx2.next, replaced);
    BeginCount(now, p, mode, v);
    SelectCountConcat(begin + inner, end, v);
    SelectCountConcat(begin, inner, v);
  }

  /** The cases select a value once for each case that assigns the register, but not in the first if it is replaced. */
  lemma {:induction false} CasesCount(cases: CaseList, env: Env, ctx: Ctx, ops: seq<Op>, now: Ctx, at: nat,
                                      replaced: set<Reg>, base: nat, r: Reg, v: Reg)
    requires CtxOk(ctx, base) && EnvOk(env, |ctx.stack|, base) && Inside(env, ctx, ops, now, base)
    requires ScopedCases(cases, env, |ctx.stack| + 1, base) && r in env && base <= v
    requires var fin := EmitCases(cases, env, at, now, replaced);
      fin.1.stack != [] && IsValueOf(Top(fin.1), fin.1.next, r, v)
    ensures SelectCount(EmitCases(cases, env, at, now, replaced).0, v) ==
            AssignCount(cases, r)
            - if Top(now).current == 0 && r in replaced && cases.Case? && CaseAssigns(cases, 0, r) then 1 else 0
    decreases cases
  {
    match cases
    case NoMore =>
    case Case(p, mode, body, others) =>
      var one := EmitCase(p, mode, body, env, at, now, replaced);
      var more := EmitCases(others, env, at + |one.0|, one.1, replaced);
      CaseInside(p, mode, body, env, ctx, ops, now, at, replaced, base);
      OneCaseLater(p, mode, body, env, ctx, ops, now, at, replaced, base);
      CasesLater(others, env, ctx, ops + one.0, one.1, at + |one.0|, replaced, base);
      CasesNext(others, env, ctx, ops + one.0, one.1, at + |one.0|, replaced, base);
      EmitCasesIs(cases, env, at, now, replaced, one, more);
      OneCaseCount(p, mode, body, env, ctx, ops, now, at, replaced, base, r, v);
      CasesCount(others, env, ctx, ops + one.0, one.1, at + |one.0|, replaced, base, r, v);
      SelectCountConcat(one.0, more.0, v);
  }

  lemma CasesNext(cases: CaseList, env: Env, ctx: Ctx, ops: seq<Op>, now: Ctx, at: nat, replaced: set<Reg>, base: nat)
    requires CtxOk(ctx, base) && EnvOk(env, |ctx.stack|, base) && Inside(env, ctx, ops, now, base)
    requires ScopedCases(cases, env, |ctx.stack| + 1, base)
    ensures EmitCases(cases, env, at, now, replaced).1.next >= now.next
    decreases cases
  {
    match cases
    case NoMore =>
    case Case(p, mode, body, others) =>
      var one := EmitCase(p, mode, body, env, at, now, replaced);
      CaseInside(p, mode, body, env, ctx, ops, now, at, replaced, base);
      OneCaseLater(p, mode, body, env, ctx, ops, now, at, replaced, base);
      CasesNext(others, env, ctx, ops + one.0, one.1, at + |one.0|, replaced, base);
      EmitCasesIs(cases, env, at, now, replaced, one, EmitCases(others, env, at + |one.0|, one.1, replaced));
  }

  lemma FinishCount(ops: seq<Op>, c: Clu, n: nat, v: Reg)
    ensures SelectCount(Finish(ops, c, n), v) == SelectCount(ops, v)
  {
    SelectCountConcat(BackupOps(c.updated, c.order) + ops, CopyOps(c.updated, n), v);
    SelectCountConcat(BackupOps(c.updated, c.order), ops, v);
    BackupsUnselected(c.updated, c.order, v);
    CopiesUnselected(c.updated, n, v);
  }

  lemma {:induction false} BackupsUnselected(u: map<Reg, Updated>, order: seq<Reg>, v: Reg)
    ensures SelectCount(BackupOps(u, order), v) == 0
  {
    if order != [] {
      var r := order[|order| - 1];
      BackupsUnselected(u, order[..|order| - 1], v);
      SelectCountConcat(BackupOps(u, order[..|order| - 1]), BackupOne(u, r), v);
      NoSelect(BackupOne(u, r), v);
    }
  }

  lemma {:induction false} CopiesUnselected(u: map<Reg, Updated>, n: nat, v: Reg)
    ensures SelectCount(CopyOps(u, n), v) == 0
  {
    if n > 0 {
      CopiesUnselected(u, n - 1, v);
      SelectCountConcat(CopyOps(u, n - 1), CopyOne(u, n - 1), v);
      NoSelect(CopyOne(u, n - 1), v);
    }
  }

  /** A visible register is tracked exactly if some case assigns it. Its value is selected once for every case that
      does, and once less exactly if the conditional is complete and all of them do. */
  lemma SelectsOfConditional(cases: CaseList, complete: bool, env: Env, ctx: Ctx, base: nat, r: Reg)
    requires CtxOk(ctx, base) && EnvOk(env, |ctx.stack|, base) && ScopedCases(cases, env, |ctx.stack| + 1, base)
    requires r in env
    ensures var plain := EmitCases(cases, env, 0, Opened(ctx), {});
      && plain.1.stack != [] && (r in Top(plain.1).updated <==> AssignCount(cases, r) > 0)
      && (r in Top(plain.1).updated ==>
            SelectCount(EmitCond(plain.0, complete, plain.1), Top(plain.1).updated[r].value) ==
            AssignCount(cases, r) - if complete && AssignCount(cases, r) == CaseCount(cases) then 1 else 0)
  {
    var plain := EmitCases(cases, env, 0, Opened(ctx), {});
    InsideStarts(env, ctx, base);
    CasesInside(cases, env, ctx, [], Opened(ctx), 0, {}, base);
    assert Continues(env, ctx, [], plain, base);
    TopTracks(cases, env, 0, Opened(ctx), {}, base, r);
    CountIsAll(cases, r);
    if r in Top(plain.1).updated {
      AllWrittenExactly(cases, env, ctx, plain, base, r);
      SelectsOfTracked(cases, complete, env, ctx, plain, base, r);
    }
  }

  lemma SelectsOfTracked(cases: CaseList, complete: bool, env: Env, ctx: Ctx, plain: (seq<Op>, Ctx), base: nat, r: Reg)
    requires CtxOk(ctx, base) && EnvOk(env, |ctx.stack|, base) && ScopedCases(cases, env, |ctx.stack| + 1, base)
    requires Inside(env, ctx, [], Opened(ctx), base)
    requires plain == EmitCases(cases, env, 0, Opened(ctx), {}) && Continues(env, ctx, [], plain, base)
    requires r in env && plain.1.stack != [] && r in Top(plain.1).updated && AssignCount(cases, r) > 0
    requires r in AllWritten(Top(plain.1), plain.1.next) <==> AssignCount(cases, r) == CaseCount(cases)
    ensures SelectCount(EmitCond(plain.0, complete, plain.1), Top(plain.1).updated[r].value) ==
            AssignCount(cases, r) - if complete && AssignCount(cases, r) == CaseCount(cases) then 1 else 0
  {
    var d, n := Top(plain.1), plain.1.next;
    var v := d.updated[r].value;
    var replaced := if complete then AllWritten(d, n) else {};
    assert CluOk(plain.1.stack[|plain.1.stack| - 1], base, n);
    SetCompleteIsReplaced(cases, env, ctx, base);
    CountIsAll(cases, r);
    CasesCount(cases, env, ctx, [], Opened(ctx), 0, replaced, base, r, v);
    FinishCount(if complete then SetComplete(plain.0, d, n) else plain.0, d, n, v);
  }
}
