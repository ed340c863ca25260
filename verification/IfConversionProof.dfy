/** Running the emitted operations means the same as running only the taken cases. */
module IfConversionProof {
  import opened Ir
  import opened LocalUpdatesSpec
  import opened LocalUpdatesEffect
  import opened LocalUpdatesFrame
  import opened IfConversion
  import opened IfConversionFrame
  import opened IfConversionComplete

  /** Two states agree on the visible locals and on all globals. */
  ghost predicate Agree(env: Env, s: State, t: State) {
    (forall r :: r in env ==> Get(s, r) == Get(t, r)) && s.globals == t.globals
  }

  /** The combined predicate of the enclosing cases is true. */
  ghost predicate Enabled(ctx: Ctx, t: State) {
    ctx.preds == [] || Get(t, ctx.preds[|ctx.preds| - 1]) != 0
  }

  // ---- BeginCase ----

  ghost predicate SameBelow(n: nat, t: State, t1: State) {
    t1.globals == t.globals && forall r: Reg :: r < n ==> Get(t1, r) == Get(t, r)
  }

  lemma PutAbove(t: State, r: Reg, v: int, n: nat)
    requires r >= n
    ensures SameBelow(n, t, Put(t, r, v)) && Get(Put(t, r, v), r) == v
  {
  }

  lemma PushAndEffect(ctx: Ctx, input: Reg, top: Reg, t: State)
    requires ctx.preds != [] && top == ctx.preds[|ctx.preds| - 1] && input < ctx.next && top < ctx.next
    ensures Enabled(PushPredicate(ctx, input).1, Run(PushPredicate(ctx, input).0, t)) <==>
            Get(t, input) != 0 && Enabled(ctx, t)
    ensures SameBelow(ctx.next, t, Run(PushPredicate(ctx, input).0, t))
  {
    var leaf, both := ctx.next, Truth(Get(t, input) != 0 && Get(t, top) != 0);
    TwoSteps(Mov(leaf, input), And(leaf + 1, input, top), t);
    var t0 := Put(t, leaf, Get(t, input));
    PutAbove(t, leaf, Get(t, input), leaf);
    PutAbove(t0, leaf + 1, both, leaf);
    assert PushPredicate(ctx, input).1.preds[|ctx.preds|] == leaf + 1;
  }

  lemma PushEffect(ctx: Ctx, input: Reg, t: State)
    requires input < ctx.next && (ctx.preds != [] ==> ctx.preds[|ctx.preds| - 1] < ctx.next)
    ensures Enabled(PushPredicate(ctx, input).1, Run(PushPredicate(ctx, input).0, t)) <==>
            Get(t, input) != 0 && Enabled(ctx, t)
    ensures SameBelow(ctx.next, t, Run(PushPredicate(ctx, input).0, t))
  {
    if ctx.preds == [] {
      RunOne(Mov(ctx.next, input), t);
      PutAbove(t, ctx.next, Get(t, input), ctx.next);
    } else {
      PushAndEffect(ctx, input, ctx.preds[|ctx.preds| - 1], t);
    }
  }

  /** The predicate copy holds the predicate, and the new combined predicate is true exactly when the
      case is taken and the enclosing cases are. */
  lemma BeginEffect(now: Ctx, p: Reg, mode: Mode, t: State, base: nat)
    requires CtxOk(now, base) && now.stack != [] && p < base
    ensures Get(Run(BeginCase(now, p, mode).0, t), now.next) == Get(t, p)
    ensures Enabled(BeginCase(now, p, mode).1, Run(BeginCase(now, p, mode).0, t)) <==>
            Taken(p, mode, t) && Enabled(now, t)
    ensures SameBelow(now.next, t, Run(BeginCase(now, p, mode).0, t))
  {
    if now.preds != [] { assert now.preds[|now.preds| - 1] < now.next; }
    if mode == Normal { BeginNormal(now, p, t); } else { BeginInverse(now, p, t); }
  }

  lemma BeginNormal(now: Ctx, p: Reg, t: State)
    requires now.stack != [] && p < now.next && (now.preds != [] ==> now.preds[|now.preds| - 1] < now.next)
    ensures Get(Run(BeginCase(now, p, Normal).0, t), now.next) == Get(t, p)
    ensures Enabled(BeginCase(now, p, Normal).1, Run(BeginCase(now, p, Normal).0, t)) <==>
            Get(t, p) != 0 && Enabled(now, t)
    ensures SameBelow(now.next, t, Run(BeginCase(now, p, Normal).0, t))
  {
    var copy := now.next;
    var ctx0 := WithTop(now.(next := copy + 1), Top(now).(predicate_ := copy, mode := Normal));
    var push := PushPredicate(ctx0, copy);
    var t0 := Put(t, copy, Get(t, p));
    PushEffect(ctx0, copy, t0);
    assert Enabled(ctx0, t0) == Enabled(now, t);
    RunOne(Mov(copy, p), t);
    RunConcat([Mov(copy, p)], push.0, t);
    assert BeginCase(now, p, Normal) == ([Mov(copy, p)] + push.0, push.1);
  }

  ghost function InverseCtx(now: Ctx): (c: Ctx)
    requires now.stack != []
    ensures c.preds == now.preds && c.next == now.next + 2
  {
    WithTop(now.(next := now.next + 1), Top(now).(predicate_ := now.next, mode := Inverse)).(next := now.next + 2)
  }

  lemma BeginInverseIs(now: Ctx, p: Reg, push: (seq<Op>, Ctx))
    requires now.stack != [] && push == PushPredicate(InverseCtx(now), now.next + 1)
    ensures BeginCase(now, p, Inverse) == ([Mov(now.next, p), Invert(now.next + 1, now.next)] + push.0, push.1)
  {
  }

  /** The copy, its inverse and the push, one after the other. */
  lemma InverseEffect(now: Ctx, p: Reg, t: State, push: (seq<Op>, Ctx), u: State)
    requires now.stack != [] && p < now.next && (now.preds != [] ==> now.preds[|now.preds| - 1] < now.next)
    requires push == PushPredicate(InverseCtx(now), now.next + 1)
    requires u == Run([Mov(now.next, p), Invert(now.next + 1, now.next)] + push.0, t)
    ensures Get(u, now.next) == Get(t, p) && SameBelow(now.next, t, u)
    ensures Enabled(push.1, u) <==> Get(t, p) == 0 && Enabled(now, t)
  {
    var copy, ctx0 := now.next, InverseCtx(now);
    var t1 := Put(Put(t, copy, Get(t, p)), copy + 1, Truth(Get(t, p) == 0));
    PushEffect(ctx0, copy + 1, t1);
    assert Enabled(ctx0, t1) == Enabled(now, t);
    TwoSteps(Mov(copy, p), Invert(copy + 1, copy), t);
    RunConcat([Mov(copy, p), Invert(copy + 1, copy)], push.0, t);
  }

  lemma BeginInverse(now: Ctx, p: Reg, t: State)
    requires now.stack != [] && p < now.next && (now.preds != [] ==> now.preds[|now.preds| - 1] < now.next)
    ensures Get(Run(BeginCase(now, p, Inverse).0, t), now.next) == Get(t, p)
    ensures Enabled(BeginCase(now, p, Inverse).1, Run(BeginCase(now, p, Inverse).0, t)) <==>
            Get(t, p) == 0 && Enabled(now, t)
    ensures SameBelow(now.next, t, Run(BeginCase(now, p, Inverse).0, t))
  {
    var push := PushPredicate(InverseCtx(now), now.next + 1);
    BeginInverseIs(now, p, push);
    InverseEffect(now, p, t, push, Run(BeginCase(now, p, Inverse).0, t));
  }

  // ---- Nothing happens to globals while disabled ----

  /** The enclosing predicate is not among the registers a confined piece of code writes. */
  lemma EnabledKept(env: Env, ctx: Ctx, ops: seq<Op>, ctx2: Ctx, t: State, base: nat)
    requires CtxOk(ctx, base) && Confined(env, ctx, ops, ctx2, base)
    ensures Enabled(ctx2, Run(ops, t)) == Enabled(ctx, t)
  {
    if ctx.preds != [] {
      var x := ctx.preds[|ctx.preds| - 1];
      assert !Writes(ops, x);
      UnwrittenKept(ops, t, x);
    }
  }

  lemma EnabledKeptInside(env: Env, ctx: Ctx, ops: seq<Op>, one: (seq<Op>, Ctx), t: State, base: nat)
    requires CtxOk(ctx, base) && Continues(env, ctx, ops, one, base)
    ensures Enabled(one.1, Run(one.0, t)) == Enabled(ctx, t)
  {
    if ctx.preds != [] {
      var x := ctx.preds[|ctx.preds| - 1];
      WritesConcat(ops, one.0, x);
      assert !Writes(ops + one.0, x);
      UnwrittenKept(one.0, t, x);
    }
  }

  lemma {:induction false} EmitDisabled(p: Program, env: Env, ctx: Ctx, t: State, base: nat)
    requires CtxOk(ctx, base) && EnvOk(env, |ctx.stack|, base) && Scoped(p, env, |ctx.stack|, base) && !Enabled(ctx, t)
    ensures Run(Emit(p, env, ctx).0, t).globals == t.globals
    decreases p, 0
  {
    match p
    case Skip =>
    case Then(first, rest) =>
      var one := EmitStmt(first, env, ctx);
      var env2 := EnvAfter(first, env, |ctx.stack|);
      StmtConfined(first, env, ctx, base);
      StmtDisabled(first, env, ctx, t, base);
      EnabledKept(env, ctx, one.0, one.1, t, base);
      var t1 := Run(one.0, t);
      EmitDisabled(rest, env2, one.1, t1, base);
      RunConcat(one.0, Emit(rest, env2, one.1).0, t);
      assert Emit(p, env, ctx).0 == one.0 + Emit(rest, env2, one.1).0;
  }

  lemma {:induction false} StmtDisabled(st: Stmt, env: Env, ctx: Ctx, t: State, base: nat)
    requires CtxOk(ctx, base) && EnvOk(env, |ctx.stack|, base) && ScopedStmt(st, env, |ctx.stack|, base)
    requires !Enabled(ctx, t)
    ensures Run(EmitStmt(st, env, ctx).0, t).globals == t.globals
    decreases st, 0
  {
    match st
    case Declare(dst, f, srcs) => RunOne(Compute(dst, f, srcs), t);
    case Assign(dst, f, srcs) => RunOne(Compute(dst, f, srcs), t);
    case Load(dst, g) => RunOne(ReadGlobal(dst, g), t);
    case Store(g, r) => RunOne(WriteGlobal(g, r, Guard(ctx)), t);
    case Cond(cases, complete) =>
      var plain := EmitCases(cases, env, 0, Opened(ctx), {});
      var replaced := if complete then AllWritten(Top(plain.1), plain.1.next) else {};
      var r := EmitCases(cases, env, 0, Opened(ctx), replaced);
      if complete { SetCompleteIsReplaced(cases, env, ctx, base); }
      var u, order := Top(plain.1).updated, Top(plain.1).order;
      var t1 := Run(BackupOps(u, order), t);
      BackupNoGlobals(u, order);
      GlobalsKept(BackupOps(u, order), t);
      InsideStarts(env, ctx, base);
      CasesInside(cases, env, ctx, [], Opened(ctx), 0, {}, base);
      BackupKeepsEnabled(env, ctx, plain, t, base);
      CasesDisabled(cases, env, ctx, [], Opened(ctx), 0, replaced, t1, base);
      CondRuns(ctx, plain, r.0, complete, t);
      CopyNoGlobals(u, plain.1.next);
      GlobalsKept(CopyOps(u, plain.1.next), Run(r.0, t1));
  }

  lemma BackupKeepsEnabled(env: Env, ctx: Ctx, plain: (seq<Op>, Ctx), t: State, base: nat)
    requires CtxOk(ctx, base) && Continues(env, ctx, [], plain, base)
    ensures Enabled(Opened(ctx), Run(BackupOps(Top(plain.1).updated, Top(plain.1).order), t)) == Enabled(ctx, t)
  {
    if ctx.preds != [] {
      var x := ctx.preds[|ctx.preds| - 1];
      assert !OwnedBy(plain.1.stack, plain.1.preds[|ctx.preds| - 1]);
      assert !Owns(plain.1.stack[|plain.1.stack| - 1].updated, x);
      BackupKeeps(Top(plain.1).updated, Top(plain.1).order, t, x);
    }
  }

  /** The emitted conditional runs the backups, then the cases, then the copies. */
  lemma CondRuns(ctx: Ctx, plain: (seq<Op>, Ctx), cases: seq<Op>, complete: bool, t: State)
    requires plain.1.stack != []
    requires cases == if complete then SetComplete(plain.0, Top(plain.1), plain.1.next) else plain.0
    ensures var u := Top(plain.1).updated;
      Run(EmitCond(plain.0, complete, plain.1), t) ==
      Run(CopyOps(u, plain.1.next), Run(cases, Run(BackupOps(u, Top(plain.1).order), t)))
  {
    var backups := BackupOps(Top(plain.1).updated, Top(plain.1).order);
    var copies := CopyOps(Top(plain.1).updated, plain.1.next);
    RunConcat(backups + cases, copies, t);
    RunConcat(backups, cases, t);
  }

  lemma {:induction false} CasesDisabled(cases: CaseList, env: Env, ctx: Ctx, ops: seq<Op>, now: Ctx, at: nat,
                                         replaced: set<Reg>, t: State, base: nat)
    requires CtxOk(ctx, base) && EnvOk(env, |ctx.stack|, base) && Inside(env, ctx, ops, now, base)
    requires ScopedCases(cases, env, |ctx.stack| + 1, base) && !Enabled(now, t)
    ensures Run(EmitCases(cases, env, at, now, replaced).0, t).globals == t.globals
    decreases cases, 0
  {
    match cases
    case NoMore =>
    case Case(p, mode, body, others) =>
      var one := EmitCase(p, mode, body, env, at, now, replaced);
      var more := EmitCases(others, env, at + |one.0|, one.1, replaced);
      CaseStaysDisabled(p, mode, body, env, ctx, ops, now, at, replaced, t, base, one);
      var t1 := Run(one.0, t);
      CasesDisabled(others, env, ctx, ops + one.0, one.1, at + |one.0|, replaced, t1, base);
      EmitCasesIs(cases, env, at, now, replaced, one, more);
      RunConcat(one.0, more.0, t);
  }

  lemma {:induction false} CaseStaysDisabled(p: Reg, mode: Mode, body: Program, env: Env, ctx: Ctx, ops: seq<Op>,
                                             now: Ctx, at: nat, replaced: set<Reg>, t: State, base: nat,
                                             one: (seq<Op>, Ctx))
    requires CtxOk(ctx, base) && EnvOk(env, |ctx.stack|, base) && Inside(env, ctx, ops, now, base)
    requires p in env && Scoped(body, env, |ctx.stack| + 1, base) && !Enabled(now, t)
    requires one == EmitCase(p, mode, body, env, at, now, replaced)
    ensures Inside(env, ctx, ops + one.0, one.1, base) && !Enabled(one.1, Run(one.0, t))
    ensures Run(one.0, t).globals == t.globals
    decreases body, 2
  {
    CaseInside(p, mode, body, env, ctx, ops, now, at, replaced, base);
    CaseDisabled(p, mode, body, env, ctx, ops, now, at, replaced, t, base);
    EnabledKeptInside(env, ctx, ops, one, t, base);
  }

  lemma {:induction false} CaseDisabled(p: Reg, mode: Mode, body: Program, env: Env, ctx: Ctx, ops: seq<Op>, now: Ctx,
                                        at: nat, replaced: set<Reg>, t: State, base: nat)
    requires CtxOk(ctx, base) && EnvOk(env, |ctx.stack|, base) && Inside(env, ctx, ops, now, base)
    requires p in env && Scoped(body, env, |ctx.stack| + 1, base) && !Enabled(now, t)
    ensures Run(EmitCase(p, mode, body, env, at, now, replaced).0, t).globals == t.globals
    decreases body, 1
  {
    var inner, ctx2 := CaseBody(p, mode, body, env, ctx, ops, now, at, replaced, base);
    var begin, ctx1 := BeginCase(now, p, mode).0, BeginCase(now, p, mode).1;
    BeginEffect(now, p, mode, t, base);
    BodyReady(env, ctx, ops, now, p, mode, base);
    var t1 := Run(begin, t);
    EmitDisabled(body, env, ctx1, t1, base);
    var end := EndOps(Top(ctx2), ctx2.next, Replaced(now, replaced));
    EndNoGlobals(Top(ctx2), ctx2.next, Replaced(now, replaced));
    GlobalsKept(end, Run(inner, t1));
    CaseRuns(begin, inner, end, t);
    assert EmitCase(p, mode, body, env, at, now, replaced).0 == begin + inner + end;
  }

  lemma CaseRuns(begin: seq<Op>, inner: seq<Op>, end: seq<Op>, t: State)
    ensures Run(begin + inner + end, t) == Run(end, Run(inner, Run(begin, t)))
  {
    RunConcat(begin + inner, end, t);
    RunConcat(begin, inner, t);
  }
}
