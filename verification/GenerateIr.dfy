/** Generating a program with live ConditionalLocalUpdates objects, one for each conditional that is open. */
module GenerateIr {
  import opened Wrappers
  import opened Ir
  import opened IfConversion
  import Spec = LocalUpdatesSpec
  import Objects = ConditionalLocalUpdates
  import Frame = IfConversionFrame
  import Proof = IfConversionProof
  import Correct = IfConversionCorrect

  type Context = Objects.IRContext
  type Object = Objects.ConditionalLocalUpdates

  /** The registered objects are different ones, and all work for this context. */
  ghost predicate Registered(ctx: Context)
    reads ctx, ctx.registerAccessNotificationStack
  {
    var stack := ctx.registerAccessNotificationStack;
    && (forall i :: 0 <= i < |stack| ==> stack[i].context == ctx && stack[i].Valid())
    && (forall i, j :: 0 <= i < j < |stack| ==> stack[i] != stack[j])
  }

  ghost function States(held: seq<Objects.Tracked>): (s: seq<Spec.Clu>)
    ensures |s| == |held| && forall i :: 0 <= i < |s| ==> s[i] == held[i].state
  {
    seq(|held|, i requires 0 <= i < |held| => held[i].state)
  }

  ghost function Held(stack: seq<Object>): (s: seq<Objects.Tracked>)
    reads stack
    ensures |s| == |stack| && forall i :: 0 <= i < |s| ==> s[i] == stack[i].Fields()
  {
    if stack == [] then [] else Held(stack[..|stack| - 1]) + [stack[|stack| - 1].Fields()]
  }

  /** The context and all registered objects, as the specification functions see them. */
  ghost function View(ctx: Context): Spec.Ctx
    reads ctx, ctx.registerAccessNotificationStack
  {
    Spec.Ctx(ctx.registerCount, ctx.predicateStack, States(Held(ctx.registerAccessNotificationStack)))
  }

  /** Everybody holds what is listed, and is in order. */
  ghost predicate HeldFits(stack: seq<Object>, held: seq<Objects.Tracked>, operations: nat, registers: nat) {
    && |held| == |stack|
    && (forall i :: 0 <= i < |stack| ==>
          Objects.Fits(held[i], stack[i].backupInsertLocation, operations, registers))
    && (forall i, j :: 0 <= i < j < |stack| ==> stack[i] != stack[j])
  }

  lemma HeldNow(ctx: Context)
    requires Registered(ctx)
    ensures HeldFits(ctx.registerAccessNotificationStack, Held(ctx.registerAccessNotificationStack),
                     |ctx.operations|, ctx.registerCount)
  {
    var stack := ctx.registerAccessNotificationStack;
    forall i | 0 <= i < |stack|
      ensures Objects.Fits(stack[i].Fields(), stack[i].backupInsertLocation, |ctx.operations|, ctx.registerCount)
    {
      assert stack[i].Valid();
    }
  }

  /** All but object k hold what they held. */
  ghost predicate SameBut(stack: seq<Object>, k: nat, held: seq<Objects.Tracked>)
    requires |held| == |stack|
    reads stack
  {
    forall i :: 0 <= i < |stack| && i != k ==> stack[i].Fields() == held[i]
  }

  /** When the context only grew, all objects are still in order, and only number k looks different. */
  lemma OthersStay(ctx: Context, k: nat, held: seq<Objects.Tracked>, operations: nat, registers: nat)
    requires HeldFits(ctx.registerAccessNotificationStack, held, operations, registers)
    requires forall i :: 0 <= i < |held| ==> ctx.registerAccessNotificationStack[i].context == ctx
    requires SameBut(ctx.registerAccessNotificationStack, k, held)
    requires k < |held| && ctx.registerAccessNotificationStack[k].Valid()
    requires operations <= |ctx.operations| && registers <= ctx.registerCount
    ensures Registered(ctx)
    ensures View(ctx).stack == States(held)[k := ctx.registerAccessNotificationStack[k].State()]
  {
    var stack := ctx.registerAccessNotificationStack;
    forall i | 0 <= i < |stack|
      ensures stack[i].Valid()
    {
      if i != k {
        Objects.StillFits(held[i], stack[i].backupInsertLocation, operations, registers, |ctx.operations|,
                          ctx.registerCount);
      }
    }
  }

  /** When only the context grew, all objects are still in order and look the same. */
  lemma AllStay(ctx: Context, held: seq<Objects.Tracked>, operations: nat, registers: nat)
    requires HeldFits(ctx.registerAccessNotificationStack, held, operations, registers)
    requires forall i :: 0 <= i < |held| ==> ctx.registerAccessNotificationStack[i].context == ctx
    requires Held(ctx.registerAccessNotificationStack) == held
    requires operations <= |ctx.operations| && registers <= ctx.registerCount
    ensures Registered(ctx)
  {
    var stack := ctx.registerAccessNotificationStack;
    forall i | 0 <= i < |stack|
      ensures stack[i].Valid()
    {
      Objects.StillFits(held[i], stack[i].backupInsertLocation, operations, registers, |ctx.operations|,
                        ctx.registerCount);
    }
  }

  // ---- The specification functions only look at the last object ----

  lemma BeginCaseLifts(ctx: Spec.Ctx, c: Spec.Clu, p: Reg, mode: Spec.Mode)
    requires ctx.stack != [] && c == Spec.Top(ctx)
    ensures var one := Spec.BeginCase(Spec.Ctx(ctx.next, ctx.preds, [c]), p, mode);
      && Spec.BeginCase(ctx, p, mode).0 == one.0
      && Spec.BeginCase(ctx, p, mode).1 == Spec.WithTop(Spec.Ctx(one.1.next, one.1.preds, ctx.stack), Spec.Top(one.1))
  {
    assert ctx.stack[..|ctx.stack| - 1] + [c] == ctx.stack;
  }

  lemma AfterCaseLifts(ctx: Spec.Ctx, c: Spec.Clu, at: nat)
    requires ctx.stack != [] && ctx.preds != [] && c == Spec.Top(ctx)
    ensures var one := Spec.AfterCase(Spec.Ctx(ctx.next, ctx.preds, [c]), at);
      Spec.AfterCase(ctx, at) == Spec.WithTop(Spec.Ctx(one.next, one.preds, ctx.stack), Spec.Top(one))
  {
  }

  /** The first k objects were notified. */
  ghost predicate NotifiedSoFar(before: Spec.Ctx, k: nat, r: Reg, depth: nat, stack: seq<Spec.Clu>, next: nat) {
    && k <= |before.stack| && |stack| == |before.stack|
    && Spec.NotifyAll(before.stack[..k], before.next, r, depth) == (stack[..k], next)
    && (forall i :: k <= i < |stack| ==> stack[i] == before.stack[i])
  }

  lemma NotifyOneMore(before: Spec.Ctx, k: nat, r: Reg, depth: nat, stack: seq<Spec.Clu>, next: nat)
    requires NotifiedSoFar(before, k, r, depth, stack, next) && k < |stack|
    ensures var one := Spec.NotifyOne(stack[k], next, r, depth);
      NotifiedSoFar(before, k + 1, r, depth, stack[k := one.0], one.1)
  {
    var one := Spec.NotifyOne(stack[k], next, r, depth);
    assert before.stack[..k + 1][..k] == before.stack[..k];
    assert stack[k := one.0][..k + 1] == stack[..k] + [one.0];
  }

  // ---- The steps ----

  /** The operations after a step that emits r. */
  ghost predicate Emits(ctx: Context, start: seq<Op>, r: (seq<Op>, Spec.Ctx))
    reads ctx, ctx.registerAccessNotificationStack
  {
    ctx.operations == start + r.0 && View(ctx) == r.1
  }

  ghost function Last(ctx: Context): (c: Object)
    requires Registered(ctx) && ctx.registerAccessNotificationStack != []
    reads ctx, ctx.registerAccessNotificationStack
    ensures c.context == ctx && c.backupInsertLocation <= |ctx.operations|
  {
    ctx.registerAccessNotificationStack[|ctx.registerAccessNotificationStack| - 1]
  }

  /** How many operations were appended since the innermost object was created. */
  ghost function Since(ctx: Context): nat
    requires Registered(ctx) && ctx.registerAccessNotificationStack != []
    reads ctx, ctx.registerAccessNotificationStack
  {
    |ctx.operations| - Last(ctx).backupInsertLocation
  }

  ghost predicate NotifiedOne(before: Spec.Ctx, after: Spec.Ctx, k: nat, r: Reg, depth: nat)
    requires k < |before.stack|
  {
    after == before.(stack := before.stack[k := Spec.NotifyOne(before.stack[k], before.next, r, depth).0],
                     next := Spec.NotifyOne(before.stack[k], before.next, r, depth).1)
  }

  method NotifyWrite(ctx: Context, k: nat, register: Reg, depth: nat)
    requires Registered(ctx) && register < ctx.registerCount && k < |ctx.registerAccessNotificationStack|
    modifies ctx, ctx.registerAccessNotificationStack
    ensures ctx.operations == old(ctx.operations)
    ensures ctx.registerAccessNotificationStack == old(ctx.registerAccessNotificationStack)
    ensures Registered(ctx) && old(ctx.registerCount) <= ctx.registerCount
    ensures NotifiedOne(old(View(ctx)), View(ctx), k, register, depth)
  {
    ghost var before := View(ctx);
    ghost var operations, registers := |ctx.operations|, ctx.registerCount;
    var stack := ctx.registerAccessNotificationStack;
    ghost var held := Held(stack);
    HeldNow(ctx);
    var c := stack[k];
    c.NotifyWrite(register, depth);
    OthersStay(ctx, k, held, operations, registers);
  }

  /** Every object hears of a write, the outermost first. */
  method NotifyWrites(ctx: Context, register: Reg, depth: nat)
    requires Registered(ctx) && register < ctx.registerCount
    modifies ctx, ctx.registerAccessNotificationStack
    ensures ctx.operations == old(ctx.operations)
    ensures ctx.registerAccessNotificationStack == old(ctx.registerAccessNotificationStack)
    ensures Registered(ctx) && old(ctx.registerCount) <= ctx.registerCount
    ensures View(ctx) == Spec.Notify(old(View(ctx)), register, depth)
  {
    ghost var before := View(ctx);
    var stack := ctx.registerAccessNotificationStack;
    for k := 0 to |stack|
      invariant ctx.operations == old(ctx.operations) && ctx.registerAccessNotificationStack == stack
      invariant ctx.predicateStack == before.preds
      invariant Registered(ctx) && old(ctx.registerCount) <= ctx.registerCount
      invariant NotifiedSoFar(before, k, register, depth, View(ctx).stack, ctx.registerCount)
    {
      NotifyOneMore(before, k, register, depth, View(ctx).stack, ctx.registerCount);
      NotifyWrite(ctx, k, register, depth);
    }
    NotifiedAll(before, register, depth, View(ctx).stack, ctx.registerCount);
  }

  lemma NotifiedAll(before: Spec.Ctx, r: Reg, depth: nat, stack: seq<Spec.Clu>, next: nat)
    requires NotifiedSoFar(before, |before.stack|, r, depth, stack, next)
    ensures Spec.Notify(before, r, depth) == before.(stack := stack, next := next)
  {
    assert before.stack[..|before.stack|] == before.stack && stack[..|stack|] == stack;
  }

  method BeginCase(ctx: Context, predicateRegister: Reg, mode: Spec.Mode, ghost r: (seq<Op>, Spec.Ctx))
    requires Registered(ctx) && ctx.registerAccessNotificationStack != []
    requires r == Spec.BeginCase(View(ctx), predicateRegister, mode)
    modifies ctx, ctx.registerAccessNotificationStack
    ensures Registered(ctx) && old(ctx.registerCount) <= ctx.registerCount
    ensures ctx.registerAccessNotificationStack == old(ctx.registerAccessNotificationStack)
    ensures Emits(ctx, old(ctx.operations), r)
  {
    ghost var before := View(ctx);
    ghost var operations, registers := |ctx.operations|, ctx.registerCount;
    var stack := ctx.registerAccessNotificationStack;
    ghost var held := Held(stack);
    HeldNow(ctx);
    var c := stack[|stack| - 1];
    BeginCaseLifts(before, c.State(), predicateRegister, mode);
    c.BeginCase(predicateRegister, mode);
    OthersStay(ctx, |stack| - 1, held, operations, registers);
  }

  method EndCase(ctx: Context, ghost at: nat, ghost v: Spec.Ctx, ghost r: (seq<Op>, Spec.Ctx))
    requires Registered(ctx) && ctx.registerAccessNotificationStack != [] && ctx.predicateStack != []
    requires at == Since(ctx) && v == View(ctx)
    requires r == (Spec.EndOps(Spec.Top(v), v.next, {}), Spec.AfterCase(v, at))
    modifies ctx, ctx.registerAccessNotificationStack
    ensures Registered(ctx) && old(ctx.registerCount) <= ctx.registerCount
    ensures ctx.registerAccessNotificationStack == old(ctx.registerAccessNotificationStack)
    ensures Emits(ctx, old(ctx.operations), r)
  {
    ghost var before := View(ctx);
    ghost var operations, registers := |ctx.operations|, ctx.registerCount;
    var stack := ctx.registerAccessNotificationStack;
    ghost var held := Held(stack);
    HeldNow(ctx);
    var c := stack[|stack| - 1];
    AfterCaseLifts(before, c.State(), |c.Emitted()|);
    c.EndCase();
    OthersStay(ctx, |stack| - 1, held, operations, registers);
  }

  /** Creates the object of a conditional: the context opens it. */
  method Open(ctx: Context) returns (c: Object)
    requires Registered(ctx)
    modifies ctx
    ensures fresh(c) && ctx.operations == old(ctx.operations) && ctx.registerCount == old(ctx.registerCount)
    ensures ctx.registerAccessNotificationStack == old(ctx.registerAccessNotificationStack) + [c]
    ensures c.context == ctx && c.backupInsertLocation == |ctx.operations|
    ensures Registered(ctx) && View(ctx) == Opened(old(View(ctx)))
  {
    ghost var stack := ctx.registerAccessNotificationStack;
    ghost var held := Held(stack);
    HeldNow(ctx);
    c := new Objects.ConditionalLocalUpdates(ctx);
    NewIsLast(ctx, stack, held, c, |ctx.operations|, ctx.registerCount);
  }

  lemma NewIsLast(ctx: Context, stack: seq<Object>, held: seq<Objects.Tracked>, c: Object, operations: nat,
                  registers: nat)
    requires ctx.registerAccessNotificationStack == stack + [c] && HeldFits(stack, held, operations, registers)
    requires operations == |ctx.operations| && registers == ctx.registerCount
    requires forall i :: 0 <= i < |stack| ==> stack[i].context == ctx && stack[i] != c && stack[i].Fields() == held[i]
    requires c.context == ctx && c.Valid()
    ensures Registered(ctx) && View(ctx).stack == States(held) + [c.State()]
  {
    assert Held(stack + [c]) == held + [c.Fields()];
  }

  /** Destroys the object of the innermost conditional, which closes it. */
  method Close(ctx: Context, complete: bool, ghost start: seq<Op>, ghost r: (seq<Op>, Spec.Ctx))
    requires Registered(ctx) && ctx.registerAccessNotificationStack != []
    requires Last(ctx).backupInsertLocation == |start| && Emits(ctx, start, r) && r.1.stack != []
    modifies ctx
    ensures var stack := old(ctx.registerAccessNotificationStack);
      ctx.registerAccessNotificationStack == stack[..|stack| - 1]
    ensures ctx.registerCount == old(ctx.registerCount)
    ensures Registered(ctx) && Emits(ctx, start, (EmitCond(r.0, complete, r.1), Closed(r.1)))
  {
    ghost var held, operations, registers :=
      Held(ctx.registerAccessNotificationStack), |ctx.operations|, ctx.registerCount;
    HeldNow(ctx);
    var stack := ctx.registerAccessNotificationStack;
    var c := stack[|stack| - 1];
    SplitAt(start, r.0);
    EmitCondIsLonger(r.0, complete, r.1);
    if complete { c.SetComplete(); }
    c.Destroy();
    OuterRemain(ctx, stack, held, operations, registers);
  }

  lemma EmitCondIsLonger(ops: seq<Op>, complete: bool, ctx: Spec.Ctx)
    requires ctx.stack != []
    ensures |EmitCond(ops, complete, ctx)| >= |ops|
  {
    Frame.SetCompleteWrites(ops, Spec.Top(ctx), ctx.next, 0);
  }

  lemma OuterRemain(ctx: Context, stack: seq<Object>, held: seq<Objects.Tracked>, operations: nat, registers: nat)
    requires stack != [] && ctx.registerAccessNotificationStack == stack[..|stack| - 1]
    requires HeldFits(stack, held, operations, registers)
    requires operations <= |ctx.operations| && registers == ctx.registerCount
    requires forall i :: 0 <= i < |stack| - 1 ==> stack[i].context == ctx && stack[i].Fields() == held[i]
    ensures Registered(ctx) && View(ctx).stack == States(held)[..|stack| - 1]
  {
    var outer := stack[..|stack| - 1];
    forall i | 0 <= i < |outer|
      ensures outer[i].Valid()
    {
      Objects.StillFits(held[i], outer[i].backupInsertLocation, operations, registers, |ctx.operations|, registers);
    }
    assert Held(outer) == held[..|outer|];
  }

  // ---- Walking the program ----

  /** What the walk relies on: names are below base, and so are not among the registers it allocates. */
  ghost predicate Ready(ctx: Context, env: Env, base: nat)
    reads ctx, ctx.registerAccessNotificationStack
  {
    Registered(ctx) && base <= ctx.registerCount && Below(env, base)
  }

  ghost predicate Below(env: Env, base: nat) { forall r :: r in env ==> r < base }

  lemma Joined(start: seq<Op>, a: seq<Op>, b: seq<Op>)
    ensures start + a + b == start + (a + b)
  {
  }

  lemma SplitAt(start: seq<Op>, ops: seq<Op>)
    ensures (start + ops)[..|start|] == start && (start + ops)[|start|..] == ops
  {
  }

  lemma EmitsBoth(ctx: Context, start: seq<Op>, middle: seq<Op>, one: (seq<Op>, Spec.Ctx), more: (seq<Op>, Spec.Ctx),
                  all: (seq<Op>, Spec.Ctx))
    requires middle == start + one.0 && Emits(ctx, middle, more) && all == (one.0 + more.0, more.1)
    ensures Emits(ctx, start, all)
  {
    Joined(start, one.0, more.0);
  }

  lemma EmitThen(first: Stmt, rest: Program, env: Env, v: Spec.Ctx, one: (seq<Op>, Spec.Ctx), more: (seq<Op>, Spec.Ctx))
    requires one == EmitStmt(first, env, v) && more == Emit(rest, EnvAfter(first, env, |v.stack|), one.1)
    ensures Emit(Then(first, rest), env, v) == (one.0 + more.0, more.1)
  {
  }

  lemma ScopedThen(first: Stmt, rest: Program, env: Env, depth: nat, base: nat)
    requires Scoped(Then(first, rest), env, depth, base) && Below(env, base)
    ensures ScopedStmt(first, env, depth, base) && Scoped(rest, EnvAfter(first, env, depth), depth, base)
    ensures Below(EnvAfter(first, env, depth), base)
  {
  }

  method GenerateProgram(p: Program, env: Env, ctx: Context, ghost base: nat, ghost r: (seq<Op>, Spec.Ctx))
    requires Ready(ctx, env, base) && Scoped(p, env, |ctx.registerAccessNotificationStack|, base)
    requires r == Emit(p, env, View(ctx))
    modifies ctx, ctx.registerAccessNotificationStack
    ensures Registered(ctx) && old(ctx.registerCount) <= ctx.registerCount
    ensures ctx.registerAccessNotificationStack == old(ctx.registerAccessNotificationStack)
    ensures Emits(ctx, old(ctx.operations), r)
    decreases p, 0
  {
    match p
    case Skip =>
    case Then(first, rest) =>
      var depth := ctx.GetConditionStackDepth();
      ghost var start, v := ctx.operations, View(ctx);
      ghost var one := EmitStmt(first, env, v);
      ghost var more := Emit(rest, EnvAfter(first, env, depth), one.1);
      ScopedThen(first, rest, env, depth, base);
      EmitThen(first, rest, env, v, one, more);
      GenerateStmt(first, env, ctx, base, one);
      ghost var middle := ctx.operations;
      GenerateProgram(rest, EnvAfter(first, env, depth), ctx, base, more);
      EmitsBoth(ctx, start, middle, one, more, r);
  }

  method GenerateStmt(st: Stmt, env: Env, ctx: Context, ghost base: nat, ghost r: (seq<Op>, Spec.Ctx))
    requires Ready(ctx, env, base) && ScopedStmt(st, env, |ctx.registerAccessNotificationStack|, base)
    requires r == EmitStmt(st, env, View(ctx))
    modifies ctx, ctx.registerAccessNotificationStack
    ensures Registered(ctx) && old(ctx.registerCount) <= ctx.registerCount
    ensures ctx.registerAccessNotificationStack == old(ctx.registerAccessNotificationStack)
    ensures Emits(ctx, old(ctx.operations), r)
    decreases st, 0
  {
    match st
    case Declare(dst, f, srcs) => Append(ctx, Compute(dst, f, srcs));
    case Assign(dst, f, srcs) =>
      NotifyWrites(ctx, dst, Depth(env, dst));
      Append(ctx, Compute(dst, f, srcs));
    case Load(dst, source) =>
      NotifyWrites(ctx, dst, Depth(env, dst));
      Append(ctx, ReadGlobal(dst, source));
    case Store(target, value) =>
      var guard := if ctx.predicateStack == [] then None else Some(ctx.predicateStack[|ctx.predicateStack| - 1]);
      Append(ctx, WriteGlobal(target, value, guard));
    case Cond(cases, complete) =>
      GenerateConditional(cases, complete, env, ctx, base, r);
  }

  method Append(ctx: Context, op: Op)
    requires Registered(ctx)
    modifies ctx`operations
    ensures Registered(ctx) && View(ctx) == old(View(ctx)) && ctx.operations == old(ctx.operations) + [op]
  {
    ghost var stack := ctx.registerAccessNotificationStack;
    ghost var held, operations, registers := Held(stack), |ctx.operations|, ctx.registerCount;
    HeldNow(ctx);
    ctx.operations := ctx.operations + [op];
    AllStay(ctx, held, operations, registers);
  }

  lemma EmitCondIs(cases: CaseList, complete: bool, env: Env, v: Spec.Ctx, r: (seq<Op>, Spec.Ctx))
    requires r == EmitCases(cases, env, 0, Opened(v), {})
    ensures r.1.stack != [] && r.1.preds == v.preds
    ensures EmitStmt(Cond(cases, complete), env, v) == (EmitCond(r.0, complete, r.1), Closed(r.1))
  {
  }

  method GenerateConditional(cases: CaseList, complete: bool, env: Env, ctx: Context, ghost base: nat,
                             ghost r: (seq<Op>, Spec.Ctx))
    requires Ready(ctx, env, base) && ScopedCases(cases, env, |ctx.registerAccessNotificationStack| + 1, base)
    requires r == EmitStmt(Cond(cases, complete), env, View(ctx))
    modifies ctx, ctx.registerAccessNotificationStack
    ensures Registered(ctx) && old(ctx.registerCount) <= ctx.registerCount
    ensures ctx.registerAccessNotificationStack == old(ctx.registerAccessNotificationStack)
    ensures Emits(ctx, old(ctx.operations), r)
    decreases cases, 2
  {
    ghost var v := View(ctx);
    ghost var all := EmitCases(cases, env, 0, Opened(v), {});
    EmitCondIs(cases, complete, env, v, all);
    GenerateWithObject(cases, complete, env, ctx, base, all);
  }

  /** The object lives from before the first case until after the last. */
  method GenerateWithObject(cases: CaseList, complete: bool, env: Env, ctx: Context, ghost base: nat,
                            ghost r: (seq<Op>, Spec.Ctx))
    requires Ready(ctx, env, base) && ScopedCases(cases, env, |ctx.registerAccessNotificationStack| + 1, base)
    requires r == EmitCases(cases, env, 0, Opened(View(ctx)), {}) && r.1.stack != []
    modifies ctx, ctx.registerAccessNotificationStack
    ensures Registered(ctx) && old(ctx.registerCount) <= ctx.registerCount
    ensures ctx.registerAccessNotificationStack == old(ctx.registerAccessNotificationStack)
    ensures Emits(ctx, old(ctx.operations), (EmitCond(r.0, complete, r.1), Closed(r.1)))
    decreases cases, 1
  {
    ghost var start := ctx.operations;
    var c := Open(ctx);
    GenerateCases(cases, env, ctx, base, 0, r);
    Close(ctx, complete, start, r);
  }

  lemma EmitCasesThen(cases: CaseList, env: Env, at: nat, v: Spec.Ctx, one: (seq<Op>, Spec.Ctx),
                      more: (seq<Op>, Spec.Ctx))
    requires cases.Case? && v.stack != []
    requires one == EmitCase(cases.predicate_, cases.mode, cases.body, env, at, v, {}) && one.1.stack != []
    requires more == EmitCases(cases.others, env, at + |one.0|, one.1, {})
    ensures EmitCases(cases, env, at, v, {}) == (one.0 + more.0, more.1)
  {
  }

  method GenerateCases(cases: CaseList, env: Env, ctx: Context, ghost base: nat, ghost at: nat,
                       ghost r: (seq<Op>, Spec.Ctx))
    requires Ready(ctx, env, base) && ctx.registerAccessNotificationStack != []
    requires ScopedCases(cases, env, |ctx.registerAccessNotificationStack|, base)
    requires at == Since(ctx) && r == EmitCases(cases, env, at, View(ctx), {})
    modifies ctx, ctx.registerAccessNotificationStack
    ensures Registered(ctx) && old(ctx.registerCount) <= ctx.registerCount
    ensures ctx.registerAccessNotificationStack == old(ctx.registerAccessNotificationStack)
    ensures Emits(ctx, old(ctx.operations), r)
    decreases cases, 0
  {
    match cases
    case NoMore =>
    case Case(p, mode, body, others) =>
      ghost var start, v := ctx.operations, View(ctx);
      ghost var one := EmitCase(p, mode, body, env, at, v, {});
      ghost var more := EmitCases(others, env, at + |one.0|, one.1, {});
      EmitCasesThen(cases, env, at, v, one, more);
      GenerateCase(p, mode, body, env, ctx, base, at, one);
      ghost var middle := ctx.operations;
      GenerateCases(others, env, ctx, base, at + |one.0|, more);
      EmitsBoth(ctx, start, middle, one, more, r);
  }

  lemma EmitCaseIs(p: Reg, mode: Spec.Mode, body: Program, env: Env, at: nat, v: Spec.Ctx, begin: (seq<Op>, Spec.Ctx),
                   inner: (seq<Op>, Spec.Ctx))
    requires v.stack != [] && begin == Spec.BeginCase(v, p, mode) && inner == Emit(body, env, begin.1)
    requires inner.1.stack != [] && inner.1.preds != []
    ensures EmitCase(p, mode, body, env, at, v, {}) ==
            (begin.0 + inner.0 + Spec.EndOps(Spec.Top(inner.1), inner.1.next, {}),
             Spec.AfterCase(inner.1, at + |begin.0 + inner.0|))
  {
  }

  lemma PushedAndKept(p: Reg, mode: Spec.Mode, v: Spec.Ctx)
    requires v.stack != []
    ensures |Spec.BeginCase(v, p, mode).1.stack| == |v.stack| && Spec.BeginCase(v, p, mode).1.preds != []
  {
  }

  /** A case up to the end of its body. */
  method GenerateBody(p: Reg, mode: Spec.Mode, body: Program, env: Env, ctx: Context, ghost base: nat, ghost at: nat,
                      ghost begin: (seq<Op>, Spec.Ctx), ghost inner: (seq<Op>, Spec.Ctx))
    requires Ready(ctx, env, base) && ctx.registerAccessNotificationStack != []
    requires Scoped(body, env, |ctx.registerAccessNotificationStack|, base)
    requires at == Since(ctx) && begin == Spec.BeginCase(View(ctx), p, mode) && inner == Emit(body, env, begin.1)
    modifies ctx, ctx.registerAccessNotificationStack
    ensures Registered(ctx) && old(ctx.registerCount) <= ctx.registerCount
    ensures ctx.registerAccessNotificationStack == old(ctx.registerAccessNotificationStack)
    ensures Emits(ctx, old(ctx.operations), (begin.0 + inner.0, inner.1)) && Since(ctx) == at + |begin.0 + inner.0|
    decreases body, 1
  {
    ghost var start := ctx.operations;
    BeginCase(ctx, p, mode, begin);
    GenerateProgram(body, env, ctx, base, inner);
    Joined(start, begin.0, inner.0);
  }

  method GenerateCase(p: Reg, mode: Spec.Mode, body: Program, env: Env, ctx: Context, ghost base: nat, ghost at: nat,
                      ghost r: (seq<Op>, Spec.Ctx))
    requires Ready(ctx, env, base) && ctx.registerAccessNotificationStack != []
    requires Scoped(body, env, |ctx.registerAccessNotificationStack|, base)
    requires at == Since(ctx) && r == EmitCase(p, mode, body, env, at, View(ctx), {})
    modifies ctx, ctx.registerAccessNotificationStack
    ensures Registered(ctx) && old(ctx.registerCount) <= ctx.registerCount
    ensures ctx.registerAccessNotificationStack == old(ctx.registerAccessNotificationStack)
    ensures Emits(ctx, old(ctx.operations), r) && Since(ctx) == at + |r.0|
    decreases body, 2
  {
    ghost var start, v := ctx.operations, View(ctx);
    PushedAndKept(p, mode, v);
    ghost var begin := Spec.BeginCase(v, p, mode);
    ghost var inner := Emit(body, env, begin.1);
    EmitCaseIs(p, mode, body, env, at, v, begin, inner);
    GenerateBody(p, mode, body, env, ctx, base, at, begin, inner);
    ghost var end := (Spec.EndOps(Spec.Top(inner.1), inner.1.next, {}),
                      Spec.AfterCase(inner.1, at + |begin.0 + inner.0|));
    Joined(start, begin.0 + inner.0, end.0);
    EndCase(ctx, at + |begin.0 + inner.0|, inner.1, end);
  }

  /** A whole program, from a context of its own: the operations the nested objects leave behind, run in a straight
      line, do what running only the taken cases does. */
  method Generate(p: Program, env: Env, base: nat) returns (operations: seq<Op>)
    requires Frame.EnvOk(env, 0, base) && Scoped(p, env, 0, base)
    ensures operations == Emit(p, env, Spec.Ctx(base, [], [])).0
    ensures forall s: State :: Exclusive(p, s) ==>
              Proof.Agree(EnvAtEnd(p, env, 0), Exec(p, s), Run(operations, s))
  {
    var ctx := new Objects.IRContext(base);
    GenerateProgram(p, env, ctx, base, Emit(p, env, View(ctx)));
    operations := ctx.operations;
    assert operations == Emit(p, env, Spec.Ctx(base, [], [])).0;
    EmittedIsRight(p, env, base, operations);
  }

  lemma EmittedIsRight(p: Program, env: Env, base: nat, operations: seq<Op>)
    requires Frame.EnvOk(env, 0, base) && Scoped(p, env, 0, base)
    requires operations == Emit(p, env, Spec.Ctx(base, [], [])).0
    ensures forall s: State :: Exclusive(p, s) ==>
              Proof.Agree(EnvAtEnd(p, env, 0), Exec(p, s), Run(operations, s))
  {
    forall s: State | Exclusive(p, s)
      ensures Proof.Agree(EnvAtEnd(p, env, 0), Exec(p, s), Run(operations, s))
    {
      Correct.IfConversionPreservesMeaning(p, env, base, s);
    }
  }
}
