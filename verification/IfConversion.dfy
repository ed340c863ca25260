/** Programs with nested conditionals, what they mean, and the straight-line operations emitted for them. */
module IfConversion {
  import opened Wrappers
  import opened Ir
  import opened LocalUpdatesSpec

  datatype Program = Skip | Then(first: Stmt, rest: Program)

  datatype Stmt =
    | Declare(dst: Reg, f: seq<int> -> int, srcs: seq<Reg>)  // a new local
    | Assign(dst: Reg, f: seq<int> -> int, srcs: seq<Reg>)   // a visible local
    | Load(dst: Reg, source: nat)                            // a visible local from a global
    | Store(target: nat, value: Reg)                         // a global from a local
    | Cond(cases: CaseList, complete: bool)                  // mutually exclusive cases

  datatype CaseList = NoMore | Case(predicate_: Reg, mode: Mode, body: Program, others: CaseList)

  /** Visible locals, each with the number of conditionals open where it was declared. */
  type Env = map<Reg, nat>

  // ---- Meaning: only the taken case runs ----

  predicate Taken(p: Reg, mode: Mode, s: State) { (Get(s, p) != 0) == (mode == Normal) }

  function Exec(p: Program, s: State): State {
    match p
    case Skip => s
    case Then(first, rest) => Exec(rest, ExecStmt(first, s))
  }

  function ExecStmt(st: Stmt, s: State): State {
    match st
    case Declare(dst, f, srcs) => Put(s, dst, f(GetAll(s, srcs)))
    case Assign(dst, f, srcs) => Put(s, dst, f(GetAll(s, srcs)))
    case Load(dst, g) => Put(s, dst, GetGlobal(s, g))
    case Store(g, r) => PutGlobal(s, g, Get(s, r))
    case Cond(cases, _) => ExecCases(cases, s)
  }

  function ExecCases(cases: CaseList, s: State): State {
    match cases
    case NoMore => s
    case Case(p, mode, body, others) => if Taken(p, mode, s) then Exec(body, s) else ExecCases(others, s)
  }

  function TakenCount(cases: CaseList, s: State): nat {
    match cases
    case NoMore => 0
    case Case(p, mode, _, others) => (if Taken(p, mode, s) then 1 else 0) + TakenCount(others, s)
  }

  /** Wherever execution meets a conditional, at most one case is taken, and exactly one if it is complete. */
  predicate Exclusive(p: Program, s: State) {
    match p
    case Skip => true
    case Then(first, rest) => ExclusiveStmt(first, s) && Exclusive(rest, ExecStmt(first, s))
  }

  predicate ExclusiveStmt(st: Stmt, s: State) {
    match st
    case Cond(cases, complete) =>
      TakenCount(cases, s) <= 1 && (complete ==> TakenCount(cases, s) == 1) && ExclusiveCases(cases, s)
    case _ => true
  }

  predicate ExclusiveCases(cases: CaseList, s: State) {
    match cases
    case NoMore => true
    case Case(p, mode, body, others) => (Taken(p, mode, s) ==> Exclusive(body, s)) && ExclusiveCases(others, s)
  }

  // ---- Scoping ----

  predicate Visible(env: Env, rs: seq<Reg>) { forall i :: 0 <= i < |rs| ==> rs[i] in env }

  function EnvAfter(st: Stmt, env: Env, depth: nat): Env {
    if st.Declare? then env[st.dst := depth] else env
  }

  function EnvAtEnd(p: Program, env: Env, depth: nat): Env {
    match p
    case Skip => env
    case Then(first, rest) => EnvAtEnd(rest, EnvAfter(first, env, depth), depth)
  }

  /** Names are declared before use, never redeclared while visible, and all lie below `base`. */
  predicate Scoped(p: Program, env: Env, depth: nat, base: nat) {
    match p
    case Skip => true
    case Then(first, rest) => ScopedStmt(first, env, depth, base) &&
                              Scoped(rest, EnvAfter(first, env, depth), depth, base)
  }

  predicate ScopedStmt(st: Stmt, env: Env, depth: nat, base: nat) {
    match st
    case Declare(dst, _, srcs) => dst !in env && dst < base && Visible(env, srcs)
    case Assign(dst, _, srcs) => dst in env && Visible(env, srcs)
    case Load(dst, _) => dst in env
    case Store(_, r) => r in env
    case Cond(cases, _) => ScopedCases(cases, env, depth + 1, base)
  }

  predicate ScopedCases(cases: CaseList, env: Env, depth: nat, base: nat) {
    match cases
    case NoMore => true
    case Case(p, _, body, others) => p in env && Scoped(body, env, depth, base) && ScopedCases(others, env, depth, base)
  }

  // ---- The emitted operations ----

  function Depth(env: Env, r: Reg): nat { if r in env then env[r] else 0 }

  function Guard(ctx: Ctx): Option<Reg> {
    if ctx.preds == [] then None else Some(ctx.preds[|ctx.preds| - 1])
  }

  function Opened(ctx: Ctx): (r: Ctx)
    ensures r.stack != []
  {
    ctx.(stack := ctx.stack + [Clu(|ctx.stack| + 1, 0, 0, Normal, map[], [])])
  }

  function Closed(ctx: Ctx): Ctx
    requires ctx.stack != []
  {
    ctx.(stack := ctx.stack[..|ctx.stack| - 1])
  }

  function Emit(p: Program, env: Env, ctx: Ctx): (r: (seq<Op>, Ctx))
    ensures r.1.preds == ctx.preds && |r.1.stack| == |ctx.stack|
    decreases p, 0
  {
    match p
    case Skip => ([], ctx)
    case Then(first, rest) =>
      var (ops, ctx1) := EmitStmt(first, env, ctx);
      var (more, ctx2) := Emit(rest, EnvAfter(first, env, |ctx.stack|), ctx1);
      (ops + more, ctx2)
  }

  function EmitStmt(st: Stmt, env: Env, ctx: Ctx): (r: (seq<Op>, Ctx))
    ensures r.1.preds == ctx.preds && |r.1.stack| == |ctx.stack|
    decreases st, 0
  {
    NotifyLength(ctx.stack, ctx.next, if st.Assign? || st.Load? then st.dst else 0,
                 if st.Assign? || st.Load? then Depth(env, st.dst) else 0);
    match st
    case Declare(dst, f, srcs) => ([Compute(dst, f, srcs)], ctx)
    case Assign(dst, f, srcs) => ([Compute(dst, f, srcs)], Notify(ctx, dst, Depth(env, dst)))
    case Load(dst, g) => ([ReadGlobal(dst, g)], Notify(ctx, dst, Depth(env, dst)))
    case Store(g, r) => ([WriteGlobal(g, r, Guard(ctx))], ctx)
    case Cond(cases, complete) =>
      var (ops, ctx1) := EmitCases(cases, env, 0, Opened(ctx), {});
      (EmitCond(ops, complete, ctx1), Closed(ctx1))
  }

  /** The whole conditional: backups, the cases, and the final copies. */
  function EmitCond(ops: seq<Op>, complete: bool, ctx: Ctx): seq<Op>
    requires ctx.stack != []
  {
    Finish(if complete then SetComplete(ops, Top(ctx), ctx.next) else ops, Top(ctx), ctx.next)
  }

  /** The operations of the cases, `at` operations after the object was created. The compiler emits them with
      `replaced` empty; with another set they are what SetComplete leaves. */
  function EmitCases(cases: CaseList, env: Env, at: nat, ctx: Ctx, replaced: set<Reg>): (r: (seq<Op>, Ctx))
    requires ctx.stack != []
    ensures r.1.preds == ctx.preds && |r.1.stack| == |ctx.stack|
    decreases cases, 0
  {
    match cases
    case NoMore => ([], ctx)
    case Case(p, mode, body, others) =>
      var (ops, ctx1) := EmitCase(p, mode, body, env, at, ctx, replaced);
      var (more, ctx2) := EmitCases(others, env, at + |ops|, ctx1, replaced);
      (ops + more, ctx2)
  }

  function EmitCase(p: Reg, mode: Mode, body: Program, env: Env, at: nat, ctx: Ctx, replaced: set<Reg>)
    : (r: (seq<Op>, Ctx))
    requires ctx.stack != []
    ensures r.1.preds == ctx.preds && |r.1.stack| == |ctx.stack|
    decreases body, 1
  {
    var (begin, ctx1) := BeginCase(ctx, p, mode);
    var (inner, ctx2) := Emit(body, env, ctx1);
    (begin + inner + EndOps(Top(ctx2), ctx2.next, if Top(ctx).current == 0 then replaced else {}),
     AfterCase(ctx2, at + |begin| + |inner|))
  }

  lemma {:induction false} NotifyLength(stack: seq<Clu>, next: nat, r: Reg, depth: nat)
    ensures |NotifyAll(stack, next, r, depth).0| == |stack|
  {
    if stack != [] { NotifyLength(stack[..|stack| - 1], next, r, depth); }
  }
}
