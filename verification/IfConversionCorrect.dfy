/** If-conversion preserves meaning, for arbitrarily nested conditionals. */
module IfConversionCorrect {
  import opened Wrappers
  import opened Ir
  import opened LocalUpdatesSpec
  import opened LocalUpdatesEffect
  import opened LocalUpdatesFrame
  import opened IfConversion
  import opened IfConversionFrame
  import opened IfConversionComplete
  import opened IfConversionProof
  import opened IfConversionCase

  /** The selected values when no case has been taken yet. Replaced registers lose theirs in the first case. */
  ghost predicate NotTaken(all: map<Reg, Updated>, replaced: set<Reg>, k: nat, t0: State, t: State) {
    t.globals == t0.globals && forall r :: r in all && (r !in replaced || k == 0) ==> Get(t, all[r].value) == Get(t0, r)
  }

  /** The selected values once a case has been taken with outcome s. */
  ghost predicate WasTaken(env: Env, all: map<Reg, Updated>, t0: State, t: State, s: State) {
    && t.globals == s.globals
    && (forall r :: r in all ==> Get(t, all[r].value) == Get(s, r))
    && (forall r :: r in env && r !in all ==> Get(s, r) == Get(t0, r))
  }

  /** What holds before case k. t0 is the state when the object was created, t the current one, `taken` the
      outcome of the taken case among those already emitted, if any. */
  ghost predicate CaseInv(env: Env, all: map<Reg, Updated>, replaced: set<Reg>, k: nat, t0: State, t: State,
                          taken: Option<State>) {
    && (forall r :: r in env ==> Get(t, r) == Get(t0, r))
    && (forall r :: r in all ==> r in env && Get(t, all[r].backup) == Get(t0, r))
    && (taken.None? ==> NotTaken(all, replaced, k, t0, t))
    && (taken.Some? ==> k > 0 && WasTaken(env, all, t0, t, taken.value))
  }

  /** The registers every case writes. */
  ghost predicate AlwaysWritten(c: Clu, replaced: set<Reg>) { forall r :: r in replaced ==> WrittenNow(c, r) }

  lemma CaseStepTaken(env: Env, now: Ctx, p: Reg, mode: Mode, inner: seq<Op>, ctx2: Ctx, all: map<Reg, Updated>,
                      replaced: set<Reg>, base: nat, t0: State, t: State, t1: State, t2: State, t3: State, s2: State)
    requires CaseSetting(env, now, p, mode, inner, ctx2, base) && PartOf(Top(ctx2).updated, all, ctx2.next)
    requires Fresh(all, base)
    requires AlwaysWritten(Top(ctx2), replaced)
    requires CaseStates(now, p, mode, inner, ctx2, Replaced(now, replaced), t, t1, t2, t3)
    requires CaseInv(env, all, replaced, Top(now).current, t0, t, None)
    requires Taken(p, mode, t) && Agree(env, s2, t2)
    ensures WasTaken(env, all, t0, t3, s2)
  {
    var R := Replaced(now, replaced);
    forall r | r in env
      ensures !WrittenNow(Top(ctx2), r) ==> Get(s2, r) == Get(t0, r)
    {
      CaseRestores(env, now, p, mode, inner, ctx2, R, base, t, t1, t2, t3, r);
    }
    forall r | r in all
      ensures Get(t3, all[r].value) == Get(s2, r)
    {
      CaseSelects(env, now, p, mode, inner, ctx2, R, base, t, t1, t2, t3, all, r);
    }
    EndNoGlobals(Top(ctx2), ctx2.next, R);
    GlobalsKept(EndOps(Top(ctx2), ctx2.next, R), t2);
  }

  lemma CaseStepNotTaken(env: Env, now: Ctx, p: Reg, mode: Mode, inner: seq<Op>, ctx2: Ctx, all: map<Reg, Updated>,
                         replaced: set<Reg>, base: nat, t0: State, t: State, t1: State, t2: State, t3: State,
                         taken: Option<State>)
    requires CaseSetting(env, now, p, mode, inner, ctx2, base) && PartOf(Top(ctx2).updated, all, ctx2.next)
    requires Fresh(all, base)
    requires CaseStates(now, p, mode, inner, ctx2, Replaced(now, replaced), t, t1, t2, t3)
    requires CaseInv(env, all, replaced, Top(now).current, t0, t, taken)
    requires !Taken(p, mode, t) && t2.globals == t.globals
    ensures taken.None? ==> NotTaken(all, replaced, Top(now).current + 1, t0, t3)
    ensures taken.Some? ==> WasTaken(env, all, t0, t3, taken.value)
  {
    var R := Replaced(now, replaced);
    forall r | r in all
      ensures r !in R ==> Get(t3, all[r].value) == Get(t, all[r].value)
    {
      CaseSelects(env, now, p, mode, inner, ctx2, R, base, t, t1, t2, t3, all, r);
    }
    EndNoGlobals(Top(ctx2), ctx2.next, R);
    GlobalsKept(EndOps(Top(ctx2), ctx2.next, R), t2);
  }

  lemma CaseStepLocals(env: Env, now: Ctx, p: Reg, mode: Mode, inner: seq<Op>, ctx2: Ctx, all: map<Reg, Updated>,
                       replaced: set<Reg>, base: nat, t0: State, t: State, t1: State, t2: State, t3: State,
                       taken: Option<State>)
    requires CaseSetting(env, now, p, mode, inner, ctx2, base) && PartOf(Top(ctx2).updated, all, ctx2.next)
    requires Fresh(all, base)
    requires CaseStates(now, p, mode, inner, ctx2, Replaced(now, replaced), t, t1, t2, t3)
    requires CaseInv(env, all, replaced, Top(now).current, t0, t, taken)
    ensures forall r :: r in env ==> Get(t3, r) == Get(t0, r)
    ensures forall r :: r in all ==> Get(t3, all[r].backup) == Get(t0, r)
  {
    var R := Replaced(now, replaced);
    forall r | r in env
      ensures Get(t3, r) == Get(t0, r)
    {
      CaseRestores(env, now, p, mode, inner, ctx2, R, base, t, t1, t2, t3, r);
    }
    forall r | r in all
      ensures Get(t3, all[r].backup) == Get(t0, r)
    {
      CaseKeepsBackup(env, now, p, mode, inner, ctx2, R, base, t, t1, t2, t3, all, r);
    }
  }

  /** One case keeps the invariant. */
  lemma CaseStep(env: Env, now: Ctx, p: Reg, mode: Mode, inner: seq<Op>, ctx2: Ctx, all: map<Reg, Updated>,
                 replaced: set<Reg>, base: nat, t0: State, t: State, t1: State, t2: State, t3: State,
                 taken: Option<State>, s2: State)
    requires CaseSetting(env, now, p, mode, inner, ctx2, base) && PartOf(Top(ctx2).updated, all, ctx2.next)
    requires Fresh(all, base)
    requires AlwaysWritten(Top(ctx2), replaced)
    requires CaseStates(now, p, mode, inner, ctx2, Replaced(now, replaced), t, t1, t2, t3)
    requires CaseInv(env, all, replaced, Top(now).current, t0, t, taken)
    requires Taken(p, mode, t) ==> taken.None? && Agree(env, s2, t2)
    requires !Taken(p, mode, t) ==> t2.globals == t.globals
    ensures CaseInv(env, all, replaced, Top(now).current + 1, t0, t3, if Taken(p, mode, t) then Some(s2) else taken)
  {
    CaseStepLocals(env, now, p, mode, inner, ctx2, all, replaced, base, t0, t, t1, t2, t3, taken);
    if Taken(p, mode, t) {
      CaseStepTaken(env, now, p, mode, inner, ctx2, all, replaced, base, t0, t, t1, t2, t3, s2);
    } else {
      CaseStepNotTaken(env, now, p, mode, inner, ctx2, all, replaced, base, t0, t, t1, t2, t3, taken);
    }
  }

  // ---- Small facts ----

  lemma {:induction false} EnvGrows(p: Program, env: Env, depth: nat)
    ensures forall r :: r in env ==> r in EnvAtEnd(p, env, depth)
    decreases p
  {
    match p
    case Skip =>
    case Then(first, rest) => EnvGrows(rest, EnvAfter(first, env, depth), depth);
  }

  lemma AgreeOnOuter(p: Program, env: Env, depth: nat, s: State, t: State)
    requires Agree(EnvAtEnd(p, env, depth), s, t)
    ensures Agree(env, s, t)
  {
    EnvGrows(p, env, depth);
  }

  lemma {:induction false} NoneTaken(cases: CaseList, s: State)
    requires TakenCount(cases, s) == 0
    ensures ExecCases(cases, s) == s
    decreases cases
  {
    match cases
    case NoMore =>
    case Case(p, mode, body, others) => NoneTaken(others, s);
  }

  lemma ReadsAgree(env: Env, s: State, t: State, srcs: seq<Reg>)
    requires Agree(env, s, t) && Visible(env, srcs)
    ensures GetAll(s, srcs) == GetAll(t, srcs)
  {
  }

  lemma AfterCasePartOf(ctx2: Ctx, at: nat, all: map<Reg, Updated>)
    requires ctx2.stack != [] && ctx2.preds != [] && PartOf(Top(AfterCase(ctx2, at)).updated, all, ctx2.next)
    ensures PartOf(Top(ctx2).updated, all, ctx2.next)
    ensures forall r :: r in Top(AfterCase(ctx2, at)).updated ==>
              r in Top(ctx2).updated && Top(ctx2).updated[r].cases == Top(AfterCase(ctx2, at)).updated[r].cases
  {
    RecordFirstKeeps(Top(ctx2), ctx2.next, at);
  }

  // ---- One case ----

  ghost predicate WrittenIn(u: map<Reg, Updated>, k: nat, replaced: set<Reg>) {
    forall r :: r in replaced ==> r in u && k in u[r].cases
  }

  lemma CaseGlue(env: Env, ctx: Ctx, ops: seq<Op>, now: Ctx, p: Reg, mode: Mode, inner: seq<Op>, ctx2: Ctx, at: nat,
                 replaced: set<Reg>, all: map<Reg, Updated>, one: (seq<Op>, Ctx), base: nat)
    requires EnvOk(env, |ctx.stack|, base) && Inside(env, ctx, ops, now, base) && p in env
    requires |ctx2.stack| == |now.stack| && ctx2.preds != []
    requires Confined(env, BeginCase(now, p, mode).1, inner, ctx2, base)
    requires one == CaseResult(now, p, mode, inner, ctx2, at, Replaced(now, replaced))
    requires one.1.stack != [] && PartOf(Top(one.1).updated, all, one.1.next)
    requires WrittenIn(Top(one.1).updated, Top(now).current, replaced)
    ensures CaseSetting(env, now, p, mode, inner, ctx2, base) && PartOf(Top(ctx2).updated, all, ctx2.next)
    ensures AlwaysWritten(Top(ctx2), replaced)
  {
    var at1 := at + |BeginCase(now, p, mode).0| + |inner|;
    assert one.1 == AfterCase(ctx2, at1);
    AfterCasePartOf(ctx2, at1, all);
    CaseLater(env, now, p, mode, inner, ctx2, at1, base);
  }

  lemma {:induction false} OneCaseCorrect(p: Reg, mode: Mode, body: Program, env: Env, ctx: Ctx, ops: seq<Op>, now: Ctx,
                                          at: nat, replaced: set<Reg>, all: map<Reg, Updated>, one: (seq<Op>, Ctx),
                                          base: nat, s: State, t0: State, t: State, taken: Option<State>)
    requires EnvOk(env, |ctx.stack|, base) && Inside(env, ctx, ops, now, base) && p in env
    requires Scoped(body, env, |ctx.stack| + 1, base)
    requires one == EmitCase(p, mode, body, env, at, now, replaced) && one.1.stack != []
    requires Fresh(all, base) && PartOf(Top(one.1).updated, all, one.1.next)
    requires WrittenIn(Top(one.1).updated, Top(now).current, replaced)
    requires Agree(env, s, t0) && Enabled(now, t) && CaseInv(env, all, replaced, Top(now).current, t0, t, taken)
    requires Taken(p, mode, s) ==> taken.None? && Exclusive(body, s)
    ensures CaseInv(env, all, replaced, Top(now).current + 1, t0, Run(one.0, t),
                    if Taken(p, mode, s) then Some(Exec(body, s)) else taken)
    decreases body, 2
  {
    var inner, ctx2 := CaseBody(p, mode, body, env, ctx, ops, now, at, replaced, base);
    var begin, ctx1 := BeginCase(now, p, mode).0, BeginCase(now, p, mode).1;
    var end := EndOps(Top(ctx2), ctx2.next, Replaced(now, replaced));
    CaseGlue(env, ctx, ops, now, p, mode, inner, ctx2, at, replaced, all, one, base);
    var t1 := Run(begin, t);
    var t2 := Run(inner, t1);
    var t3 := Run(end, t2);
    var s2 := Exec(body, s);
    BeforeBody(env, ctx, ops, now, p, mode, base, s, t0, t, t1, all, replaced, taken);
    BodyOutcome(body, env, ctx1, inner, s, t1, Taken(p, mode, s), base);
    CaseStep(env, now, p, mode, inner, ctx2, all, replaced, base, t0, t, t1, t2, t3, taken, s2);
    CaseRuns(begin, inner, end, t);
    assert one.0 == begin + inner + end;
  }

  lemma BeforeBody(env: Env, ctx: Ctx, ops: seq<Op>, now: Ctx, p: Reg, mode: Mode, base: nat, s: State, t0: State,
                   t: State, t1: State, all: map<Reg, Updated>, replaced: set<Reg>, taken: Option<State>)
    requires EnvOk(env, |ctx.stack|, base) && Inside(env, ctx, ops, now, base) && p in env
    requires Agree(env, s, t0) && Enabled(now, t) && CaseInv(env, all, replaced, Top(now).current, t0, t, taken)
    requires Taken(p, mode, s) ==> taken.None?
    requires t1 == Run(BeginCase(now, p, mode).0, t)
    ensures var ctx1 := BeginCase(now, p, mode).1;
      && CtxOk(ctx1, base) && |ctx1.stack| == |ctx.stack| + 1 && EnvOk(env, |ctx.stack| + 1, base)
      && Taken(p, mode, s) == Taken(p, mode, t) && t1.globals == t.globals
      && (Taken(p, mode, s) ==> Enabled(ctx1, t1) && Agree(env, s, t1))
      && (!Taken(p, mode, s) ==> !Enabled(ctx1, t1))
  {
    BodyReady(env, ctx, ops, now, p, mode, base);
    BeginEffect(now, p, mode, t, base);
    assert CtxOk(now, base);
  }

  lemma {:induction false} BodyOutcome(body: Program, env: Env, ctx1: Ctx, inner: seq<Op>, s: State, t1: State,
                                       taken: bool, base: nat)
    requires CtxOk(ctx1, base) && EnvOk(env, |ctx1.stack|, base) && Scoped(body, env, |ctx1.stack|, base)
    requires inner == Emit(body, env, ctx1).0
    requires taken ==> Enabled(ctx1, t1) && Agree(env, s, t1) && Exclusive(body, s)
    requires !taken ==> !Enabled(ctx1, t1)
    ensures taken ==> Agree(env, Exec(body, s), Run(inner, t1))
    ensures !taken ==> Run(inner, t1).globals == t1.globals
    decreases body, 1
  {
    if taken {
      EmitCorrect(body, env, ctx1, s, t1, base);
      AgreeOnOuter(body, env, |ctx1.stack|, Exec(body, s), Run(inner, t1));
    } else {
      EmitDisabled(body, env, ctx1, t1, base);
    }
  }

  // ---- All cases ----

  /** How the remaining cases are emitted: `now` before them, `fin` what they emit and leave. */
  ghost predicate Emission(cases: CaseList, env: Env, ctx: Ctx, ops: seq<Op>, now: Ctx, at: nat, replaced: set<Reg>,
                           fin: (seq<Op>, Ctx), base: nat) {
    && CtxOk(ctx, base) && EnvOk(env, |ctx.stack|, base) && Inside(env, ctx, ops, now, base)
    && ScopedCases(cases, env, |ctx.stack| + 1, base)
    && fin == EmitCases(cases, env, at, now, replaced) && fin.1.stack != [] && Fresh(Top(fin.1).updated, base)
    && (forall k :: Top(now).current <= k < Top(fin.1).current ==> WrittenIn(Top(fin.1).updated, k, replaced))
  }

  /** What is known when they start to run. */
  ghost predicate Execution(cases: CaseList, env: Env, now: Ctx, replaced: set<Reg>, fin: (seq<Op>, Ctx), s: State,
                            t0: State, t: State, taken: Option<State>) {
    && now.stack != [] && fin.1.stack != []
    && Agree(env, s, t0) && Enabled(now, t)
    && CaseInv(env, Top(fin.1).updated, replaced, Top(now).current, t0, t, taken)
    && TakenCount(cases, s) <= (if taken.None? then 1 else 0) && ExclusiveCases(cases, s)
  }

  /** The outcome of the taken case, among the earlier ones or these. */
  ghost function Outcome(cases: CaseList, s: State, taken: Option<State>): Option<State> {
    if TakenCount(cases, s) > 0 then Some(ExecCases(cases, s)) else taken
  }

  ghost function AfterFirst(cases: CaseList, s: State, taken: Option<State>): Option<State>
    requires cases.Case?
  {
    if Taken(cases.predicate_, cases.mode, s) then Some(Exec(cases.body, s)) else taken
  }

  lemma OutcomeStep(cases: CaseList, s: State, taken: Option<State>)
    requires cases.Case? && TakenCount(cases, s) <= 1
    ensures Outcome(cases, s, taken) == Outcome(cases.others, s, AfterFirst(cases, s, taken))
  {
  }

  lemma {:induction false} CasesCorrect(cases: CaseList, env: Env, ctx: Ctx, ops: seq<Op>, now: Ctx, at: nat,
                                        replaced: set<Reg>, fin: (seq<Op>, Ctx), base: nat, s: State, t0: State,
                                        t: State, taken: Option<State>)
    requires Emission(cases, env, ctx, ops, now, at, replaced, fin, base)
    requires Execution(cases, env, now, replaced, fin, s, t0, t, taken)
    ensures CaseInv(env, Top(fin.1).updated, replaced, Top(fin.1).current, t0, Run(fin.0, t), Outcome(cases, s, taken))
    decreases cases, 0
  {
    match cases
    case NoMore =>
    case Case(p, mode, body, others) =>
      var one := EmitCase(p, mode, body, env, at, now, replaced);
      var more := EmitCases(others, env, at + |one.0|, one.1, replaced);
      EmissionStep(cases, env, ctx, ops, now, at, replaced, fin, one, more, base);
      ExecutionStep(cases, env, ctx, ops, now, at, replaced, fin, one, more, base, s, t0, t, taken);
      CasesCorrect(others, env, ctx, ops + one.0, one.1, at + |one.0|, replaced, more, base, s, t0, Run(one.0, t),
                   AfterFirst(cases, s, taken));
      OutcomeStep(cases, s, taken);
      RunConcat(one.0, more.0, t);
  }

  lemma EmissionStep(cases: CaseList, env: Env, ctx: Ctx, ops: seq<Op>, now: Ctx, at: nat, replaced: set<Reg>,
                     fin: (seq<Op>, Ctx), one: (seq<Op>, Ctx), more: (seq<Op>, Ctx), base: nat)
    requires Emission(cases, env, ctx, ops, now, at, replaced, fin, base) && cases.Case?
    requires one == EmitCase(cases.predicate_, cases.mode, cases.body, env, at, now, replaced) && one.1.stack != []
    requires more == EmitCases(cases.others, env, at + |one.0|, one.1, replaced) && more.1.stack != []
    ensures fin == (one.0 + more.0, more.1)
    ensures Continues(env, ctx, ops, one, base) && Top(one.1).current == Top(now).current + 1
    ensures PartOf(Top(one.1).updated, Top(fin.1).updated, one.1.next)
    ensures WrittenIn(Top(one.1).updated, Top(now).current, replaced)
    ensures Emission(cases.others, env, ctx, ops + one.0, one.1, at + |one.0|, replaced, more, base)
  {
    EmitCasesIs(cases, env, at, now, replaced, one, more);
    assert fin == (one.0 + more.0, more.1);
    CaseFrame(cases.predicate_, cases.mode, cases.body, cases.others, env, ctx, ops, now, at, replaced, one, more,
              base);
  }

  lemma {:induction false} ExecutionStep(cases: CaseList, env: Env, ctx: Ctx, ops: seq<Op>, now: Ctx, at: nat,
                                         replaced: set<Reg>, fin: (seq<Op>, Ctx), one: (seq<Op>, Ctx),
                                         more: (seq<Op>, Ctx), base: nat, s: State, t0: State, t: State,
                                         taken: Option<State>)
    requires Emission(cases, env, ctx, ops, now, at, replaced, fin, base) && cases.Case?
    requires Execution(cases, env, now, replaced, fin, s, t0, t, taken)
    requires one == EmitCase(cases.predicate_, cases.mode, cases.body, env, at, now, replaced) && one.1.stack != []
    requires Continues(env, ctx, ops, one, base) && Top(one.1).current == Top(now).current + 1
    requires PartOf(Top(one.1).updated, Top(fin.1).updated, one.1.next)
    requires WrittenIn(Top(one.1).updated, Top(now).current, replaced)
    requires more.1 == fin.1
    ensures Execution(cases.others, env, one.1, replaced, more, s, t0, Run(one.0, t), AfterFirst(cases, s, taken))
    decreases cases.body, 3
  {
    OneCaseCorrect(cases.predicate_, cases.mode, cases.body, env, ctx, ops, now, at, replaced, Top(fin.1).updated, one,
                   base, s, t0, t, taken);
    StaysEnabled(env, ctx, ops, now, one, t, base);
  }

  lemma StaysEnabled(env: Env, ctx: Ctx, ops: seq<Op>, now: Ctx, one: (seq<Op>, Ctx), t: State, base: nat)
    requires CtxOk(ctx, base) && Inside(env, ctx, ops, now, base) && Continues(env, ctx, ops, one, base)
    requires Enabled(now, t)
    ensures Enabled(one.1, Run(one.0, t)) && Inside(env, ctx, ops + one.0, one.1, base)
  {
    EnabledKeptInside(env, ctx, ops, one, t, base);
  }

  lemma LaterWritten(c: Clu, next: nat, d: Clu, k: nat, replaced: set<Reg>)
    requires Later(c, next, d) && k < c.current && WrittenIn(d.updated, k, replaced)
    ensures PartOf(c.updated, d.updated, next) && WrittenIn(c.updated, k, replaced)
  {
  }

  /** What the object knows after one case, seen from the end. */
  lemma OneKnown(p: Reg, mode: Mode, body: Program, env: Env, ctx: Ctx, ops: seq<Op>, now: Ctx, at: nat,
                 replaced: set<Reg>, one: (seq<Op>, Ctx), base: nat)
    requires CtxOk(ctx, base) && EnvOk(env, |ctx.stack|, base) && Inside(env, ctx, ops, now, base)
    requires Scoped(body, env, |ctx.stack| + 1, base) && one == EmitCase(p, mode, body, env, at, now, replaced)
    requires one.1.stack != []
    ensures LaterCtx(now, one.1)
  {
    OneCaseLater(p, mode, body, env, ctx, ops, now, at, replaced, base);
  }

  lemma ContinuesInside(env: Env, ctx: Ctx, ops: seq<Op>, one: (seq<Op>, Ctx), base: nat, so: seq<Op>, now: Ctx)
    requires Continues(env, ctx, ops, one, base) && so == ops + one.0 && now == one.1
    ensures Inside(env, ctx, so, now, base)
  {
  }

  lemma RestLater(cases: CaseList, env: Env, ctx: Ctx, ops: seq<Op>, now: Ctx, at: nat, replaced: set<Reg>,
                  fin: (seq<Op>, Ctx), base: nat)
    requires CtxOk(ctx, base) && EnvOk(env, |ctx.stack|, base) && Inside(env, ctx, ops, now, base)
    requires ScopedCases(cases, env, |ctx.stack| + 1, base)
    requires fin == EmitCases(cases, env, at, now, replaced) && fin.1.stack != []
    ensures Later(Top(now), now.next, Top(fin.1))
  {
    CasesLater(cases, env, ctx, ops, now, at, replaced, base);
  }

  lemma LaterFromOne(others: CaseList, env: Env, ctx: Ctx, ops: seq<Op>, one: (seq<Op>, Ctx), at: nat,
                     replaced: set<Reg>, more: (seq<Op>, Ctx), base: nat)
    requires CtxOk(ctx, base) && EnvOk(env, |ctx.stack|, base) && Continues(env, ctx, ops, one, base)
    requires ScopedCases(others, env, |ctx.stack| + 1, base)
    requires one.1.stack != [] && more == EmitCases(others, env, at + |one.0|, one.1, replaced) && more.1.stack != []
    ensures Later(Top(one.1), one.1.next, Top(more.1))
  {
    var so, now := ops + one.0, one.1;
    ContinuesInside(env, ctx, ops, one, base, so, now);
    RestLater(others, env, ctx, so, now, at + |one.0|, replaced, more, base);
  }

  lemma {:induction false} CaseFrame(p: Reg, mode: Mode, body: Program, others: CaseList, env: Env, ctx: Ctx,
                                     ops: seq<Op>, now: Ctx, at: nat, replaced: set<Reg>, one: (seq<Op>, Ctx),
                                     more: (seq<Op>, Ctx), base: nat)
    requires CtxOk(ctx, base) && EnvOk(env, |ctx.stack|, base) && Inside(env, ctx, ops, now, base)
    requires Scoped(body, env, |ctx.stack| + 1, base) && ScopedCases(others, env, |ctx.stack| + 1, base)
    requires one == EmitCase(p, mode, body, env, at, now, replaced) && one.1.stack != []
    requires more == EmitCases(others, env, at + |one.0|, one.1, replaced) && more.1.stack != []
    requires Top(more.1).current > Top(now).current ==> WrittenIn(Top(more.1).updated, Top(now).current, replaced)
    ensures Continues(env, ctx, ops, one, base) && Top(one.1).current == Top(now).current + 1
    ensures PartOf(Top(one.1).updated, Top(more.1).updated, one.1.next)
    ensures WrittenIn(Top(one.1).updated, Top(now).current, replaced)
  {
    CaseInside(p, mode, body, env, ctx, ops, now, at, replaced, base);
    OneKnown(p, mode, body, env, ctx, ops, now, at, replaced, one, base);
    LaterFromOne(others, env, ctx, ops, one, at, replaced, more, base);
    LaterWritten(Top(one.1), one.1.next, Top(more.1), Top(now).current, replaced);
  }

  // ---- Programs ----

  lemma {:induction false} EmitCorrect(p: Program, env: Env, ctx: Ctx, s: State, t: State, base: nat)
    requires CtxOk(ctx, base) && EnvOk(env, |ctx.stack|, base) && Scoped(p, env, |ctx.stack|, base)
    requires Agree(env, s, t) && Enabled(ctx, t) && Exclusive(p, s)
    ensures Agree(EnvAtEnd(p, env, |ctx.stack|), Exec(p, s), Run(Emit(p, env, ctx).0, t))
    decreases p, 0
  {
    match p
    case Skip =>
    case Then(first, rest) =>
      var one := EmitStmt(first, env, ctx);
      var env2 := EnvAfter(first, env, |ctx.stack|);
      StmtConfined(first, env, ctx, base);
      StmtCorrect(first, env, ctx, s, t, base);
      EnabledKept(env, ctx, one.0, one.1, t, base);
      var t1, s1 := Run(one.0, t), ExecStmt(first, s);
      EmitCorrect(rest, env2, one.1, s1, t1, base);
      var more := Emit(rest, env2, one.1);
      RunConcat(one.0, more.0, t);
      assert Emit(p, env, ctx).0 == one.0 + more.0;
  }

  lemma {:induction false} StmtCorrect(st: Stmt, env: Env, ctx: Ctx, s: State, t: State, base: nat)
    requires CtxOk(ctx, base) && EnvOk(env, |ctx.stack|, base) && ScopedStmt(st, env, |ctx.stack|, base)
    requires Agree(env, s, t) && Enabled(ctx, t) && ExclusiveStmt(st, s)
    ensures Agree(EnvAfter(st, env, |ctx.stack|), ExecStmt(st, s), Run(EmitStmt(st, env, ctx).0, t))
    decreases st, 0
  {
    match st
    case Declare(dst, f, srcs) =>
      ReadsAgree(env, s, t, srcs);
      RunOne(Compute(dst, f, srcs), t);
    case Assign(dst, f, srcs) =>
      ReadsAgree(env, s, t, srcs);
      RunOne(Compute(dst, f, srcs), t);
    case Load(dst, g) => RunOne(ReadGlobal(dst, g), t);
    case Store(g, r) => RunOne(WriteGlobal(g, r, Guard(ctx)), t);
    case Cond(cases, complete) => CondCorrect(cases, complete, env, ctx, s, t, base);
  }

  lemma {:induction false} CondCorrect(cases: CaseList, complete: bool, env: Env, ctx: Ctx, s: State, t: State,
                                       base: nat)
    requires CtxOk(ctx, base) && EnvOk(env, |ctx.stack|, base) && ScopedCases(cases, env, |ctx.stack| + 1, base)
    requires Agree(env, s, t) && Enabled(ctx, t) && ExclusiveCases(cases, s)
    requires TakenCount(cases, s) <= 1 && (complete ==> TakenCount(cases, s) == 1)
    ensures var plain := EmitCases(cases, env, 0, Opened(ctx), {});
      Agree(env, ExecCases(cases, s), Run(EmitCond(plain.0, complete, plain.1), t))
    decreases cases, 1
  {
    var start := Opened(ctx);
    var plain := EmitCases(cases, env, 0, start, {});
    var replaced := if complete then AllWritten(Top(plain.1), plain.1.next) else {};
    var fin := EmitCases(cases, env, 0, start, replaced);
    if complete { SetCompleteIsReplaced(cases, env, ctx, base); }
    InsideStarts(env, ctx, base);
    CasesInside(cases, env, ctx, [], start, 0, {}, base);
    assert Continues(env, ctx, [], plain, base);
    var all := Top(plain.1).updated;
    var t1 := Run(BackupOps(all, Top(plain.1).order), t);
    BackupsReady(env, ctx, plain, replaced, t, base);
    ReplacedInAll(env, ctx, plain, complete, replaced, base);
    CasesCorrect(cases, env, ctx, [], start, 0, replaced, fin, base, s, t, t1, None);
    var t2 := Run(fin.0, t1);
    CondRuns(ctx, plain, fin.0, complete, t);
    if TakenCount(cases, s) == 0 { NoneTaken(cases, s); }
    CopiesCorrect(env, all, replaced, Top(plain.1).current, plain.1.next, base, s, t, t2,
                  if TakenCount(cases, s) > 0 then Some(ExecCases(cases, s)) else None);
  }

  /** After the backups every tracked register is saved and its selected value initialised. */
  lemma BackupsReady(env: Env, ctx: Ctx, plain: (seq<Op>, Ctx), replaced: set<Reg>, t: State, base: nat)
    requires CtxOk(ctx, base) && EnvOk(env, |ctx.stack|, base) && Continues(env, ctx, [], plain, base)
    ensures var t1 := Run(BackupOps(Top(plain.1).updated, Top(plain.1).order), t);
      CaseInv(env, Top(plain.1).updated, replaced, 0, t, t1, None) && Enabled(Opened(ctx), t1) == Enabled(ctx, t)
    ensures Fresh(Top(plain.1).updated, base)
  {
    var all, order := Top(plain.1).updated, Top(plain.1).order;
    assert CluOk(plain.1.stack[|plain.1.stack| - 1], base, plain.1.next);
    forall r | r in env
      ensures Get(Run(BackupOps(all, order), t), r) == Get(t, r)
    {
      BackupKeeps(all, order, t, r);
    }
    forall r | r in all
      ensures Get(Run(BackupOps(all, order), t), all[r].backup) == Get(t, r)
      ensures Get(Run(BackupOps(all, order), t), all[r].value) == Get(t, r)
    {
      BackupSaves(all, order, t, r, base);
    }
    BackupNoGlobals(all, order);
    GlobalsKept(BackupOps(all, order), t);
    BackupKeepsEnabled(env, ctx, plain, t, base);
  }

  lemma ReplacedInAll(env: Env, ctx: Ctx, plain: (seq<Op>, Ctx), complete: bool, replaced: set<Reg>, base: nat)
    requires Continues(env, ctx, [], plain, base)
    requires replaced == if complete then AllWritten(Top(plain.1), plain.1.next) else {}
    ensures forall k :: 0 <= k < Top(plain.1).current ==> WrittenIn(Top(plain.1).updated, k, replaced)
  {
    var d := Top(plain.1);
    forall k, r | 0 <= k < d.current && r in replaced
      ensures r in d.updated && k in d.updated[r].cases
    {
      FullSet(d.updated[r].cases, d.current, k);
    }
  }

  /** The copies give every local the selected value. */
  lemma CopiesCorrect(env: Env, all: map<Reg, Updated>, replaced: set<Reg>, k: nat, n: nat, base: nat, s: State,
                      t0: State, t: State, taken: Option<State>)
    requires CaseInv(env, all, replaced, k, t0, t, taken) && Fresh(all, base) && base <= n && Agree(env, s, t0)
    requires taken.None? ==> replaced == {}
    ensures Agree(env, if taken.Some? then taken.value else s, Run(CopyOps(all, n), t))
  {
    forall r | r in env
      ensures Get(Run(CopyOps(all, n), t), r) == if taken.Some? then Get(taken.value, r) else Get(s, r)
    {
      CopyEffect(all, n, t, r, base);
    }
    CopyNoGlobals(all, n);
    GlobalsKept(CopyOps(all, n), t);
  }

  /** If-conversion preserves meaning: for every program in scope whose conditionals are mutually exclusive when
      reached, running all emitted operations in a straight line gives the visible locals and the globals the
      values that running only the taken cases gives them. */
  lemma IfConversionPreservesMeaning(p: Program, env: Env, base: nat, s: State)
    requires EnvOk(env, 0, base) && Scoped(p, env, 0, base) && Exclusive(p, s)
    ensures Agree(EnvAtEnd(p, env, 0), Exec(p, s), Run(Emit(p, env, Ctx(base, [], [])).0, s))
  {
    EmitCorrect(p, env, Ctx(base, [], []), s, s, base);
  }

  /** Dropping the first select is safe: with exactly one case taken, the conditional with the first selects turned
      into movs and the one without leave every visible local and every global the same. */
  lemma DroppingFirstSelectIsSafe(cases: CaseList, env: Env, ctx: Ctx, t: State, base: nat)
    requires CtxOk(ctx, base) && EnvOk(env, |ctx.stack|, base) && ScopedCases(cases, env, |ctx.stack| + 1, base)
    requires Enabled(ctx, t) && ExclusiveCases(cases, t) && TakenCount(cases, t) == 1
    ensures var plain := EmitCases(cases, env, 0, Opened(ctx), {});
      Agree(env, Run(EmitCond(plain.0, true, plain.1), t), Run(EmitCond(plain.0, false, plain.1), t))
  {
    CondCorrect(cases, true, env, ctx, t, t, base);
    CondCorrect(cases, false, env, ctx, t, t, base);
  }
}
