/** What one case does to the locals, the backups and the selected values. */
module IfConversionCase {
  import opened Ir
  import opened LocalUpdatesSpec
  import opened LocalUpdatesEffect
  import opened LocalUpdatesFrame
  import opened IfConversion
  import opened IfConversionFrame
  import opened IfConversionProof

  /** u is what the object tracked at some point, all what it tracks in the end. */
  ghost predicate PartOf(u: map<Reg, Updated>, all: map<Reg, Updated>, next: nat) {
    && (forall r :: r in u ==> r in all && all[r].backup == u[r].backup && all[r].value == u[r].value)
    && (forall r :: r in all && r !in u ==> next <= all[r].backup && next <= all[r].value)
  }

  /** The setting of one case: `now` before it, ctx2 after its body. */
  ghost predicate CaseSetting(env: Env, now: Ctx, p: Reg, mode: Mode, inner: seq<Op>, ctx2: Ctx, base: nat) {
    && CtxOk(now, base) && now.stack != [] && |ctx2.stack| == |now.stack| && EnvOk(env, |now.stack| - 1, base)
    && p in env
    && Confined(env, BeginCase(now, p, mode).1, inner, ctx2, base)
  }

  lemma SettingGrows(env: Env, now: Ctx, p: Reg, mode: Mode, inner: seq<Op>, ctx2: Ctx, base: nat)
    requires CaseSetting(env, now, p, mode, inner, ctx2, base)
    ensures var ctx1 := BeginCase(now, p, mode).1;
      && now.next < ctx1.next <= ctx2.next && CtxOk(ctx1, base)
      && Grows(Top(now).(predicate_ := now.next, mode := mode), Top(ctx2), ctx1.next, ctx2.next)
      && CluOk(Top(ctx2), base, ctx2.next) && CluOk(Top(now), base, now.next)
  {
    var ctx1 := BeginCase(now, p, mode).1;
    BeginOk(now, p, mode, base);
    var n := |now.stack| - 1;
    assert Grows(ctx1.stack[n], ctx2.stack[n], ctx1.next, ctx2.next);
    assert CluOk(ctx2.stack[n], base, ctx2.next);
    assert CluOk(now.stack[n], base, now.next);
  }

  /** Registers the object owns, now or later, are written neither by BeginCase nor by the body. */
  lemma OwnedNotWritten(env: Env, now: Ctx, p: Reg, mode: Mode, inner: seq<Op>, ctx2: Ctx, base: nat, x: Reg)
    requires CaseSetting(env, now, p, mode, inner, ctx2, base) && (Owns(Top(ctx2).updated, x) || ctx2.next <= x)
    ensures !Writes(BeginCase(now, p, mode).0, x) && !Writes(inner, x)
  {
    SettingGrows(env, now, p, mode, inner, ctx2, base);
    var ctx1 := BeginCase(now, p, mode).1;
    if Writes(BeginCase(now, p, mode).0, x) { BeginWrites(now, p, mode, x); }
    if Owns(Top(ctx2).updated, x) {
      GrowsOwned(Top(now).(predicate_ := now.next, mode := mode), Top(ctx2), ctx1.next, ctx2.next, x);
      TopOwned(ctx2, x, base);
    }
    assert !WriteOk(env, ctx1.next, ctx2.stack, ctx2.next, base, x);
  }

  lemma TopOwned(ctx: Ctx, x: Reg, base: nat)
    requires ctx.stack != [] && CtxOk(ctx, base) && Owns(Top(ctx).updated, x)
    ensures OwnedBy(ctx.stack, x) && base <= x < ctx.next
  {
    var n := |ctx.stack| - 1;
    assert Owns(ctx.stack[n].updated, x) && CluOk(ctx.stack[n], base, ctx.next);
  }

  /** A visible local the object did not note is not written by the body. */
  lemma LocalNotWritten(env: Env, now: Ctx, p: Reg, mode: Mode, inner: seq<Op>, ctx2: Ctx, base: nat, r: Reg)
    requires CaseSetting(env, now, p, mode, inner, ctx2, base) && r in env && !WrittenNow(Top(ctx2), r)
    ensures !Writes(inner, r)
  {
    var n := |ctx2.stack| - 1;
    assert ctx2.stack[n].depth == n + 1;
    assert !Noted(ctx2.stack, r, env[r]) by { assert !WrittenNow(ctx2.stack[n], r) && env[r] < ctx2.stack[n].depth; }
  }

  /** The copy of the predicate is still there when the case ends, and the object owns it not. */
  lemma PredicateReady(env: Env, now: Ctx, p: Reg, mode: Mode, inner: seq<Op>, ctx2: Ctx, base: nat)
    requires CaseSetting(env, now, p, mode, inner, ctx2, base)
    ensures Ready(Top(ctx2), base) && Top(ctx2).predicate_ == now.next && Top(ctx2).mode == mode
    ensures !Writes(inner, now.next)
  {
    SettingGrows(env, now, p, mode, inner, ctx2, base);
    var ctx1 := BeginCase(now, p, mode).1;
    if Owns(Top(ctx2).updated, now.next) {
      GrowsOwned(Top(now).(predicate_ := now.next, mode := mode), Top(ctx2), ctx1.next, ctx2.next, now.next);
    }
    assert !WriteOk(env, ctx1.next, ctx2.stack, ctx2.next, base, now.next);
  }

  /** The states at the end of BeginCase, of the body, and of EndCase. */
  ghost predicate CaseStates(now: Ctx, p: Reg, mode: Mode, inner: seq<Op>, ctx2: Ctx, replaced: set<Reg>, t: State,
                             t1: State, t2: State, t3: State)
    requires now.stack != [] && ctx2.stack != []
  {
    && t1 == Run(BeginCase(now, p, mode).0, t) && t2 == Run(inner, t1)
    && t3 == Run(EndOps(Top(ctx2), ctx2.next, replaced), t2)
  }

  /** Every visible local is back to its value before the case. */
  lemma CaseRestores(env: Env, now: Ctx, p: Reg, mode: Mode, inner: seq<Op>, ctx2: Ctx, replaced: set<Reg>, base: nat,
                     t: State, t1: State, t2: State, t3: State, r: Reg)
    requires CaseSetting(env, now, p, mode, inner, ctx2, base)
    requires CaseStates(now, p, mode, inner, ctx2, replaced, t, t1, t2, t3)
    requires r in env && (r in Top(ctx2).updated ==> Get(t, Top(ctx2).updated[r].backup) == Get(t, r))
    ensures Get(t3, r) == Get(t, r)
    ensures !WrittenNow(Top(ctx2), r) ==> Get(t2, r) == Get(t, r)
  {
    PredicateReady(env, now, p, mode, inner, ctx2, base);
    BeginEffect(now, p, mode, t, base);
    EndRestores(Top(ctx2), ctx2.next, replaced, t2, r, base);
    if WrittenNow(Top(ctx2), r) {
      var x := Top(ctx2).updated[r].backup;
      assert Owns(Top(ctx2).updated, x);
      OwnedNotWritten(env, now, p, mode, inner, ctx2, base, x);
      UnwrittenKept(BeginCase(now, p, mode).0, t, x);
      UnwrittenKept(inner, t1, x);
      SettingGrows(env, now, p, mode, inner, ctx2, base);
    } else {
      LocalNotWritten(env, now, p, mode, inner, ctx2, base, r);
      UnwrittenKept(inner, t1, r);
    }
  }

  lemma PartOfOwned(u: map<Reg, Updated>, all: map<Reg, Updated>, next: nat, r: Reg)
    requires PartOf(u, all, next) && r in all
    ensures Owns(u, all[r].backup) || next <= all[r].backup
    ensures Owns(u, all[r].value) || next <= all[r].value
  {
    if r in u { assert Owns(u, u[r].backup) && Owns(u, u[r].value); }
  }

  /** Backups stay. */
  lemma CaseKeepsBackup(env: Env, now: Ctx, p: Reg, mode: Mode, inner: seq<Op>, ctx2: Ctx, replaced: set<Reg>,
                        base: nat, t: State, t1: State, t2: State, t3: State, all: map<Reg, Updated>, r: Reg)
    requires CaseSetting(env, now, p, mode, inner, ctx2, base)
    requires CaseStates(now, p, mode, inner, ctx2, replaced, t, t1, t2, t3)
    requires PartOf(Top(ctx2).updated, all, ctx2.next) && Fresh(all, base) && r in all
    ensures Get(t3, all[r].backup) == Get(t, all[r].backup)
  {
    var x := all[r].backup;
    PartOfOwned(Top(ctx2).updated, all, ctx2.next, r);
    OwnedNotWritten(env, now, p, mode, inner, ctx2, base, x);
    UnwrittenKept(BeginCase(now, p, mode).0, t, x);
    UnwrittenKept(inner, t1, x);
    EndKeeps(Top(ctx2), ctx2.next, replaced, t2, x);
  }

  /** The selected value becomes what the body left if the case noted a write and was taken (or is replaced). */
  lemma CaseSelects(env: Env, now: Ctx, p: Reg, mode: Mode, inner: seq<Op>, ctx2: Ctx, replaced: set<Reg>, base: nat,
                    t: State, t1: State, t2: State, t3: State, all: map<Reg, Updated>, r: Reg)
    requires CaseSetting(env, now, p, mode, inner, ctx2, base)
    requires CaseStates(now, p, mode, inner, ctx2, replaced, t, t1, t2, t3)
    requires PartOf(Top(ctx2).updated, all, ctx2.next) && Fresh(all, base) && r in all
    ensures Get(t3, all[r].value) ==
            if WrittenNow(Top(ctx2), r) && (r in replaced || Taken(p, mode, t)) then Get(t2, r)
            else Get(t, all[r].value)
  {
    var x := all[r].value;
    PartOfOwned(Top(ctx2).updated, all, ctx2.next, r);
    OwnedNotWritten(env, now, p, mode, inner, ctx2, base, x);
    UnwrittenKept(BeginCase(now, p, mode).0, t, x);
    UnwrittenKept(inner, t1, x);
    if r in Top(ctx2).updated {
      PredicateReady(env, now, p, mode, inner, ctx2, base);
      BeginEffect(now, p, mode, t, base);
      UnwrittenKept(inner, t1, now.next);
      EndSelects(Top(ctx2), ctx2.next, replaced, t2, r, base);
      SettingGrows(env, now, p, mode, inner, ctx2, base);
    } else {
      EndKeeps(Top(ctx2), ctx2.next, replaced, t2, x);
    }
  }
}
