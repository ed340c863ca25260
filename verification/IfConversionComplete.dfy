/** SetComplete: what the objects remember from case to case, and why editing the emitted list in place
    is the same as emitting a mov in the first case. */
module IfConversionComplete {
  import opened Wrappers
  import opened Ir
  import opened LocalUpdatesSpec
  import opened LocalUpdatesFrame
  import opened IfConversion
  import opened IfConversionFrame

  /** d is the object c at a later point between cases; registers allocated since lie from `next` on. */
  ghost predicate Later(c: Clu, next: nat, d: Clu) {
    && c.current <= d.current
    && (forall r :: r in c.updated ==>
          && r in d.updated && d.updated[r].backup == c.updated[r].backup && d.updated[r].value == c.updated[r].value
          && (c.current > 0 ==> d.updated[r].firstSelect == c.updated[r].firstSelect))
    && (forall r, k ::
        r in d.updated && k in d.updated[r].cases && k < c.current ==> r in c.updated && k in c.updated[r].cases)
    && (forall r :: r in d.updated && r !in c.updated ==> next <= d.updated[r].backup && next <= d.updated[r].value)
  }

  lemma LaterTrans(a: Clu, n: nat, b: Clu, m: nat, c: Clu)
    requires Later(a, n, b) && Later(b, m, c) && n <= m
    ensures Later(a, n, c)
  {
  }

  lemma RecordFirstStep(c: Clu, n: nat, at: nat, r: Reg)
    requires r in c.updated && r in RecordFirst(c, n, at)
    ensures r in RecordFirst(c, n + 1, at)
    ensures RecordFirst(c, n + 1, at)[r].firstSelect ==
            if r == n && WrittenNow(c, r) && c.current == 0 then Some(at + |EndOps(c, r, {})|)
            else RecordFirst(c, n, at)[r].firstSelect
  {
  }

  lemma {:induction false} RecordFirstEffect(c: Clu, n: nat, at: nat, r: Reg)
    requires r in c.updated
    ensures r in RecordFirst(c, n, at)
    ensures RecordFirst(c, n, at)[r].firstSelect ==
            if r < n && WrittenNow(c, r) && c.current == 0 then Some(at + |EndOps(c, r, {})|)
            else c.updated[r].firstSelect
  {
    if n > 0 {
      RecordFirstEffect(c, n - 1, at, r);
      RecordFirstStep(c, n - 1, at, r);
    }
  }

  lemma AfterIsLater(b: Clu, c: Clu, lo: nat, hi: nat, n: nat, at: nat)
    requires Grows(b, c, lo, hi)
    ensures Later(b, lo, c.(updated := RecordFirst(c, n, at), current := c.current + 1))
  {
    var d := c.(updated := RecordFirst(c, n, at), current := c.current + 1);
    RecordFirstKeeps(c, n, at);
    forall r | r in b.updated
      ensures b.current > 0 ==> d.updated[r].firstSelect == b.updated[r].firstSelect
    {
      RecordFirstEffect(c, n, at, r);
    }
  }

  lemma LaterSame(b0: Clu, b: Clu, n: nat, lo: nat, d: Clu)
    requires b0.updated == b.updated && b0.current == b.current && n <= lo && Later(b, lo, d)
    ensures Later(b0, n, d)
  {
  }

  /** One case: the object after it is a later one. */
  lemma CaseLater(env: Env, now: Ctx, p: Reg, mode: Mode, inner: seq<Op>, ctx2: Ctx, at: nat, base: nat)
    requires CtxOk(now, base) && now.stack != [] && |ctx2.stack| == |now.stack|
    requires Confined(env, BeginCase(now, p, mode).1, inner, ctx2, base) && ctx2.preds != []
    ensures Later(Top(now), now.next, Top(AfterCase(ctx2, at))) && now.next <= ctx2.next
    ensures Top(ctx2).current == Top(now).current
  {
    BeginOk(now, p, mode, base);
    var ctx1 := BeginCase(now, p, mode).1;
    var n := |now.stack| - 1;
    assert Grows(ctx1.stack[n], ctx2.stack[n], ctx1.next, ctx2.next);
    AfterIsLater(ctx1.stack[n], ctx2.stack[n], ctx1.next, ctx2.next, ctx2.next, at);
    LaterSame(Top(now), ctx1.stack[n], now.next, ctx1.next, Top(AfterCase(ctx2, at)));
  }

  lemma LaterRefl(c: Clu, next: nat)
    ensures Later(c, next, c)
  {
  }

  lemma {:induction false} CasesLater(cases: CaseList, env: Env, ctx: Ctx, ops: seq<Op>, now: Ctx, at: nat,
                                      replaced: set<Reg>, base: nat)
    requires CtxOk(ctx, base) && EnvOk(env, |ctx.stack|, base) && Inside(env, ctx, ops, now, base)
    requires ScopedCases(cases, env, |ctx.stack| + 1, base)
    ensures Later(Top(now), now.next, Top(EmitCases(cases, env, at, now, replaced).1))
    decreases cases
  {
    match cases
    case NoMore => LaterRefl(Top(now), now.next);
    case Case(p, mode, body, others) =>
      var one := EmitCase(p, mode, body, env, at, now, replaced);
      var more := EmitCases(others, env, at + |one.0|, one.1, replaced);
      CaseInside(p, mode, body, env, ctx, ops, now, at, replaced, base);
      CasesLater(others, env, ctx, ops + one.0, one.1, at + |one.0|, replaced, base);
      OneCaseLater(p, mode, body, env, ctx, ops, now, at, replaced, base);
      LaterTrans(Top(now), now.next, Top(one.1), one.1.next, Top(more.1));
      EmitCasesIs(cases, env, at, now, replaced, one, more);
  }

  ghost predicate LaterCtx(now: Ctx, after: Ctx)
    requires now.stack != [] && after.stack != []
  {
    Later(Top(now), now.next, Top(after)) && now.next <= after.next && Top(after).current == Top(now).current + 1
  }

  lemma OneCaseLater(p: Reg, mode: Mode, body: Program, env: Env, ctx: Ctx, ops: seq<Op>, now: Ctx, at: nat,
                     replaced: set<Reg>, base: nat)
    requires CtxOk(ctx, base) && EnvOk(env, |ctx.stack|, base) && Inside(env, ctx, ops, now, base)
    requires Scoped(body, env, |ctx.stack| + 1, base)
    ensures LaterCtx(now, EmitCase(p, mode, body, env, at, now, replaced).1)
  {
    var inner, ctx2 := CaseBody(p, mode, body, env, ctx, ops, now, at, replaced, base);
    CaseResultLater(env, now, p, mode, inner, ctx2, at, Replaced(now, replaced), base);
  }

  lemma CaseResultLater(env: Env, now: Ctx, p: Reg, mode: Mode, inner: seq<Op>, ctx2: Ctx, at: nat, replaced: set<Reg>,
                        base: nat)
    requires CtxOk(now, base) && now.stack != [] && |ctx2.stack| == |now.stack| && ctx2.preds != []
    requires Confined(env, BeginCase(now, p, mode).1, inner, ctx2, base)
    ensures LaterCtx(now, CaseResult(now, p, mode, inner, ctx2, at, replaced).1)
  {
    var at1 := at + |BeginCase(now, p, mode).0| + |inner|;
    var after := AfterCase(ctx2, at1);
    var res := CaseResult(now, p, mode, inner, ctx2, at, replaced).1;
    assert res == after;
    CaseLater(env, now, p, mode, inner, ctx2, at1, base);
    assert LaterCtx(now, after);
    assert LaterCtx(now, res);
  }

  // ---- The edited list ----

  lemma {:induction false} EndOpsLength(c: Clu, n: nat, replaced: set<Reg>)
    ensures |EndOps(c, n, replaced)| == |EndOps(c, n, {})|
  {
    if n > 0 { EndOpsLength(c, n - 1, replaced); }
  }

  lemma {:induction false} EndOpsIgnore(c: Clu, n: nat, replaced: set<Reg>, r: Reg)
    requires n <= r
    ensures EndOps(c, n, replaced + {r}) == EndOps(c, n, replaced)
  {
    if n > 0 { EndOpsIgnore(c, n - 1, replaced, r); }
  }

  /** Overwriting the select of r gives the operations with r replaced. */
  lemma {:induction false} OverwriteSelect(c: Clu, n: nat, replaced: set<Reg>, r: Reg)
    requires WrittenNow(c, r) && r < n
    ensures |EndOps(c, r, {})| < |EndOps(c, n, replaced)|
    ensures EndOps(c, n, replaced)[|EndOps(c, r, {})| := Mov(c.updated[r].value, r)] == EndOps(c, n, replaced + {r})
  {
    EndOpsLength(c, r, replaced);
    var before, i, op := EndOps(c, n - 1, replaced), |EndOps(c, r, {})|, Mov(c.updated[r].value, r);
    if r == n - 1 {
      EndOpsIgnore(c, n - 1, replaced, r);
      assert (before + EndOne(c, r, replaced))[i := op] == before + EndOne(c, r, replaced + {r});
    } else {
      OverwriteSelect(c, n - 1, replaced, r);
      assert EndOne(c, n - 1, replaced) == EndOne(c, n - 1, replaced + {r});
      assert (before + EndOne(c, n - 1, replaced))[i := op] == before[i := op] + EndOne(c, n - 1, replaced);
    }
  }

  ghost function AllWritten(d: Clu, n: nat): set<Reg> { set r | r in d.updated && r < n && WrittenByAll(d, r) }

  /** d remembers where the first case, which ended as c0 after `pre` operations, selected each register
      that every case wrote. */
  ghost predicate Remembers(d: Clu, c0: Clu, pre: nat, n0: nat) {
    forall r :: r in d.updated && WrittenByAll(d, r) ==>
      r < n0 && WrittenNow(c0, r) && d.updated[r].value == c0.updated[r].value
      && d.updated[r].firstSelect == Some(pre + |EndOps(c0, r, {})|)
  }

  lemma SetCompleteStep(ops: seq<Op>, d: Clu, n: nat, done: seq<Op>, i: nat)
    requires done == SetComplete(ops, d, n) && n in d.updated && WrittenByAll(d, n)
    requires d.updated[n].firstSelect == Some(i) && i < |done|
    ensures SetComplete(ops, d, n + 1) == done[i := Mov(d.updated[n].value, n)]
  {
  }

  lemma {:induction false} SetCompleteOps(pre: seq<Op>, c0: Clu, n0: nat, more: seq<Op>, d: Clu, n: nat)
    requires Remembers(d, c0, |pre|, n0)
    ensures SetComplete(pre + EndOps(c0, n0, {}) + more, d, n) == pre + EndOps(c0, n0, AllWritten(d, n)) + more
  {
    if n == 0 {
      assert AllWritten(d, 0) == {};
    } else {
      SetCompleteOps(pre, c0, n0, more, d, n - 1);
      ReplaceNext(pre, c0, n0, more, d, n - 1);
    }
  }

  lemma ReplaceNext(pre: seq<Op>, c0: Clu, n0: nat, more: seq<Op>, d: Clu, r: Reg)
    requires Remembers(d, c0, |pre|, n0)
    requires SetComplete(pre + EndOps(c0, n0, {}) + more, d, r) == pre + EndOps(c0, n0, AllWritten(d, r)) + more
    ensures SetComplete(pre + EndOps(c0, n0, {}) + more, d, r + 1) == pre + EndOps(c0, n0, AllWritten(d, r + 1)) + more
  {
    AllWrittenGrows(d, r);
    if r in d.updated && WrittenByAll(d, r) {
      ReplaceOne(pre, c0, n0, more, d, r, AllWritten(d, r), AllWritten(d, r + 1));
    }
  }

  lemma AllWrittenGrows(d: Clu, r: Reg)
    ensures AllWritten(d, r + 1) ==
            if r in d.updated && WrittenByAll(d, r) then AllWritten(d, r) + {r} else AllWritten(d, r)
  {
  }

  lemma ReplaceOne(pre: seq<Op>, c0: Clu, n0: nat, more: seq<Op>, d: Clu, r: Reg, replaced: set<Reg>, all: set<Reg>)
    requires Remembers(d, c0, |pre|, n0) && r in d.updated && WrittenByAll(d, r) && all == replaced + {r}
    requires SetComplete(pre + EndOps(c0, n0, {}) + more, d, r) == pre + EndOps(c0, n0, replaced) + more
    ensures SetComplete(pre + EndOps(c0, n0, {}) + more, d, r + 1) == pre + EndOps(c0, n0, all) + more
  {
    OverwriteSelect(c0, n0, replaced, r);
    var i := |EndOps(c0, r, {})|;
    OverwriteMiddle(pre, EndOps(c0, n0, replaced), more, i, Mov(c0.updated[r].value, r));
    SetCompleteStep(pre + EndOps(c0, n0, {}) + more, d, r, pre + EndOps(c0, n0, replaced) + more, |pre| + i);
  }

  lemma OverwriteMiddle(a: seq<Op>, b: seq<Op>, c: seq<Op>, i: nat, op: Op)
    requires i < |b|
    ensures (a + b + c)[|a| + i := op] == a + b[i := op] + c
  {
  }

  lemma {:induction false} FullSet(s: set<nat>, n: nat, k: nat)
    requires (forall i :: i in s ==> i < n) && |s| == n && k < n
    ensures k in s
  {
    if k !in s {
      SmallSet(s + {k}, n);
    }
  }

  lemma {:induction false} SmallSet(s: set<nat>, n: nat)
    requires forall i :: i in s ==> i < n
    ensures |s| <= n
  {
    if n > 0 { SmallSet(s - {n - 1}, n - 1); } else { assert s == {}; }
  }

  lemma {:induction false} ReplacedOnlyFirst(cases: CaseList, env: Env, at: nat, now: Ctx, replaced: set<Reg>)
    requires now.stack != [] && Top(now).current > 0
    ensures EmitCases(cases, env, at, now, replaced) == EmitCases(cases, env, at, now, {})
    decreases cases
  {
    match cases
    case NoMore =>
    case Case(p, mode, body, others) =>
      var one := EmitCase(p, mode, body, env, at, now, {});
      var (inner, ctx2) := Emit(body, env, BeginCase(now, p, mode).1);
      EmitCaseIs(p, mode, body, env, at, now, {}, inner, ctx2);
      EmitCaseIs(p, mode, body, env, at, now, replaced, inner, ctx2);
      ReplacedOnlyFirst(others, env, at + |one.0|, one.1, replaced);
      var more := EmitCases(others, env, at + |one.0|, one.1, {});
      EmitCasesIs(cases, env, at, now, {}, one, more);
      EmitCasesIs(cases, env, at, now, replaced, one, more);
  }

  lemma RemembersOne(c0: Clu, n: nat, at: nat, c1: Clu, d: Clu, base: nat, r: Reg)
    requires CluOk(c0, base, n) && base <= n && c0.current == 0
    requires c1 == c0.(updated := RecordFirst(c0, n, at), current := 1) && Later(c1, n, d)
    requires r in d.updated && 0 in d.updated[r].cases
    ensures r < n && WrittenNow(c0, r) && d.updated[r].value == c0.updated[r].value
    ensures d.updated[r].firstSelect == Some(at + |EndOps(c0, r, {})|)
  {
    RecordFirstKeeps(c0, n, at);
    assert r in c1.updated && 0 in c1.updated[r].cases;
    RecordFirstEffect(c0, n, at, r);
  }

  ghost predicate CasesBelowCurrent(d: Clu) {
    forall r, k :: r in d.updated && k in d.updated[r].cases ==> k < d.current
  }

  /** After the first case ended as c0, any later object remembers where it selected what every case writes. */
  lemma LaterRemembers(c0: Clu, n: nat, at: nat, c1: Clu, d: Clu, base: nat)
    requires CluOk(c0, base, n) && base <= n && c0.current == 0
    requires c1 == c0.(updated := RecordFirst(c0, n, at), current := 1) && Later(c1, n, d) && CasesBelowCurrent(d)
    ensures Remembers(d, c0, at, n)
  {
    forall r | r in d.updated && WrittenByAll(d, r)
      ensures r < n && WrittenNow(c0, r) && d.updated[r].value == c0.updated[r].value
      ensures d.updated[r].firstSelect == Some(at + |EndOps(c0, r, {})|)
    {
      WrittenByFirst(d, r);
      RemembersOne(c0, n, at, c1, d, base, r);
    }
  }

  /** Written by all cases, if there are any, means written by the first. */
  lemma WrittenByFirst(d: Clu, r: Reg)
    requires r in d.updated && WrittenByAll(d, r) && CasesBelowCurrent(d) && d.current > 0
    ensures 0 in d.updated[r].cases
  {
    FullSet(d.updated[r].cases, d.current, 0);
  }

  /** Turning the first selects of fully written registers into movs after the fact is the same as having
      emitted movs in the first case. */
  lemma SetCompleteIsReplaced(cases: CaseList, env: Env, ctx: Ctx, base: nat)
    requires CtxOk(ctx, base) && EnvOk(env, |ctx.stack|, base) && ScopedCases(cases, env, |ctx.stack| + 1, base)
    ensures var (ops, now) := EmitCases(cases, env, 0, Opened(ctx), {});
      EmitCases(cases, env, 0, Opened(ctx), AllWritten(Top(now), now.next)) ==
      (SetComplete(ops, Top(now), now.next), now)
  {
    var start := Opened(ctx);
    InsideStarts(env, ctx, base);
    match cases
    case NoMore =>
      SetCompleteWrites([], Top(start), start.next, 0);
    case Case(p, mode, body, others) =>
      var inner, ctx2 := CaseBody(p, mode, body, env, ctx, [], start, 0, {}, base);
      FirstCaseReplaced(p, mode, body, others, env, ctx, inner, ctx2, base);
  }

  lemma FirstCaseReplaced(p: Reg, mode: Mode, body: Program, others: CaseList, env: Env, ctx: Ctx, inner: seq<Op>,
                          ctx2: Ctx, base: nat)
    requires CtxOk(ctx, base) && EnvOk(env, |ctx.stack|, base) && Inside(env, ctx, [], Opened(ctx), base)
    requires Scoped(body, env, |ctx.stack| + 1, base) && ScopedCases(others, env, |ctx.stack| + 1, base)
    requires (inner, ctx2) == Emit(body, env, BeginCase(Opened(ctx), p, mode).1) && |ctx2.stack| == |ctx.stack| + 1
    requires ctx2.preds != [] && Confined(env, BeginCase(Opened(ctx), p, mode).1, inner, ctx2, base)
    ensures var cases := Case(p, mode, body, others);
      var r := EmitCases(cases, env, 0, Opened(ctx), {});
      EmitCases(cases, env, 0, Opened(ctx), AllWritten(Top(r.1), r.1.next)) ==
      (SetComplete(r.0, Top(r.1), r.1.next), r.1)
  {
    var start := Opened(ctx);
    var one := EmitCase(p, mode, body, env, 0, start, {});
    EmitCaseIs(p, mode, body, env, 0, start, {}, inner, ctx2);
    var more := EmitCases(others, env, |one.0|, one.1, {});
    OthersLater(p, mode, body, others, env, ctx, one, more, base);
    var pre := BeginCase(start, p, mode).0 + inner;
    OneIsAfter(start, p, mode, inner, ctx2, pre, {}, one);
    FirstBodyOk(env, ctx, p, mode, inner, ctx2, base);
    LaterRemembers(Top(ctx2), ctx2.next, |pre|, Top(one.1), Top(more.1), base);
    PutTogether(p, mode, body, others, env, start, inner, ctx2, pre, one, more);
  }

  /** What the cases after the first one do to the object. */
  lemma OthersLater(p: Reg, mode: Mode, body: Program, others: CaseList, env: Env, ctx: Ctx, one: (seq<Op>, Ctx),
                    more: (seq<Op>, Ctx), base: nat)
    requires CtxOk(ctx, base) && EnvOk(env, |ctx.stack|, base) && Inside(env, ctx, [], Opened(ctx), base)
    requires Scoped(body, env, |ctx.stack| + 1, base) && ScopedCases(others, env, |ctx.stack| + 1, base)
    requires one == EmitCase(p, mode, body, env, 0, Opened(ctx), {})
    requires one.1.stack != [] && more == EmitCases(others, env, |one.0|, one.1, {})
    ensures more.1.stack != [] && Later(Top(one.1), one.1.next, Top(more.1)) && CasesBelowCurrent(Top(more.1))
  {
    CaseInside(p, mode, body, env, ctx, [], Opened(ctx), 0, {}, base);
    assert Continues(env, ctx, [], one, base);
    CasesLater(others, env, ctx, [] + one.0, one.1, |one.0|, {}, base);
    CasesInside(others, env, ctx, [] + one.0, one.1, |one.0|, {}, base);
    assert Continues(env, ctx, [] + one.0, more, base);
    TopOfInside(env, ctx, [] + one.0, more, base);
  }

  lemma TopOfInside(env: Env, ctx: Ctx, ops: seq<Op>, r: (seq<Op>, Ctx), base: nat)
    requires Continues(env, ctx, ops, r, base)
    ensures r.1.stack != [] && CasesBelowCurrent(Top(r.1))
  {
  }

  lemma FirstBodyOk(env: Env, ctx: Ctx, p: Reg, mode: Mode, inner: seq<Op>, ctx2: Ctx, base: nat)
    requires Inside(env, ctx, [], Opened(ctx), base) && |ctx2.stack| == |ctx.stack| + 1 && ctx2.preds != []
    requires Confined(env, BeginCase(Opened(ctx), p, mode).1, inner, ctx2, base)
    ensures CluOk(Top(ctx2), base, ctx2.next) && base <= ctx2.next && Top(ctx2).current == 0
  {
    CaseLater(env, Opened(ctx), p, mode, inner, ctx2, 0, base);
    assert CluOk(ctx2.stack[|ctx2.stack| - 1], base, ctx2.next);
  }

  lemma OneIsAfter(start: Ctx, p: Reg, mode: Mode, inner: seq<Op>, ctx2: Ctx, pre: seq<Op>, replaced: set<Reg>,
                   one: (seq<Op>, Ctx))
    requires start.stack != [] && ctx2.stack != [] && ctx2.preds != []
    requires pre == BeginCase(start, p, mode).0 + inner && one == CaseResult(start, p, mode, inner, ctx2, 0, replaced)
    ensures one == (pre + EndOps(Top(ctx2), ctx2.next, replaced), AfterCase(ctx2, |pre|))
    ensures one.1.stack != [] && one.1.next == ctx2.next
    ensures Top(one.1) ==
            Top(ctx2).(updated := RecordFirst(Top(ctx2), ctx2.next, |pre|), current := Top(ctx2).current + 1)
  {
  }

  lemma PutTogether(p: Reg, mode: Mode, body: Program, others: CaseList, env: Env, start: Ctx, inner: seq<Op>,
                    ctx2: Ctx, pre: seq<Op>, one: (seq<Op>, Ctx), more: (seq<Op>, Ctx))
    requires start.stack != [] && Top(start).current == 0 && ctx2.stack != [] && ctx2.preds != []
    requires Emit(body, env, BeginCase(start, p, mode).1) == (inner, ctx2) && pre == BeginCase(start, p, mode).0 + inner
    requires one == EmitCase(p, mode, body, env, 0, start, {}) == CaseResult(start, p, mode, inner, ctx2, 0, {})
    requires more == EmitCases(others, env, |one.0|, one.1, {}) && more.1.stack != []
    requires Remembers(Top(more.1), Top(ctx2), |pre|, ctx2.next)
    ensures var cases := Case(p, mode, body, others);
      var r := EmitCases(cases, env, 0, start, {});
      EmitCases(cases, env, 0, start, AllWritten(Top(r.1), r.1.next)) == (SetComplete(r.0, Top(r.1), r.1.next), r.1)
  {
    var cases := Case(p, mode, body, others);
    var r := EmitCases(cases, env, 0, start, {});
    EmitCasesIs(cases, env, 0, start, {}, one, more);
    OneIsAfter(start, p, mode, inner, ctx2, pre, {}, one);
    assert r == (pre + EndOps(Top(ctx2), ctx2.next, {}) + more.0, more.1);
    var all := AllWritten(Top(r.1), r.1.next);
    SetCompleteOps(pre, Top(ctx2), ctx2.next, more.0, Top(more.1), more.1.next);
    WithReplaced(p, mode, body, others, env, start, inner, ctx2, pre, one, more, all);
  }

  lemma WithReplaced(p: Reg, mode: Mode, body: Program, others: CaseList, env: Env, start: Ctx, inner: seq<Op>,
                     ctx2: Ctx, pre: seq<Op>, one: (seq<Op>, Ctx), more: (seq<Op>, Ctx), all: set<Reg>)
    requires start.stack != [] && Top(start).current == 0 && ctx2.stack != [] && ctx2.preds != []
    requires Emit(body, env, BeginCase(start, p, mode).1) == (inner, ctx2) && pre == BeginCase(start, p, mode).0 + inner
    requires one == CaseResult(start, p, mode, inner, ctx2, 0, {})
    requires more == EmitCases(others, env, |one.0|, one.1, {})
    ensures EmitCases(Case(p, mode, body, others), env, 0, start, all) ==
            (pre + EndOps(Top(ctx2), ctx2.next, all) + more.0, more.1)
  {
    var other := EmitCase(p, mode, body, env, 0, start, all);
    EmitCaseIs(p, mode, body, env, 0, start, all, inner, ctx2);
    OneIsAfter(start, p, mode, inner, ctx2, pre, {}, one);
    OneIsAfter(start, p, mode, inner, ctx2, pre, all, other);
    EndOpsLength(Top(ctx2), ctx2.next, all);
    assert |other.0| == |one.0| && other.1 == one.1;
    ReplacedOnlyFirst(others, env, |one.0|, one.1, all);
    EmitCasesIs(Case(p, mode, body, others), env, 0, start, all, other, more);
  }
}
