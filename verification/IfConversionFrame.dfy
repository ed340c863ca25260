/** Emitted operations touch only what they may: noted locals, fresh registers, and locals declared inside. */
module IfConversionFrame {
  import opened Ir
  import opened LocalUpdatesSpec
  import opened LocalUpdatesEffect
  import opened LocalUpdatesFrame
  import opened IfConversion

  ghost predicate EnvOk(env: Env, depth: nat, base: nat) { forall r :: r in env ==> r < base && env[r] <= depth }

  /** The writes objects have noted since a: each is to a visible local, and every inner object noted it too. */
  ghost predicate NewlyWritten(env: Env, a: seq<Clu>, b: seq<Clu>) {
    |a| == |b| && forall i, r :: 0 <= i < |a| && WrittenNow(b[i], r) && !WrittenNow(a[i], r) ==>
      r in env && env[r] < a[i].depth && Noted(b, r, env[r])
  }

  ghost predicate WriteOk(env: Env, lo: nat, stack: seq<Clu>, hi: nat, base: nat, r: Reg) {
    if r < base then r in env ==> Noted(stack, r, env[r]) else lo <= r < hi && !OwnedBy(stack, r)
  }

  ghost predicate WritesOk(env: Env, lo: nat, ops: seq<Op>, stack: seq<Clu>, hi: nat, base: nat) {
    forall r: Reg :: Writes(ops, r) ==> WriteOk(env, lo, stack, hi, base, r)
  }

  /** From ctx, emitting ops leads to ctx2. */
  ghost predicate Confined(env: Env, ctx: Ctx, ops: seq<Op>, ctx2: Ctx, base: nat) {
    && CtxOk(ctx2, base) && ctx.next <= ctx2.next && ctx2.preds == ctx.preds
    && GrowsAll(ctx.stack, ctx2.stack, ctx.next, ctx2.next)
    && NewlyWritten(env, ctx.stack, ctx2.stack)
    && WritesOk(env, ctx.next, ops, ctx2.stack, ctx2.next, base)
  }

  // ---- One operation ----

  lemma GrowsRefl(stack: seq<Clu>, n: nat)
    ensures GrowsAll(stack, stack, n, n)
  {
  }

  lemma WritesOne(op: Op, r: Reg)
    ensures Writes([op], r) <==> !op.WriteGlobal? && op.dst == r
  {
    if !op.WriteGlobal? && op.dst == r { assert [op][0].dst == r; }
  }

  lemma PlainConfined(env: Env, ctx: Ctx, op: Op, base: nat)
    requires CtxOk(ctx, base) && (op.WriteGlobal? || (op.dst !in env && op.dst < base))
    ensures Confined(env, ctx, [op], ctx, base)
  {
    GrowsRefl(ctx.stack, ctx.next);
    forall r: Reg { WritesOne(op, r); }
  }

  lemma NotifyConfined(env: Env, ctx: Ctx, op: Op, base: nat)
    requires CtxOk(ctx, base) && EnvOk(env, |ctx.stack|, base) && !op.WriteGlobal? && op.dst in env
    ensures Confined(env, ctx, [op], Notify(ctx, op.dst, env[op.dst]), base)
  {
    var r, d := op.dst, env[op.dst];
    NotifyAllOk(ctx.stack, ctx.next, r, d, base);
    var c2 := Notify(ctx, r, d);
    forall i | 0 <= i < |ctx.preds|
      ensures !OwnedBy(c2.stack, ctx.preds[i])
    {
      if OwnedBy(c2.stack, ctx.preds[i]) { OwnedByGrown(ctx.stack, c2.stack, ctx.next, c2.next, ctx.preds[i]); }
    }
    forall q: Reg { WritesOne(op, q); }
    forall i, q | 0 <= i < |ctx.stack| && WrittenNow(c2.stack[i], q) && !WrittenNow(ctx.stack[i], q)
      ensures q == r && d < ctx.stack[i].depth
    {
      NotifyWritesOnly(ctx.stack, ctx.next, r, d, i, q);
    }
  }

  lemma {:induction false} NotifyWritesOnly(stack: seq<Clu>, next: nat, r: Reg, depth: nat, i: nat, q: Reg)
    requires i < |stack| == |NotifyAll(stack, next, r, depth).0|
    requires WrittenNow(NotifyAll(stack, next, r, depth).0[i], q) && !WrittenNow(stack[i], q)
    ensures q == r && depth < stack[i].depth
  {
    var n := |stack| - 1;
    NotifyLength(stack[..n], next, r, depth);
    if i < n { NotifyWritesOnly(stack[..n], next, r, depth, i, q); }
  }

  // ---- Sequences ----

  lemma GrowsAllTrans(a: seq<Clu>, b: seq<Clu>, c: seq<Clu>, lo: nat, mid: nat, hi: nat)
    requires GrowsAll(a, b, lo, mid) && GrowsAll(b, c, mid, hi) && lo <= mid <= hi
    ensures GrowsAll(a, c, lo, hi)
  {
    forall i | 0 <= i < |a|
      ensures Grows(a[i], c[i], lo, hi)
    {
      GrowsTrans(a[i], b[i], c[i], lo, mid, hi);
    }
  }

  /** env2 is env with locals declared at `depth`. */
  ghost predicate Extends(env: Env, env2: Env, depth: nat) {
    && (forall r :: r in env ==> r in env2 && env2[r] == env[r])
    && (forall r :: r in env2 && r !in env ==> env2[r] >= depth)
  }

  lemma NewlyWrittenTrans(env: Env, env2: Env, a: seq<Clu>, b: seq<Clu>, c: seq<Clu>, lo: nat, hi: nat)
    requires NewlyWritten(env, a, b) && NewlyWritten(env2, b, c) && GrowsAll(b, c, lo, hi)
    requires Extends(env, env2, |a|) && (forall i :: 0 <= i < |a| ==> a[i].depth == b[i].depth <= |a|)
    ensures NewlyWritten(env, a, c)
  {
    forall i, r | 0 <= i < |a| && WrittenNow(c[i], r) && !WrittenNow(a[i], r)
      ensures r in env && env[r] < a[i].depth && Noted(c, r, env[r])
    {
      if WrittenNow(b[i], r) { NotedGrown(b, c, lo, hi, r, env[r]); }
    }
  }

  lemma WritesOkLater(env: Env, lo: nat, ops: seq<Op>, b: seq<Clu>, mid: nat, c: seq<Clu>, hi: nat, base: nat)
    requires WritesOk(env, lo, ops, b, mid, base) && GrowsAll(b, c, mid, hi) && mid <= hi
    ensures WritesOk(env, lo, ops, c, hi, base)
  {
    forall r: Reg | Writes(ops, r)
      ensures WriteOk(env, lo, c, hi, base, r)
    {
      if r < base {
        if r in env { NotedGrown(b, c, mid, hi, r, env[r]); }
      } else if OwnedBy(c, r) {
        OwnedByGrown(b, c, mid, hi, r);
      }
    }
  }

  lemma WritesOkConcat(env: Env, env2: Env, depth: nat, lo: nat, mid: nat, x: seq<Op>, y: seq<Op>, stack: seq<Clu>,
                       hi: nat, base: nat)
    requires WritesOk(env, lo, x, stack, hi, base) && WritesOk(env2, mid, y, stack, hi, base)
    requires lo <= mid && Extends(env, env2, depth)
    ensures WritesOk(env, lo, x + y, stack, hi, base)
  {
    forall r: Reg | Writes(x + y, r)
      ensures WriteOk(env, lo, stack, hi, base, r)
    {
      WritesConcat(x, y, r);
      assert Writes(x, r) ==> WriteOk(env, lo, stack, hi, base, r);
      assert Writes(y, r) ==> WriteOk(env2, mid, stack, hi, base, r);
    }
  }

  lemma ConfinedSeq(env: Env, env2: Env, ctx: Ctx, x: seq<Op>, ctx1: Ctx, y: seq<Op>, ctx2: Ctx, base: nat)
    requires CtxOk(ctx, base) && Confined(env, ctx, x, ctx1, base) && Confined(env2, ctx1, y, ctx2, base)
    requires Extends(env, env2, |ctx.stack|)
    ensures Confined(env, ctx, x + y, ctx2, base)
  {
    GrowsAllTrans(ctx.stack, ctx1.stack, ctx2.stack, ctx.next, ctx1.next, ctx2.next);
    assert forall i :: 0 <= i < |ctx.stack| ==> Grows(ctx.stack[i], ctx1.stack[i], ctx.next, ctx1.next);
    NewlyWrittenTrans(env, env2, ctx.stack, ctx1.stack, ctx2.stack, ctx1.next, ctx2.next);
    WritesOkLater(env, ctx.next, x, ctx1.stack, ctx1.next, ctx2.stack, ctx2.next, base);
    WritesOkConcat(env, env2, |ctx.stack|, ctx.next, ctx1.next, x, y, ctx2.stack, ctx2.next, base);
  }

  // ---- Inside a conditional ----

  ghost function Outer(ctx: Ctx): seq<Clu>
    requires ctx.stack != []
  {
    ctx.stack[..|ctx.stack| - 1]
  }

  ghost predicate TopOk(env: Env, lo: nat, top: Clu, outer: seq<Clu>) {
    && (forall r :: r in top.updated ==> r in env && Noted(outer, r, env[r]))
    && (forall x: Reg :: Owns(top.updated, x) ==> lo <= x)
    && (forall r, k :: r in top.updated && k in top.updated[r].cases ==> k < top.current)
  }

  /** What has happened to the objects outside since ctx, while ops were emitted. */
  ghost predicate OuterOk(env: Env, ctx: Ctx, ops: seq<Op>, outer: seq<Clu>, next: nat, base: nat) {
    && ctx.next <= next && GrowsAll(ctx.stack, outer, ctx.next, next)
    && NewlyWritten(env, ctx.stack, outer)
    && WritesOk(env, ctx.next, ops, outer, next, base)
  }

  /** Between cases: ctx was the context before the object was created, ops what its cases emitted so far. */
  ghost predicate Inside(env: Env, ctx: Ctx, ops: seq<Op>, now: Ctx, base: nat) {
    && CtxOk(now, base) && now.preds == ctx.preds && |now.stack| == |ctx.stack| + 1
    && OuterOk(env, ctx, ops, Outer(now), now.next, base)
    && TopOk(env, ctx.next, Top(now), Outer(now))
  }

  ghost predicate Continues(env: Env, ctx: Ctx, ops: seq<Op>, r: (seq<Op>, Ctx), base: nat) {
    Inside(env, ctx, ops + r.0, r.1, base)
  }

  lemma OpenedOk(ctx: Ctx, base: nat)
    requires CtxOk(ctx, base)
    ensures CtxOk(Opened(ctx), base)
  {
    var now := Opened(ctx);
    forall i | 0 <= i < |now.stack|
      ensures now.stack[i].depth == i + 1 && CluOk(now.stack[i], base, ctx.next)
    {
      assert i < |ctx.stack| ==> now.stack[i] == ctx.stack[i];
    }
    forall x: Reg | OwnedBy(now.stack, x)
      ensures OwnedBy(ctx.stack, x)
    {
      var i :| 0 <= i < |now.stack| && Owns(now.stack[i].updated, x);
      assert i < |ctx.stack|;
      assert now.stack[i] == ctx.stack[i];
    }
  }

  lemma InsideStarts(env: Env, ctx: Ctx, base: nat)
    requires CtxOk(ctx, base)
    ensures Inside(env, ctx, [], Opened(ctx), base)
  {
    assert Outer(Opened(ctx)) == ctx.stack;
    OpenedOk(ctx, base);
    GrowsRefl(ctx.stack, ctx.next);
  }

  /** d differs from c only in fields other than the registers it owns, and may have moved to a later case. */
  ghost predicate SameOwner(c: Clu, d: Clu) {
    && d.depth == c.depth && d.order == c.order && c.current <= d.current && d.updated.Keys == c.updated.Keys
    && (forall r :: r in c.updated ==> d.updated[r] == c.updated[r].(firstSelect := d.updated[r].firstSelect))
  }

  lemma SameOwnerOwns(c: Clu, d: Clu, x: Reg)
    requires SameOwner(c, d)
    ensures Owns(c.updated, x) == Owns(d.updated, x)
  {
    if Owns(c.updated, x) {
      var r :| r in c.updated && (x == c.updated[r].backup || x == c.updated[r].value);
      assert r in d.updated;
    }
  }

  lemma SameOwnerOk(c: Clu, d: Clu, base: nat, next: nat)
    requires SameOwner(c, d) && CluOk(c, base, next)
    ensures CluOk(d, base, next)
  {
    forall x: Reg { SameOwnerOwns(c, d, x); }
  }

  lemma SameOwnerSeparate(u: map<Reg, Updated>, c: Clu, d: Clu)
    requires SameOwner(c, d) && Separate(u, c.updated)
    ensures Separate(u, d.updated)
  {
    forall x: Reg | Owns(u, x)
      ensures !Owns(d.updated, x)
    {
      SameOwnerOwns(c, d, x);
    }
  }

  lemma ReplaceTopEach(stack: seq<Clu>, d: Clu, base: nat, next: nat, later: nat, i: nat)
    requires stack != [] && StackOk(stack, base, next) && SameOwner(stack[|stack| - 1], d) && next <= later
    requires i < |stack|
    ensures var now := (stack[..|stack| - 1] + [d])[i];
      CluOk(now, base, later) && now.depth == i + 1
  {
    var n := |stack| - 1;
    assert CluOk(stack[i], base, next) && stack[i].depth == i + 1;
    if i == n {
      SameOwnerOk(stack[n], d, base, next);
      CluOkLater(d, base, next, later);
    } else {
      CluOkLater(stack[i], base, next, later);
    }
  }

  lemma ReplaceTopApart(stack: seq<Clu>, d: Clu, base: nat, next: nat, i: nat, j: nat)
    requires stack != [] && StackOk(stack, base, next) && SameOwner(stack[|stack| - 1], d) && i < j < |stack|
    ensures Separate((stack[..|stack| - 1] + [d])[i].updated, (stack[..|stack| - 1] + [d])[j].updated)
  {
    assert Separate(stack[i].updated, stack[j].updated);
    if j == |stack| - 1 { SameOwnerSeparate(stack[i].updated, stack[j], d); }
  }

  lemma ReplaceTopOwned(stack: seq<Clu>, d: Clu, x: Reg)
    requires stack != [] && SameOwner(stack[|stack| - 1], d) && OwnedBy(stack[..|stack| - 1] + [d], x)
    ensures OwnedBy(stack, x)
  {
    var now := stack[..|stack| - 1] + [d];
    var i :| 0 <= i < |now| && Owns(now[i].updated, x);
    if i == |stack| - 1 { SameOwnerOwns(stack[i], d, x); }
    assert Owns(stack[i].updated, x);
  }

  lemma ReplaceTopOk(stack: seq<Clu>, d: Clu, base: nat, next: nat, later: nat)
    requires stack != [] && StackOk(stack, base, next) && SameOwner(stack[|stack| - 1], d) && next <= later
    ensures StackOk(stack[..|stack| - 1] + [d], base, later)
    ensures forall x: Reg :: OwnedBy(stack[..|stack| - 1] + [d], x) ==> OwnedBy(stack, x)
  {
    var now := stack[..|stack| - 1] + [d];
    forall i | 0 <= i < |now|
      ensures CluOk(now[i], base, later) && now[i].depth == i + 1
    {
      ReplaceTopEach(stack, d, base, next, later, i);
    }
    forall i, j | 0 <= i < j < |now|
      ensures Separate(now[i].updated, now[j].updated)
    {
      ReplaceTopApart(stack, d, base, next, i, j);
    }
    forall x: Reg | OwnedBy(now, x)
      ensures OwnedBy(stack, x)
    {
      ReplaceTopOwned(stack, d, x);
    }
  }

  lemma BeginWrites(ctx: Ctx, p: Reg, mode: Mode, r: Reg)
    requires ctx.stack != [] && Writes(BeginCase(ctx, p, mode).0, r)
    ensures ctx.next <= r < BeginCase(ctx, p, mode).1.next
  {
    if mode == Normal {
      assert |BeginCase(ctx, p, mode).0| <= 3;
    } else {
      assert |BeginCase(ctx, p, mode).0| <= 4;
    }
  }

  /** BeginCase allocates registers nobody owns; the predicate copy is the first of them. */
  lemma BeginOk(ctx: Ctx, p: Reg, mode: Mode, base: nat)
    requires CtxOk(ctx, base) && ctx.stack != []
    ensures var (ops, now) := BeginCase(ctx, p, mode);
      && CtxOk(now, base) && ctx.next < now.next
      && now.stack == Outer(ctx) + [Top(ctx).(predicate_ := ctx.next, mode := mode)]
      && |now.preds| == |ctx.preds| + 1 && now.preds[..|ctx.preds|] == ctx.preds
      && ctx.next <= now.preds[|ctx.preds|]
  {
    var (ops, now) := BeginCase(ctx, p, mode);
    ReplaceTopOk(ctx.stack, Top(ctx).(predicate_ := ctx.next, mode := mode), base, ctx.next, now.next);
    forall i | 0 <= i < |now.preds|
      ensures !OwnedBy(now.stack, now.preds[i]) && base <= now.preds[i] < now.next
    {
      if i < |ctx.preds| {
        assert now.preds[i] == ctx.preds[i];
      } else {
        NotOwnedYet(ctx, now.preds[i], base);
      }
    }
  }

  lemma NotOwnedYet(ctx: Ctx, x: Reg, base: nat)
    requires CtxOk(ctx, base) && ctx.next <= x
    ensures !OwnedBy(ctx.stack, x)
  {
  }

  // ---- EndCase ----

  lemma {:induction false} RecordFirstKeeps(c: Clu, n: nat, at: nat)
    ensures var u := RecordFirst(c, n, at);
      u.Keys == c.updated.Keys && forall r :: r in u ==> u[r] == c.updated[r].(firstSelect := u[r].firstSelect)
  {
    if n > 0 { RecordFirstKeeps(c, n - 1, at); }
  }

  lemma {:induction false} EndWrites(c: Clu, n: nat, replaced: set<Reg>, x: Reg)
    requires Writes(EndOps(c, n, replaced), x)
    ensures WrittenNow(c, x) || Owns(c.updated, x)
  {
    if n > 0 {
      WritesConcat(EndOps(c, n - 1, replaced), EndOne(c, n - 1, replaced), x);
      if Writes(EndOps(c, n - 1, replaced), x) {
        EndWrites(c, n - 1, replaced, x);
      } else {
        assert WrittenNow(c, n - 1);
        assert x == n - 1 || x == c.updated[n - 1].value;
      }
    }
  }

  lemma AfterCaseOk(ctx: Ctx, at: nat, base: nat)
    requires CtxOk(ctx, base) && ctx.stack != [] && ctx.preds != []
    ensures var now := AfterCase(ctx, at);
      && CtxOk(now, base) && now.next == ctx.next && Outer(now) == Outer(ctx) && SameOwner(Top(ctx), Top(now))
      && now.preds == ctx.preds[..|ctx.preds| - 1]
  {
    var now := AfterCase(ctx, at);
    RecordFirstKeeps(Top(ctx), ctx.next, at);
    ReplaceTopOk(ctx.stack, Top(now), base, ctx.next, ctx.next);
  }

  // ---- One case ----

  lemma GrowsAllLater(a: seq<Clu>, b: seq<Clu>, lo: nat, hi: nat, later: nat)
    requires GrowsAll(a, b, lo, hi) && hi <= later
    ensures GrowsAll(a, b, lo, later)
  {
    forall i | 0 <= i < |a|
      ensures Grows(a[i], b[i], lo, later)
    {
      assert Grows(a[i], b[i], lo, hi);
    }
  }

  lemma WritesOkGrow(env: Env, lo: nat, ops: seq<Op>, more: seq<Op>, outer: seq<Clu>, hi: nat, base: nat)
    requires WritesOk(env, lo, ops, outer, hi, base)
    requires forall r: Reg :: Writes(more, r) ==> WriteOk(env, lo, outer, hi, base, r)
    ensures WritesOk(env, lo, ops + more, outer, hi, base)
  {
    forall r: Reg | Writes(ops + more, r)
      ensures WriteOk(env, lo, outer, hi, base, r)
    {
      WritesConcat(ops, more, r);
    }
  }

  lemma BeginKeepsOuter(env: Env, ctx: Ctx, ops: seq<Op>, now: Ctx, p: Reg, mode: Mode, base: nat)
    requires CtxOk(now, base) && now.stack != [] && OuterOk(env, ctx, ops, Outer(now), now.next, base)
    requires base <= ctx.next
    ensures var (begin, next) := BeginCase(now, p, mode);
      OuterOk(env, ctx, ops + begin, Outer(next), next.next, base)
  {
    var (begin, next) := BeginCase(now, p, mode);
    BeginOk(now, p, mode, base);
    assert Outer(next) == Outer(now);
    GrowsAllLater(ctx.stack, Outer(now), ctx.next, now.next, next.next);
    GrowsRefl(Outer(now), now.next);
    GrowsAllLater(Outer(now), Outer(now), now.next, now.next, next.next);
    WritesOkLater(env, ctx.next, ops, Outer(now), now.next, Outer(now), next.next, base);
    forall r: Reg | Writes(begin, r)
      ensures WriteOk(env, ctx.next, Outer(now), next.next, base, r)
    {
      BeginWrites(now, p, mode, r);
      NotOwnedYet(now, r, base);
      OuterOwned(now, r);
    }
    WritesOkGrow(env, ctx.next, ops, begin, Outer(now), next.next, base);
  }

  lemma OuterOwned(ctx: Ctx, x: Reg)
    requires ctx.stack != []
    ensures OwnedBy(Outer(ctx), x) ==> OwnedBy(ctx.stack, x)
  {
    if i :| 0 <= i < |Outer(ctx)| && Owns(Outer(ctx)[i].updated, x) {
      assert Owns(ctx.stack[i].updated, x);
    }
  }

  lemma OuterNoted(ctx: Ctx, r: Reg, depth: nat)
    requires ctx.stack != [] && Noted(ctx.stack, r, depth)
    ensures Noted(Outer(ctx), r, depth)
  {
    forall i | 0 <= i < |Outer(ctx)| && depth < Outer(ctx)[i].depth
      ensures WrittenNow(Outer(ctx)[i], r)
    {
      assert ctx.stack[i] == Outer(ctx)[i];
    }
  }

  lemma OuterNewlyWritten(env: Env, ctx1: Ctx, ctx2: Ctx)
    requires ctx1.stack != [] && |ctx2.stack| == |ctx1.stack| && NewlyWritten(env, ctx1.stack, ctx2.stack)
    ensures NewlyWritten(env, Outer(ctx1), Outer(ctx2))
  {
    forall i, r | 0 <= i < |Outer(ctx1)| && WrittenNow(Outer(ctx2)[i], r) && !WrittenNow(Outer(ctx1)[i], r)
      ensures r in env && env[r] < Outer(ctx1)[i].depth && Noted(Outer(ctx2), r, env[r])
    {
      assert WrittenNow(ctx2.stack[i], r) && !WrittenNow(ctx1.stack[i], r);
      OuterNoted(ctx2, r, env[r]);
    }
  }

  lemma OuterWritesOk(env: Env, lo: nat, ops: seq<Op>, ctx: Ctx, base: nat)
    requires ctx.stack != [] && WritesOk(env, lo, ops, ctx.stack, ctx.next, base)
    ensures WritesOk(env, lo, ops, Outer(ctx), ctx.next, base)
  {
    forall r: Reg | Writes(ops, r)
      ensures WriteOk(env, lo, Outer(ctx), ctx.next, base, r)
    {
      assert WriteOk(env, lo, ctx.stack, ctx.next, base, r);
      if r < base {
        if r in env { OuterNoted(ctx, r, env[r]); }
      } else {
        OuterOwned(ctx, r);
      }
    }
  }

  lemma OuterConfined(env: Env, ctx1: Ctx, inner: seq<Op>, ctx2: Ctx, base: nat)
    requires ctx1.stack != [] && |ctx2.stack| == |ctx1.stack| && Confined(env, ctx1, inner, ctx2, base)
    ensures GrowsAll(Outer(ctx1), Outer(ctx2), ctx1.next, ctx2.next) && NewlyWritten(env, Outer(ctx1), Outer(ctx2))
    ensures WritesOk(env, ctx1.next, inner, Outer(ctx2), ctx2.next, base)
  {
    OuterNewlyWritten(env, ctx1, ctx2);
    OuterWritesOk(env, ctx1.next, inner, ctx2, base);
    forall i | 0 <= i < |Outer(ctx1)|
      ensures Grows(Outer(ctx1)[i], Outer(ctx2)[i], ctx1.next, ctx2.next)
    {
      assert Grows(ctx1.stack[i], ctx2.stack[i], ctx1.next, ctx2.next);
    }
  }

  lemma BodyKeepsOuter(env: Env, ctx: Ctx, ops: seq<Op>, ctx1: Ctx, inner: seq<Op>, ctx2: Ctx, base: nat)
    requires CtxOk(ctx, base) && CtxOk(ctx1, base) && |ctx1.stack| == |ctx2.stack| == |ctx.stack| + 1
    requires OuterOk(env, ctx, ops, Outer(ctx1), ctx1.next, base) && Confined(env, ctx1, inner, ctx2, base)
    ensures OuterOk(env, ctx, ops + inner, Outer(ctx2), ctx2.next, base)
  {
    OuterConfined(env, ctx1, inner, ctx2, base);
    GrowsAllTrans(ctx.stack, Outer(ctx1), Outer(ctx2), ctx.next, ctx1.next, ctx2.next);
    forall i | 0 <= i < |ctx.stack|
      ensures ctx.stack[i].depth == Outer(ctx1)[i].depth <= |ctx.stack|
    {
      assert Grows(ctx.stack[i], Outer(ctx1)[i], ctx.next, ctx1.next);
    }
    assert Extends(env, env, |ctx.stack|);
    NewlyWrittenTrans(env, env, ctx.stack, Outer(ctx1), Outer(ctx2), ctx1.next, ctx2.next);
    WritesOkLater(env, ctx.next, ops, Outer(ctx1), ctx1.next, Outer(ctx2), ctx2.next, base);
    WritesOkConcat(env, env, |ctx.stack|, ctx.next, ctx1.next, ops, inner, Outer(ctx2), ctx2.next, base);
  }

  lemma BodyTracks(env: Env, lo: nat, ctx1: Ctx, inner: seq<Op>, ctx2: Ctx, base: nat, r: Reg)
    requires |ctx1.stack| == |ctx2.stack| > 0 && Confined(env, ctx1, inner, ctx2, base)
    requires TopOk(env, lo, Top(ctx1), Outer(ctx1)) && r in Top(ctx2).updated
    ensures r in env && Noted(Outer(ctx2), r, env[r])
  {
    var n := |ctx1.stack| - 1;
    assert Grows(ctx1.stack[n], ctx2.stack[n], ctx1.next, ctx2.next);
    if r in Top(ctx1).updated {
      OuterConfined(env, ctx1, inner, ctx2, base);
      NotedGrown(Outer(ctx1), Outer(ctx2), ctx1.next, ctx2.next, r, env[r]);
    } else {
      assert WrittenNow(ctx2.stack[n], r) && !WrittenNow(ctx1.stack[n], r);
      OuterNoted(ctx2, r, env[r]);
    }
  }

  /** After the body, the top object still tracks only visible locals that the outer objects noted as well. */
  lemma BodyKeepsTop(env: Env, lo: nat, ctx1: Ctx, inner: seq<Op>, ctx2: Ctx, base: nat)
    requires |ctx1.stack| == |ctx2.stack| > 0 && Confined(env, ctx1, inner, ctx2, base)
    requires TopOk(env, lo, Top(ctx1), Outer(ctx1)) && lo <= ctx1.next
    ensures TopOk(env, lo, Top(ctx2).(current := Top(ctx2).current + 1), Outer(ctx2))
  {
    var n := |ctx1.stack| - 1;
    assert Grows(ctx1.stack[n], ctx2.stack[n], ctx1.next, ctx2.next);
    assert CluOk(ctx2.stack[n], base, ctx2.next);
    forall r | r in Top(ctx2).updated
      ensures r in env && Noted(Outer(ctx2), r, env[r])
    {
      BodyTracks(env, lo, ctx1, inner, ctx2, base, r);
    }
    forall x: Reg | Owns(Top(ctx2).updated, x)
      ensures lo <= x
    {
      GrowsOwned(Top(ctx1), Top(ctx2), ctx1.next, ctx2.next, x);
    }
  }

  lemma EndKeepsOuter(env: Env, ctx: Ctx, ops: seq<Op>, ctx2: Ctx, replaced: set<Reg>, base: nat)
    requires CtxOk(ctx2, base) && |ctx2.stack| == |ctx.stack| + 1
    requires OuterOk(env, ctx, ops, Outer(ctx2), ctx2.next, base)
    requires TopOk(env, ctx.next, Top(ctx2).(current := Top(ctx2).current + 1), Outer(ctx2))
    ensures OuterOk(env, ctx, ops + EndOps(Top(ctx2), ctx2.next, replaced), Outer(ctx2), ctx2.next, base)
  {
    var end := EndOps(Top(ctx2), ctx2.next, replaced);
    forall x: Reg | Writes(end, x)
      ensures WriteOk(env, ctx.next, Outer(ctx2), ctx2.next, base, x)
    {
      EndWrites(Top(ctx2), ctx2.next, replaced, x);
      TopWriteOk(env, ctx, ctx2, x, base);
    }
    WritesOkGrow(env, ctx.next, ops, end, Outer(ctx2), ctx2.next, base);
  }

  /** A register the top object tracks or owns may be written as far as the outer objects are concerned. */
  lemma TopWriteOk(env: Env, ctx: Ctx, now: Ctx, x: Reg, base: nat)
    requires CtxOk(now, base) && |now.stack| == |ctx.stack| + 1
    requires TopOk(env, ctx.next, Top(now).(current := Top(now).current + 1), Outer(now))
    requires x in Top(now).updated || Owns(Top(now).updated, x)
    ensures WriteOk(env, ctx.next, Outer(now), now.next, base, x)
  {
    var n := |now.stack| - 1;
    assert CluOk(now.stack[n], base, now.next);
    forall i | 0 <= i < n && Owns(Top(now).updated, x)
      ensures !Owns(Outer(now)[i].updated, x)
    {
      assert Separate(now.stack[i].updated, now.stack[n].updated);
    }
  }

  lemma InsideCase(env: Env, ctx: Ctx, ops: seq<Op>, now: Ctx, p: Reg, mode: Mode, inner: seq<Op>, ctx2: Ctx, at: nat,
                   replaced: set<Reg>, base: nat)
    requires CtxOk(ctx, base) && Inside(env, ctx, ops, now, base)
    requires |ctx2.stack| == |now.stack| && Confined(env, BeginCase(now, p, mode).1, inner, ctx2, base)
    ensures ctx2.preds != []
    ensures Inside(env, ctx, ops + BeginCase(now, p, mode).0 + inner + EndOps(Top(ctx2), ctx2.next, replaced),
                   AfterCase(ctx2, at), base)
  {
    var (begin, ctx1) := BeginCase(now, p, mode);
    BeginOk(now, p, mode, base);
    BeginKeepsOuter(env, ctx, ops, now, p, mode, base);
    assert Outer(ctx1) == Outer(now);
    BodyKeepsOuter(env, ctx, ops + begin, ctx1, inner, ctx2, base);
    BodyKeepsTop(env, ctx.next, ctx1, inner, ctx2, base);
    EndKeepsOuter(env, ctx, ops + begin + inner, ctx2, replaced, base);
    AfterCaseOk(ctx2, at, base);
    var now2 := AfterCase(ctx2, at);
    RecordFirstKeeps(Top(ctx2), ctx2.next, at);
    forall x: Reg { SameOwnerOwns(Top(ctx2), Top(now2), x); }
  }

  // ---- Closing a conditional ----

  lemma {:induction false} SetCompleteWrites(ops: seq<Op>, c: Clu, n: nat, x: Reg)
    ensures |SetComplete(ops, c, n)| == |ops|
    ensures Writes(SetComplete(ops, c, n), x) ==> Writes(ops, x) || Owns(c.updated, x)
  {
    if n > 0 {
      SetCompleteWrites(ops, c, n - 1, x);
      var before, after := SetComplete(ops, c, n - 1), SetComplete(ops, c, n);
      if i :| 0 <= i < |after| && !after[i].WriteGlobal? && after[i].dst == x {
        assert before[i] == after[i] ==> Writes(before, x);
        assert before[i] != after[i] ==> x == c.updated[n - 1].value && Owns(c.updated, x);
      }
    }
  }

  lemma {:induction false} BackupWrites(u: map<Reg, Updated>, order: seq<Reg>, x: Reg)
    requires Writes(BackupOps(u, order), x)
    ensures Owns(u, x)
  {
    var n := |order| - 1;
    WritesConcat(BackupOps(u, order[..n]), BackupOne(u, order[n]), x);
    if Writes(BackupOps(u, order[..n]), x) {
      BackupWrites(u, order[..n], x);
    } else {
      assert x == u[order[n]].backup || x == u[order[n]].value;
    }
  }

  lemma {:induction false} CopyWrites(u: map<Reg, Updated>, n: nat, x: Reg)
    requires Writes(CopyOps(u, n), x)
    ensures x in u
  {
    WritesConcat(CopyOps(u, n - 1), CopyOne(u, n - 1), x);
    if Writes(CopyOps(u, n - 1), x) { CopyWrites(u, n - 1, x); }
  }

  lemma CloseWrites(env: Env, ctx: Ctx, ops: seq<Op>, now: Ctx, complete: bool, base: nat)
    requires Inside(env, ctx, ops, now, base)
    ensures WritesOk(env, ctx.next, EmitCond(ops, complete, now), Outer(now), now.next, base)
  {
    var c := Top(now);
    var middle := if complete then SetComplete(ops, c, now.next) else ops;
    forall x: Reg | Writes(EmitCond(ops, complete, now), x)
      ensures WriteOk(env, ctx.next, Outer(now), now.next, base, x)
    {
      WritesConcat(BackupOps(c.updated, c.order) + middle, CopyOps(c.updated, now.next), x);
      WritesConcat(BackupOps(c.updated, c.order), middle, x);
      SetCompleteWrites(ops, c, now.next, x);
      if Writes(BackupOps(c.updated, c.order), x) { BackupWrites(c.updated, c.order, x); }
      if Writes(CopyOps(c.updated, now.next), x) { CopyWrites(c.updated, now.next, x); }
      if !Writes(ops, x) { TopWriteOk(env, ctx, now, x, base); }
    }
  }

  lemma CloseConfined(env: Env, ctx: Ctx, ops: seq<Op>, now: Ctx, complete: bool, base: nat)
    requires CtxOk(ctx, base) && Inside(env, ctx, ops, now, base)
    ensures Confined(env, ctx, EmitCond(ops, complete, now), Closed(now), base)
  {
    CloseWrites(env, ctx, ops, now, complete, base);
    var n := |ctx.stack|;
    forall i, j | 0 <= i < j < n
      ensures Separate(Outer(now)[i].updated, Outer(now)[j].updated)
    {
      assert Separate(now.stack[i].updated, now.stack[j].updated);
    }
    forall i | 0 <= i < |now.preds|
      ensures !OwnedBy(Outer(now), now.preds[i])
    {
      OuterOwned(now, now.preds[i]);
    }
  }

  // ---- The induction over the program ----

  lemma {:induction false} EmitConfined(p: Program, env: Env, ctx: Ctx, base: nat)
    requires CtxOk(ctx, base) && EnvOk(env, |ctx.stack|, base) && Scoped(p, env, |ctx.stack|, base)
    ensures Confined(env, ctx, Emit(p, env, ctx).0, Emit(p, env, ctx).1, base)
    decreases p, 0
  {
    match p
    case Skip =>
      GrowsRefl(ctx.stack, ctx.next);
    case Then(first, rest) =>
      var (ops, ctx1) := EmitStmt(first, env, ctx);
      var env2 := EnvAfter(first, env, |ctx.stack|);
      StmtConfined(first, env, ctx, base);
      EmitConfined(rest, env2, ctx1, base);
      ConfinedSeq(env, env2, ctx, ops, ctx1, Emit(rest, env2, ctx1).0, Emit(rest, env2, ctx1).1, base);
  }

  lemma {:induction false} StmtConfined(st: Stmt, env: Env, ctx: Ctx, base: nat)
    requires CtxOk(ctx, base) && EnvOk(env, |ctx.stack|, base) && ScopedStmt(st, env, |ctx.stack|, base)
    ensures Confined(env, ctx, EmitStmt(st, env, ctx).0, EmitStmt(st, env, ctx).1, base)
    decreases st, 0
  {
    match st
    case Declare(dst, f, srcs) => PlainConfined(env, ctx, Compute(dst, f, srcs), base);
    case Assign(dst, f, srcs) => NotifyConfined(env, ctx, Compute(dst, f, srcs), base);
    case Load(dst, g) => NotifyConfined(env, ctx, ReadGlobal(dst, g), base);
    case Store(g, r) => PlainConfined(env, ctx, WriteGlobal(g, r, Guard(ctx)), base);
    case Cond(cases, complete) =>
      InsideStarts(env, ctx, base);
      CasesInside(cases, env, ctx, [], Opened(ctx), 0, {}, base);
      var (ops, now) := EmitCases(cases, env, 0, Opened(ctx), {});
      assert [] + ops == ops;
      CloseConfined(env, ctx, ops, now, complete, base);
  }

  lemma {:induction false} CasesInside(cases: CaseList, env: Env, ctx: Ctx, ops: seq<Op>, now: Ctx, at: nat,
                                       replaced: set<Reg>, base: nat)
    requires CtxOk(ctx, base) && EnvOk(env, |ctx.stack|, base) && Inside(env, ctx, ops, now, base)
    requires ScopedCases(cases, env, |ctx.stack| + 1, base)
    ensures Continues(env, ctx, ops, EmitCases(cases, env, at, now, replaced), base)
    decreases cases, 0
  {
    match cases
    case NoMore =>
      assert ops + [] == ops;
    case Case(p, mode, body, others) =>
      var one := EmitCase(p, mode, body, env, at, now, replaced);
      var more := EmitCases(others, env, at + |one.0|, one.1, replaced);
      CaseInside(p, mode, body, env, ctx, ops, now, at, replaced, base);
      CasesInside(others, env, ctx, ops + one.0, one.1, at + |one.0|, replaced, base);
      assert Continues(env, ctx, ops + one.0, EmitCases(others, env, at + |one.0|, one.1, replaced), base);
      assert Continues(env, ctx, ops + one.0, more, base);
      ContinuesTwice(env, ctx, ops, one.0, more, base);
      EmitCasesIs(cases, env, at, now, replaced, one, more);
  }

  lemma EmitCasesIs(cases: CaseList, env: Env, at: nat, now: Ctx, replaced: set<Reg>, one: (seq<Op>, Ctx),
                    more: (seq<Op>, Ctx))
    requires now.stack != [] && one.1.stack != [] && cases.Case?
    requires one == EmitCase(cases.predicate_, cases.mode, cases.body, env, at, now, replaced)
    requires more == EmitCases(cases.others, env, at + |one.0|, one.1, replaced)
    ensures EmitCases(cases, env, at, now, replaced) == (one.0 + more.0, more.1)
  {
  }

  lemma ContinuesTwice(env: Env, ctx: Ctx, ops: seq<Op>, one: seq<Op>, more: (seq<Op>, Ctx), base: nat)
    requires Continues(env, ctx, ops + one, more, base)
    ensures Continues(env, ctx, ops, (one + more.0, more.1), base)
  {
    Associate(ops, one, more.0);
  }

  lemma Associate(a: seq<Op>, b: seq<Op>, c: seq<Op>)
    ensures a + (b + c) == a + b + c
  {
  }

  lemma {:induction false} CaseInside(p: Reg, mode: Mode, body: Program, env: Env, ctx: Ctx, ops: seq<Op>, now: Ctx,
                                      at: nat, replaced: set<Reg>, base: nat)
    requires CtxOk(ctx, base) && EnvOk(env, |ctx.stack|, base) && Inside(env, ctx, ops, now, base)
    requires Scoped(body, env, |ctx.stack| + 1, base)
    ensures Continues(env, ctx, ops, EmitCase(p, mode, body, env, at, now, replaced), base)
    decreases body, 2
  {
    var inner, ctx2 := CaseBody(p, mode, body, env, ctx, ops, now, at, replaced, base);
    CaseCompose(env, ctx, ops, now, p, mode, inner, ctx2, at, Replaced(now, replaced), base);
  }

  /** The body of a case, and how the case is put together from it. */
  lemma {:induction false} CaseBody(p: Reg, mode: Mode, body: Program, env: Env, ctx: Ctx, ops: seq<Op>, now: Ctx,
                                    at: nat, replaced: set<Reg>, base: nat) returns (inner: seq<Op>, ctx2: Ctx)
    requires EnvOk(env, |ctx.stack|, base) && Inside(env, ctx, ops, now, base)
    requires Scoped(body, env, |ctx.stack| + 1, base)
    ensures (inner, ctx2) == Emit(body, env, BeginCase(now, p, mode).1) && |ctx2.stack| == |now.stack|
    ensures ctx2.preds != []
    ensures Confined(env, BeginCase(now, p, mode).1, inner, ctx2, base)
    ensures EmitCase(p, mode, body, env, at, now, replaced) ==
            CaseResult(now, p, mode, inner, ctx2, at, Replaced(now, replaced))
    decreases body, 1
  {
    var ctx1 := BeginCase(now, p, mode).1;
    BodyReady(env, ctx, ops, now, p, mode, base);
    EmitConfined(body, env, ctx1, base);
    inner, ctx2 := Emit(body, env, ctx1).0, Emit(body, env, ctx1).1;
    EmitCaseIs(p, mode, body, env, at, now, replaced, inner, ctx2);
  }

  ghost function Replaced(now: Ctx, replaced: set<Reg>): set<Reg>
    requires now.stack != []
  {
    if Top(now).current == 0 then replaced else {}
  }

  lemma EmitCaseIs(p: Reg, mode: Mode, body: Program, env: Env, at: nat, now: Ctx, replaced: set<Reg>, inner: seq<Op>,
                   ctx2: Ctx)
    requires now.stack != [] && Emit(body, env, BeginCase(now, p, mode).1) == (inner, ctx2)
    ensures EmitCase(p, mode, body, env, at, now, replaced) ==
            CaseResult(now, p, mode, inner, ctx2, at, Replaced(now, replaced))
  {
  }

  lemma BodyReady(env: Env, ctx: Ctx, ops: seq<Op>, now: Ctx, p: Reg, mode: Mode, base: nat)
    requires Inside(env, ctx, ops, now, base) && EnvOk(env, |ctx.stack|, base)
    ensures CtxOk(BeginCase(now, p, mode).1, base) && |BeginCase(now, p, mode).1.stack| == |ctx.stack| + 1
    ensures EnvOk(env, |ctx.stack| + 1, base)
  {
    BeginOk(now, p, mode, base);
  }

  ghost function CaseResult(now: Ctx, p: Reg, mode: Mode, inner: seq<Op>, ctx2: Ctx, at: nat, replaced: set<Reg>)
    : (seq<Op>, Ctx)
    requires now.stack != [] && ctx2.stack != [] && ctx2.preds != []
  {
    var begin := BeginCase(now, p, mode).0;
    (begin + inner + EndOps(Top(ctx2), ctx2.next, replaced), AfterCase(ctx2, at + |begin| + |inner|))
  }

  lemma CaseCompose(env: Env, ctx: Ctx, ops: seq<Op>, now: Ctx, p: Reg, mode: Mode, inner: seq<Op>, ctx2: Ctx, at: nat,
                    replaced: set<Reg>, base: nat)
    requires CtxOk(ctx, base) && Inside(env, ctx, ops, now, base)
    requires |ctx2.stack| == |now.stack| && Confined(env, BeginCase(now, p, mode).1, inner, ctx2, base)
    ensures ctx2.preds != []
    ensures Continues(env, ctx, ops, CaseResult(now, p, mode, inner, ctx2, at, replaced), base)
  {
    var begin, end := BeginCase(now, p, mode).0, EndOps(Top(ctx2), ctx2.next, replaced);
    BeginCaseKeepsStack(now, p, mode);
    var at1 := at + |begin| + |inner|;
    var now2 := AfterCase(ctx2, at1);
    var res := CaseResult(now, p, mode, inner, ctx2, at, replaced);
    assert res == (begin + inner + end, now2);
    InsideCase(env, ctx, ops, now, p, mode, inner, ctx2, at1, replaced, base);
    Regroup(env, ctx, ops, begin, inner, end, now2, base);
    assert Continues(env, ctx, ops, res, base);
  }

  lemma BeginCaseKeepsStack(now: Ctx, p: Reg, mode: Mode)
    requires now.stack != []
    ensures BeginCase(now, p, mode).1.preds != [] && |BeginCase(now, p, mode).1.stack| == |now.stack|
  {
  }

  lemma Regroup(env: Env, ctx: Ctx, ops: seq<Op>, a: seq<Op>, b: seq<Op>, c: seq<Op>, now: Ctx, base: nat)
    requires Inside(env, ctx, ops + a + b + c, now, base)
    ensures Continues(env, ctx, ops, (a + b + c, now), base)
  {
    Associate(ops, a, b);
    Associate(ops, a + b, c);
  }
}
