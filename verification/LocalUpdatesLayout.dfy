/** Operation by operation, what the calls on a ConditionalLocalUpdates object emit. */
module LocalUpdatesLayout {
  import opened Wrappers
  import opened Ir
  import opened LocalUpdatesSpec

  /** From register k on: a copy of the input, and its conjunction with the enclosing predicate if there is one. */
  ghost predicate IsPushed(ctx: Ctx, k: Reg, input: Reg, ops: seq<Op>, ctx2: Ctx) {
    if ctx.preds == [] then
      ops == [Mov(k, input)] && ctx2.next == k + 1 && ctx2.preds == [k]
    else
      && ops == [Mov(k, input), And(k + 1, input, ctx.preds[|ctx.preds| - 1])]
      && ctx2.next == k + 2 && ctx2.preds == ctx.preds + [k + 1]
  }

  /** A case begins with a copy of its predicate, which is inverted if the case asks for that, and pushed. The object on
      top remembers the copy. */
  lemma BeginLayout(ctx: Ctx, p: Reg, mode: Mode)
    requires ctx.stack != []
    ensures var (ops, ctx2) := BeginCase(ctx, p, mode);
      && ctx2.stack == ctx.stack[..|ctx.stack| - 1]
                       + [ctx.stack[|ctx.stack| - 1].(predicate_ := ctx.next, mode := mode)]
      && ops != [] && ops[0] == Mov(ctx.next, p)
      && match mode
         case Normal => IsPushed(ctx, ctx.next + 1, ctx.next, ops[1..], ctx2)
         case Inverse =>
           |ops| > 1 && ops[1] == Invert(ctx.next + 1, ctx.next)
           && IsPushed(ctx, ctx.next + 2, ctx.next + 1, ops[2..], ctx2)
  {
    var (ops, ctx2) := BeginCase(ctx, p, mode);
    assert ops[2..] == ops[1..][1..];
  }

  ghost predicate Ascending(rs: seq<Reg>) { forall i, j :: 0 <= i < j < |rs| ==> rs[i] < rs[j] }

  /** rs are the registers below n that the current case wrote. */
  ghost predicate AreWritten(c: Clu, n: nat, rs: seq<Reg>) {
    Ascending(rs) && forall r: Reg :: r in rs <==> r < n && r in c.updated && c.current in c.updated[r].cases
  }

  ghost predicate IsSelect(c: Clu, r: Reg, op: Op) {
    && r in c.updated
    && op == if c.mode == Normal then Select(c.updated[r].value, c.predicate_, c.updated[r].value, r)
             else Select(c.updated[r].value, c.predicate_, r, c.updated[r].value)
  }

  ghost predicate IsRestore(c: Clu, r: Reg, op: Op) { r in c.updated && op == Mov(r, c.updated[r].backup) }

  /** In ascending order, each of the registers is selected and restored. */
  ghost predicate AreEndings(c: Clu, rs: seq<Reg>, ops: seq<Op>) {
    |ops| == 2 * |rs|
    && forall i :: 0 <= i < |rs| ==> IsSelect(c, rs[i], ops[2 * i]) && IsRestore(c, rs[i], ops[2 * i + 1])
  }

  lemma OneMoreEnding(c: Clu, rs: seq<Reg>, ops: seq<Op>, r: Reg, op: Op, restore: Op)
    requires AreEndings(c, rs, ops) && IsSelect(c, r, op) && IsRestore(c, r, restore)
    ensures AreEndings(c, rs + [r], ops + [op, restore])
  {
    var all, more := rs + [r], ops + [op, restore];
    forall i | 0 <= i < |all|
      ensures IsSelect(c, all[i], more[2 * i]) && IsRestore(c, all[i], more[2 * i + 1])
    {
      if i < |rs| {
        assert more[2 * i] == ops[2 * i] && more[2 * i + 1] == ops[2 * i + 1];
      } else {
        assert more[2 * i] == op && more[2 * i + 1] == restore;
      }
    }
  }

  /** In the first case, and in no other, the positions of the selects are remembered. */
  ghost predicate AreRemembered(c: Clu, u: map<Reg, Updated>, rs: seq<Reg>, at: nat) {
    forall i :: 0 <= i < |rs| ==>
      && rs[i] in c.updated && rs[i] in u
      && u[rs[i]].firstSelect == if c.current == 0 then Some(at + 2 * i) else c.updated[rs[i]].firstSelect
  }

  lemma {:induction false} Untouched(c: Clu, n: nat, at: nat, r: Reg)
    requires r in c.updated && n <= r
    ensures r in RecordFirst(c, n, at) && RecordFirst(c, n, at)[r] == c.updated[r]
  {
    if n > 0 { Untouched(c, n - 1, at, r); }
  }

  lemma OneMoreWritten(c: Clu, n: nat, rs: seq<Reg>)
    requires AreWritten(c, n, rs)
    ensures AreWritten(c, n + 1, if WrittenNow(c, n) then rs + [n] else rs)
  {
    forall i | 0 <= i < |rs|
      ensures rs[i] < n
    {
      assert rs[i] in rs;
    }
  }

  lemma OneMoreRemembered(c: Clu, n: nat, rs: seq<Reg>, at: nat)
    requires AreWritten(c, n, rs) && AreRemembered(c, RecordFirst(c, n, at), rs, at)
    requires |EndOps(c, n, {})| == 2 * |rs|
    ensures AreRemembered(c, RecordFirst(c, n + 1, at), if WrittenNow(c, n) then rs + [n] else rs, at)
  {
    forall i | 0 <= i < |rs|
      ensures rs[i] != n
    {
      assert rs[i] in rs;
    }
    if WrittenNow(c, n) { Untouched(c, n, at, n); }
  }

  lemma EndOneIs(c: Clu, r: Reg)
    requires WrittenNow(c, r)
    ensures |EndOne(c, r, {})| == 2 && IsSelect(c, r, EndOne(c, r, {})[0]) && IsRestore(c, r, EndOne(c, r, {})[1])
  {
  }

  lemma OneMoreEnds(c: Clu, r: Reg, rs: seq<Reg>)
    requires AreEndings(c, rs, EndOps(c, r, {}))
    ensures AreEndings(c, if WrittenNow(c, r) then rs + [r] else rs, EndOps(c, r + 1, {}))
  {
    var before, ops := EndOps(c, r, {}), EndOne(c, r, {});
    assert EndOps(c, r + 1, {}) == before + ops;
    if WrittenNow(c, r) {
      EndOneIs(c, r);
      OneMoreEnding(c, rs, before, r, ops[0], ops[1]);
      assert ops == [ops[0], ops[1]];
    } else {
      assert before + ops == before;
    }
  }

  ghost function Written(c: Clu, n: nat): seq<Reg> {
    if n == 0 then [] else if WrittenNow(c, n - 1) then Written(c, n - 1) + [n - 1] else Written(c, n - 1)
  }

  /** The registers below n that the case wrote, in ascending order. */
  lemma {:induction false} WrittenRegisters(c: Clu, n: nat)
    ensures AreWritten(c, n, Written(c, n))
  {
    if n > 0 {
      WrittenRegisters(c, n - 1);
      OneMoreWritten(c, n - 1, Written(c, n - 1));
    }
  }

  /** A case ends with a select and a restoring copy for each register it wrote. */
  lemma {:induction false} EndLayout(c: Clu, n: nat)
    ensures AreEndings(c, Written(c, n), EndOps(c, n, {}))
  {
    if n > 0 {
      EndLayout(c, n - 1);
      OneMoreEnds(c, n - 1, Written(c, n - 1));
    }
  }

  /** In the first case, whose ending begins at position `at`, the position of each select is remembered. */
  lemma {:induction false} SelectsRemembered(c: Clu, n: nat, at: nat)
    ensures AreRemembered(c, RecordFirst(c, n, at), Written(c, n), at)
  {
    if n > 0 {
      SelectsRemembered(c, n - 1, at);
      WrittenRegisters(c, n - 1);
      EndLayout(c, n - 1);
      OneMoreRemembered(c, n - 1, Written(c, n - 1), at);
    }
  }

  /** All cases wrote q, and its first select is at position i. */
  ghost predicate IsDropped(c: Clu, q: Reg, i: nat) {
    q in c.updated && |c.updated[q].cases| == c.current && c.updated[q].firstSelect == Some(i)
  }

  /** Exactly the first selects of the registers that all cases wrote become movs. */
  lemma {:induction false} SetCompleteLayout(ops: seq<Op>, c: Clu, n: nat, i: nat)
    requires i < |ops|
    ensures |SetComplete(ops, c, n)| == |ops|
    ensures (forall q :: 0 <= q < n ==> !IsDropped(c, q, i)) ==> SetComplete(ops, c, n)[i] == ops[i]
    ensures (exists q :: 0 <= q < n && IsDropped(c, q, i)) ==>
      exists q :: 0 <= q < n && IsDropped(c, q, i) && SetComplete(ops, c, n)[i] == Mov(c.updated[q].value, q)
  {
    if n > 0 {
      SetCompleteLayout(ops, c, n - 1, i);
      if IsDropped(c, n - 1, i) { assert SetComplete(ops, c, n)[i] == Mov(c.updated[n - 1].value, n - 1); }
    }
  }

  /** Each tracked register is saved, and so starts its selected value, in the order of the first writes. */
  ghost predicate AreBackups(u: map<Reg, Updated>, order: seq<Reg>, ops: seq<Op>) {
    |ops| == 2 * |order| && forall i :: 0 <= i < |order| ==>
      && order[i] in u && ops[2 * i] == Mov(u[order[i]].backup, order[i])
      && ops[2 * i + 1] == Mov(u[order[i]].value, order[i])
  }

  lemma {:induction false} BackupLayout(u: map<Reg, Updated>, order: seq<Reg>)
    requires forall r :: r in order ==> r in u
    ensures AreBackups(u, order, BackupOps(u, order))
  {
    if order != [] {
      var n := |order| - 1;
      BackupLayout(u, order[..n]);
      var before, ops := BackupOps(u, order[..n]), BackupOps(u, order);
      forall i | 0 <= i < |order|
        ensures ops[2 * i] == Mov(u[order[i]].backup, order[i]) && ops[2 * i + 1] == Mov(u[order[i]].value, order[i])
      {
        if i < n { assert ops[2 * i] == before[2 * i] && ops[2 * i + 1] == before[2 * i + 1]; }
      }
    }
  }

  /** rs are the tracked registers below n. */
  ghost predicate AreTracked(u: map<Reg, Updated>, n: nat, rs: seq<Reg>) {
    Ascending(rs) && forall r: Reg :: r in rs <==> r < n && r in u
  }

  lemma OneMoreTracked(u: map<Reg, Updated>, n: nat, rs: seq<Reg>)
    requires AreTracked(u, n, rs)
    ensures AreTracked(u, n + 1, if n in u then rs + [n] else rs)
  {
    forall i | 0 <= i < |rs|
      ensures rs[i] < n
    {
      assert rs[i] in rs;
    }
  }

  ghost function Tracked(u: map<Reg, Updated>, n: nat): seq<Reg> {
    if n == 0 then [] else if n - 1 in u then Tracked(u, n - 1) + [n - 1] else Tracked(u, n - 1)
  }

  lemma {:induction false} TrackedRegisters(u: map<Reg, Updated>, n: nat)
    ensures AreTracked(u, n, Tracked(u, n))
  {
    if n > 0 {
      TrackedRegisters(u, n - 1);
      OneMoreTracked(u, n - 1, Tracked(u, n - 1));
    }
  }

  /** Each tracked register below n gets its selected value back, in ascending order. */
  lemma {:induction false} CopyLayout(u: map<Reg, Updated>, n: nat)
    ensures |CopyOps(u, n)| == |Tracked(u, n)|
    ensures forall i :: 0 <= i < |Tracked(u, n)| ==>
      Tracked(u, n)[i] in u && CopyOps(u, n)[i] == Mov(Tracked(u, n)[i], u[Tracked(u, n)[i]].value)
  {
    if n > 0 { CopyLayout(u, n - 1); }
  }
}
