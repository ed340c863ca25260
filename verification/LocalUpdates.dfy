/** What each call on a ConditionalLocalUpdates object does: specification functions on values. */
module LocalUpdatesSpec {
  import opened Wrappers
  import opened Ir

  datatype Mode = Normal | Inverse

  datatype Updated = Updated(backup: Reg, value: Reg, cases: set<nat>, firstSelect: Option<nat>)

  /** One object. `order` lists the tracked registers by first write. */
  datatype Clu = Clu(depth: nat, current: nat, predicate_: Reg, mode: Mode, updated: map<Reg, Updated>, order: seq<Reg>)

  /** The parts of the IR context that matter: the register counter, the combined predicates, and the
      objects registered for write notifications, outermost first. */
  datatype Ctx = Ctx(next: nat, preds: seq<Reg>, stack: seq<Clu>)

  // ---- NotifyWrite ----

  function NotifyOne(c: Clu, next: nat, r: Reg, depth: nat): (Clu, nat) {
    if depth >= c.depth then (c, next)
    else if r in c.updated then
      (c.(updated := c.updated[r := c.updated[r].(cases := c.updated[r].cases + {c.current})]), next)
    else
      (c.(updated := c.updated[r := Updated(next, next + 1, {c.current}, None)], order := c.order + [r]), next + 2)
  }

  /** Every object is notified, the outermost first. */
  function NotifyAll(stack: seq<Clu>, next: nat, r: Reg, depth: nat): (seq<Clu>, nat) {
    if stack == [] then ([], next)
    else
      var n := |stack| - 1;
      var (outer, next1) := NotifyAll(stack[..n], next, r, depth);
      var (c, next2) := NotifyOne(stack[n], next1, r, depth);
      (outer + [c], next2)
  }

  function Notify(ctx: Ctx, r: Reg, depth: nat): Ctx {
    var (stack, next) := NotifyAll(ctx.stack, ctx.next, r, depth);
    ctx.(stack := stack, next := next)
  }

  // ---- BeginCase ----

  /** The registers PushPredicate allocates: the leaf copy, and the conjunction with the enclosing predicate. */
  function PushPredicate(ctx: Ctx, input: Reg): (seq<Op>, Ctx) {
    var leaf := ctx.next;
    if ctx.preds == [] then
      ([Mov(leaf, input)], ctx.(next := leaf + 1, preds := [leaf]))
    else
      ([Mov(leaf, input), And(leaf + 1, input, ctx.preds[|ctx.preds| - 1])],
       ctx.(next := leaf + 2, preds := ctx.preds + [leaf + 1]))
  }

  function Top(ctx: Ctx): Clu
    requires ctx.stack != []
  {
    ctx.stack[|ctx.stack| - 1]
  }

  function WithTop(ctx: Ctx, c: Clu): Ctx
    requires ctx.stack != []
  {
    ctx.(stack := ctx.stack[..|ctx.stack| - 1] + [c])
  }

  /** Copies the predicate, then pushes it or its inverse. */
  function BeginCase(ctx: Ctx, p: Reg, mode: Mode): (seq<Op>, Ctx)
    requires ctx.stack != []
  {
    var copy := ctx.next;
    var ctx1 := WithTop(ctx.(next := copy + 1), Top(ctx).(predicate_ := copy, mode := mode));
    if mode == Normal then
      var (ops, ctx2) := PushPredicate(ctx1, copy);
      ([Mov(copy, p)] + ops, ctx2)
    else
      var inverted := copy + 1;
      var (ops, ctx2) := PushPredicate(ctx1.(next := inverted + 1), inverted);
      ([Mov(copy, p), Invert(inverted, copy)] + ops, ctx2)
  }

  // ---- EndCase ----

  function UpdateOp(c: Clu, r: Reg, replaced: set<Reg>): Op
    requires r in c.updated
  {
    var value := c.updated[r].value;
    if r in replaced then Mov(value, r)
    else if c.mode == Normal then Select(value, c.predicate_, value, r)
    else Select(value, c.predicate_, r, value)
  }

  predicate WrittenNow(c: Clu, r: Reg) { r in c.updated && c.current in c.updated[r].cases }

  function EndOne(c: Clu, r: Reg, replaced: set<Reg>): seq<Op> {
    if WrittenNow(c, r) then [UpdateOp(c, r, replaced), Mov(r, c.updated[r].backup)] else []
  }

  /** For the registers below n that the current case wrote, in ascending order: keep or take the value
      this case computed, then restore the backup. For registers in `replaced` the value is always taken. */
  function EndOps(c: Clu, n: nat, replaced: set<Reg>): seq<Op> {
    if n == 0 then []
    else EndOps(c, n - 1, replaced) + EndOne(c, n - 1, replaced)
  }

  /** In the first case each select's position is remembered. `at` is the position of the first one. */
  function RecordFirst(c: Clu, n: nat, at: nat): map<Reg, Updated> {
    if n == 0 then c.updated
    else
      var u := RecordFirst(c, n - 1, at);
      if WrittenNow(c, n - 1) && n - 1 in u && c.current == 0 then
        u[n - 1 := u[n - 1].(firstSelect := Some(at + |EndOps(c, n - 1, {})|))]
      else u
  }

  /** EndCase emits EndOps(Top(ctx), ctx.next, {}) and leaves this. */
  function AfterCase(ctx: Ctx, at: nat): Ctx
    requires ctx.stack != [] && ctx.preds != []
  {
    var c := Top(ctx);
    WithTop(ctx.(preds := ctx.preds[..|ctx.preds| - 1]),
            c.(updated := RecordFirst(c, ctx.next, at), current := c.current + 1))
  }

  // ---- SetComplete and the destructor ----

  predicate WrittenByAll(c: Clu, r: Reg) { r in c.updated && |c.updated[r].cases| == c.current }

  /** The operations since the object was created, with the first select of each register that every
      case writes turned into a mov. */
  function SetComplete(ops: seq<Op>, c: Clu, n: nat): seq<Op> {
    if n == 0 then ops
    else
      var done := SetComplete(ops, c, n - 1);
      if WrittenByAll(c, n - 1) && c.updated[n - 1].firstSelect.Some?
         && c.updated[n - 1].firstSelect.value < |done| then
        done[c.updated[n - 1].firstSelect.value := Mov(c.updated[n - 1].value, n - 1)]
      else done
  }

  function BackupOne(updated: map<Reg, Updated>, r: Reg): seq<Op> {
    if r in updated then [Mov(updated[r].backup, r), Mov(updated[r].value, r)] else []
  }

  /** Saves each tracked register and initialises its selected value. */
  function BackupOps(updated: map<Reg, Updated>, order: seq<Reg>): seq<Op> {
    if order == [] then []
    else
      var r := order[|order| - 1];
      BackupOps(updated, order[..|order| - 1]) + BackupOne(updated, r)
  }

  function CopyOne(updated: map<Reg, Updated>, r: Reg): seq<Op> {
    if r in updated then [Mov(r, updated[r].value)] else []
  }

  /** Copies the selected values back, in ascending register order. */
  function CopyOps(updated: map<Reg, Updated>, n: nat): seq<Op> {
    if n == 0 then []
    else CopyOps(updated, n - 1) + CopyOne(updated, n - 1)
  }

  function Finish(ops: seq<Op>, c: Clu, n: nat): seq<Op> {
    BackupOps(c.updated, c.order) + ops + CopyOps(c.updated, n)
  }
}
