/** Which registers the calls allocate and write. */
module LocalUpdatesFrame {
  import opened Wrappers
  import opened Ir
  import opened LocalUpdatesSpec
  import opened LocalUpdatesEffect

  ghost predicate OwnedBelow(u: map<Reg, Updated>, next: nat) { forall x: Reg :: Owns(u, x) ==> x < next }

  ghost predicate CluOk(c: Clu, base: nat, next: nat) {
    && Fresh(c.updated, base) && OwnedBelow(c.updated, next)
    && (forall r :: r in c.updated ==> r in c.order)
    && (forall r, k :: r in c.updated && k in c.updated[r].cases ==> k <= c.current)
  }

  ghost predicate Separate(u: map<Reg, Updated>, v: map<Reg, Updated>) { forall x: Reg :: Owns(u, x) ==> !Owns(v, x) }

  /** Every object tracks registers below base and owns registers of its own; object i opened at depth i + 1. */
  ghost predicate StackOk(stack: seq<Clu>, base: nat, next: nat) {
    && (forall i :: 0 <= i < |stack| ==> stack[i].depth == i + 1 && CluOk(stack[i], base, next))
    && (forall i, j :: 0 <= i < j < |stack| ==> Separate(stack[i].updated, stack[j].updated))
  }

  ghost predicate OwnedBy(stack: seq<Clu>, x: Reg) { exists i :: 0 <= i < |stack| && Owns(stack[i].updated, x) }

  ghost predicate CtxOk(ctx: Ctx, base: nat) {
    && base <= ctx.next && StackOk(ctx.stack, base, ctx.next)
    && (forall i :: 0 <= i < |ctx.preds| ==> base <= ctx.preds[i] < ctx.next && !OwnedBy(ctx.stack, ctx.preds[i]))
  }

  /** b is a after some writes of the current case: entries stay, new ones own registers in [lo, hi). */
  ghost predicate Grows(a: Clu, b: Clu, lo: nat, hi: nat) {
    && b.depth == a.depth && b.current == a.current && b.predicate_ == a.predicate_ && b.mode == a.mode
    && (forall r :: r in a.updated ==>
          && r in b.updated
          && b.updated[r] == a.updated[r].(cases := b.updated[r].cases)
          && a.updated[r].cases <= b.updated[r].cases <= a.updated[r].cases + {a.current})
    && (forall r :: r in b.updated && r !in a.updated ==>
          && lo <= b.updated[r].backup < hi && lo <= b.updated[r].value < hi
          && b.updated[r].cases == {a.current} && b.updated[r].firstSelect == None)
  }

  ghost predicate GrowsAll(a: seq<Clu>, b: seq<Clu>, lo: nat, hi: nat) {
    |a| == |b| && forall i :: 0 <= i < |a| ==> Grows(a[i], b[i], lo, hi)
  }

  /** Every object entered after the declaration of r has noted a write of r in its current case. */
  ghost predicate Noted(stack: seq<Clu>, r: Reg, depth: nat) {
    forall i :: 0 <= i < |stack| && depth < stack[i].depth ==> WrittenNow(stack[i], r)
  }

  lemma GrowsOwned(a: Clu, b: Clu, lo: nat, hi: nat, x: Reg)
    requires Grows(a, b, lo, hi) && Owns(b.updated, x)
    ensures Owns(a.updated, x) || lo <= x < hi
  {
    var r :| r in b.updated && (x == b.updated[r].backup || x == b.updated[r].value);
    assert r in a.updated ==> b.updated[r].backup == a.updated[r].backup && b.updated[r].value == a.updated[r].value;
  }

  lemma GrowsTrans(a: Clu, b: Clu, c: Clu, lo: nat, mid: nat, hi: nat)
    requires Grows(a, b, lo, mid) && Grows(b, c, mid, hi) && lo <= mid <= hi
    ensures Grows(a, c, lo, hi)
  {
  }

  lemma OwnedByGrown(a: seq<Clu>, b: seq<Clu>, lo: nat, hi: nat, x: Reg)
    requires GrowsAll(a, b, lo, hi) && OwnedBy(b, x)
    ensures OwnedBy(a, x) || lo <= x < hi
  {
    var i :| 0 <= i < |b| && Owns(b[i].updated, x);
    GrowsOwned(a[i], b[i], lo, hi, x);
  }

  lemma NotedGrown(a: seq<Clu>, b: seq<Clu>, lo: nat, hi: nat, r: Reg, depth: nat)
    requires GrowsAll(a, b, lo, hi) && Noted(a, r, depth)
    ensures Noted(b, r, depth)
  {
    forall i | 0 <= i < |b| && depth < b[i].depth
      ensures WrittenNow(b[i], r)
    {
      assert Grows(a[i], b[i], lo, hi) && WrittenNow(a[i], r);
    }
  }

  // ---- NotifyWrite ----

  lemma NotifyOneOk(c: Clu, next: nat, r: Reg, depth: nat, base: nat)
    requires CluOk(c, base, next) && r < base <= next
    ensures var (b, hi) := NotifyOne(c, next, r, depth);
      && next <= hi && Grows(c, b, next, hi)
      && (depth < c.depth ==> WrittenNow(b, r))
      && (forall q :: q in b.updated && q !in c.updated ==> q == r && depth < c.depth)
  {
  }

  lemma OwnedRegisters(u: map<Reg, Updated>, next: nat, q: Reg)
    requires OwnedBelow(u, next) && q in u
    ensures u[q].backup < next && u[q].value < next
  {
    assert Owns(u, u[q].backup) && Owns(u, u[q].value);
  }

  lemma FreshExtend(u: map<Reg, Updated>, r: Reg, e: Updated, base: nat, next: nat)
    requires Fresh(u, base) && OwnedBelow(u, next) && r !in u && r < base <= next
    requires e.backup == next && e.value == next + 1
    ensures Fresh(u[r := e], base) && OwnedBelow(u[r := e], next + 2)
  {
    forall q | q in u
      ensures u[q].backup < next && u[q].value < next
    {
      OwnedRegisters(u, next, q);
    }
  }

  lemma FreshSame(u: map<Reg, Updated>, r: Reg, e: Updated, base: nat, next: nat)
    requires Fresh(u, base) && OwnedBelow(u, next) && r in u && e.backup == u[r].backup && e.value == u[r].value
    ensures Fresh(u[r := e], base) && OwnedBelow(u[r := e], next)
  {
    var v := u[r := e];
    forall x: Reg | Owns(v, x)
      ensures x < next
    {
      var q :| q in v && (x == v[q].backup || x == v[q].value);
      OwnedRegisters(u, next, q);
    }
  }

  lemma NotifyOneKeeps(c: Clu, next: nat, r: Reg, depth: nat, base: nat)
    requires CluOk(c, base, next) && r < base <= next
    ensures CluOk(NotifyOne(c, next, r, depth).0, base, NotifyOne(c, next, r, depth).1)
  {
    if depth < c.depth {
      if r in c.updated {
        FreshSame(c.updated, r, c.updated[r].(cases := c.updated[r].cases + {c.current}), base, next);
      } else {
        FreshExtend(c.updated, r, Updated(next, next + 1, {c.current}, None), base, next);
      }
    }
  }

  ghost predicate OnlyNew(a: seq<Clu>, b: seq<Clu>, r: Reg, depth: nat)
    requires |a| == |b|
  {
    forall i, q :: 0 <= i < |a| && q in b[i].updated && q !in a[i].updated ==> q == r && depth < a[i].depth
  }

  lemma NotedPush(outer: seq<Clu>, c: Clu, r: Reg, depth: nat)
    requires Noted(outer, r, depth) && (depth < c.depth ==> WrittenNow(c, r))
    ensures Noted(outer + [c], r, depth)
  {
  }

  lemma OnlyNewPush(a: seq<Clu>, b: seq<Clu>, c: Clu, d: Clu, r: Reg, depth: nat)
    requires |a| == |b| && OnlyNew(a, b, r, depth)
    requires forall q :: q in d.updated && q !in c.updated ==> q == r && depth < c.depth
    ensures OnlyNew(a + [c], b + [d], r, depth)
  {
  }

  /** What notifying a whole stack keeps and achieves. */
  ghost predicate Notified(stack: seq<Clu>, next: nat, after: seq<Clu>, hi: nat, r: Reg, depth: nat, base: nat) {
    && next <= hi && StackOk(after, base, hi) && GrowsAll(stack, after, next, hi)
    && Noted(after, r, depth) && OnlyNew(stack, after, r, depth)
  }

  lemma NotifiedPush(before: seq<Clu>, outer: seq<Clu>, top: Clu, c: Clu, next: nat, mid: nat, hi: nat, r: Reg,
                     depth: nat, base: nat)
    requires StackOk(before + [top], base, next) && r < base <= next
    requires Notified(before, next, outer, mid, r, depth, base)
    requires (c, hi) == NotifyOne(top, mid, r, depth)
    ensures Notified(before + [top], next, outer + [c], hi, r, depth, base)
  {
    assert (before + [top])[|before|] == top;
    CluOkLater(top, base, next, mid);
    NotifyOneOk(top, mid, r, depth, base);
    NotifyOneKeeps(top, mid, r, depth, base);
    PushOk(before, outer, top, c, base, next, mid, hi);
    NotedPush(outer, c, r, depth);
    OnlyNewPush(before, outer, top, c, r, depth);
  }

  lemma StackOkBelow(before: seq<Clu>, top: Clu, base: nat, next: nat)
    requires StackOk(before + [top], base, next)
    ensures StackOk(before, base, next)
  {
    var stack := before + [top];
    forall i | 0 <= i < |before|
      ensures before[i].depth == i + 1 && CluOk(before[i], base, next)
    {
      assert stack[i] == before[i];
    }
    forall i, j | 0 <= i < j < |before|
      ensures Separate(before[i].updated, before[j].updated)
    {
      assert Separate(stack[i].updated, stack[j].updated);
    }
  }

  lemma {:induction false} NotifyAllOk(stack: seq<Clu>, next: nat, r: Reg, depth: nat, base: nat)
    requires StackOk(stack, base, next) && r < base <= next
    ensures Notified(stack, next, NotifyAll(stack, next, r, depth).0, NotifyAll(stack, next, r, depth).1, r, depth,
                     base)
  {
    if stack != [] {
      var n := |stack| - 1;
      var before, top := stack[..n], stack[n];
      assert stack == before + [top];
      StackOkBelow(before, top, base, next);
      NotifyAllOk(before, next, r, depth, base);
      var outer := NotifyAll(before, next, r, depth);
      var c := NotifyOne(top, outer.1, r, depth);
      NotifiedPush(before, outer.0, top, c.0, next, outer.1, c.1, r, depth, base);
    }
  }

  lemma CluOkLater(c: Clu, base: nat, next: nat, later: nat)
    requires CluOk(c, base, next) && next <= later
    ensures CluOk(c, base, later)
  {
  }

  /** The outer objects grew in [lo, mid), the top one in [mid, hi): they still own different registers. */
  lemma PushOk(a: seq<Clu>, b: seq<Clu>, c: Clu, d: Clu, base: nat, lo: nat, mid: nat, hi: nat)
    requires lo <= mid <= hi && StackOk(a + [c], base, lo) && StackOk(b, base, mid) && GrowsAll(a, b, lo, mid)
    requires Grows(c, d, mid, hi) && CluOk(d, base, hi)
    ensures StackOk(b + [d], base, hi) && GrowsAll(a + [c], b + [d], lo, hi)
  {
    var n := |a|;
    assert (a + [c])[n] == c;
    forall i | 0 <= i < n
      ensures CluOk(b[i], base, hi) && Grows(a[i], b[i], lo, hi) && Separate(b[i].updated, d.updated)
    {
      CluOkLater(b[i], base, mid, hi);
      assert (a + [c])[i] == a[i] && CluOk(a[i], base, lo) && CluOk(c, base, lo);
      assert Separate(a[i].updated, c.updated) by { assert Separate((a + [c])[i].updated, (a + [c])[n].updated); }
      forall x: Reg | Owns(b[i].updated, x)
        ensures !Owns(d.updated, x)
      {
        GrowsOwned(a[i], b[i], lo, mid, x);
        if Owns(d.updated, x) { GrowsOwned(c, d, mid, hi, x); }
      }
    }
    assert Grows(c, d, lo, hi);
  }
}
