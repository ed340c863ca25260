/** What running the operations of one object does to each register. */
module LocalUpdatesEffect {
  import opened Ir
  import opened LocalUpdatesSpec

  ghost predicate Owns(u: map<Reg, Updated>, x: Reg) {
    exists r :: r in u && (x == u[r].backup || x == u[r].value)
  }

  /** Tracked registers lie below `base`; the registers allocated for them are all different and lie from `base` on. */
  ghost predicate Fresh(u: map<Reg, Updated>, base: nat) {
    && (forall r :: r in u ==> r < base <= u[r].backup && base <= u[r].value && u[r].backup != u[r].value)
    && (forall r, q :: r in u && q in u && r != q ==>
          u[r].backup != u[q].backup && u[r].backup != u[q].value && u[r].value != u[q].value)
  }

  ghost predicate Chosen(c: Clu, s: State) {
    (Get(s, c.predicate_) != 0) == (c.mode == Normal)
  }

  lemma TwoSteps(a: Op, b: Op, s: State)
    ensures Run([a, b], s) == Step(b, Step(a, s))
  {
    assert [a, b] == [a] + [b];
    RunPush([a], b, s);
    RunOne(a, s);
  }

  // ---- EndCase ----

  /** The predicate is neither tracked nor allocated for a tracked register. */
  ghost predicate Ready(c: Clu, base: nat) {
    Fresh(c.updated, base) && base <= c.predicate_ && !Owns(c.updated, c.predicate_)
  }

  lemma {:induction false} EndKeeps(c: Clu, n: nat, replaced: set<Reg>, s: State, x: Reg)
    requires forall r :: r in c.updated && r < n ==> x != r && x != c.updated[r].value
    ensures Get(Run(EndOps(c, n, replaced), s), x) == Get(s, x)
  {
    if n > 0 {
      EndKeeps(c, n - 1, replaced, s, x);
      var t := Run(EndOps(c, n - 1, replaced), s);
      RunConcat(EndOps(c, n - 1, replaced), EndOne(c, n - 1, replaced), s);
      if WrittenNow(c, n - 1) { TwoSteps(UpdateOp(c, n - 1, replaced), Mov(n - 1, c.updated[n - 1].backup), t); }
    }
  }

  lemma OneRestores(c: Clu, r: Reg, replaced: set<Reg>, t: State)
    requires WrittenNow(c, r) && c.updated[r].backup != c.updated[r].value
    ensures Get(Run(EndOne(c, r, replaced), t), r) == Get(t, c.updated[r].backup)
  {
    TwoSteps(UpdateOp(c, r, replaced), Mov(r, c.updated[r].backup), t);
  }

  lemma EndStep(c: Clu, n: nat, replaced: set<Reg>, s: State)
    ensures Run(EndOps(c, n + 1, replaced), s) == Run(EndOne(c, n, replaced), Run(EndOps(c, n, replaced), s))
  {
    RunConcat(EndOps(c, n, replaced), EndOne(c, n, replaced), s);
  }

  lemma OneKeeps(c: Clu, r: Reg, replaced: set<Reg>, t: State, x: Reg)
    requires r in c.updated ==> x != r && x != c.updated[r].value
    ensures Get(Run(EndOne(c, r, replaced), t), x) == Get(t, x)
  {
    if WrittenNow(c, r) { TwoSteps(UpdateOp(c, r, replaced), Mov(r, c.updated[r].backup), t); }
  }

  lemma FreshApart(c: Clu, base: nat, r: Reg, x: Reg)
    requires Fresh(c.updated, base) && r in c.updated && (x < base || (x in c.updated && x != r))
    ensures c.updated[r].value >= base > r && c.updated[r].value != c.updated[r].backup
    ensures x in c.updated && x != r ==> c.updated[x].value != r && c.updated[x].value != c.updated[r].value
    ensures x in c.updated && x != r ==> c.updated[x].backup != r && c.updated[x].backup != c.updated[r].value
  {
  }

  lemma RestoreStep(c: Clu, m: nat, replaced: set<Reg>, s: State, r: Reg, base: nat)
    requires Fresh(c.updated, base) && r < base
    ensures var before, after := Run(EndOps(c, m, replaced), s), Run(EndOps(c, m + 1, replaced), s);
      Get(after, r) == if r == m && WrittenNow(c, r) then Get(s, c.updated[r].backup) else Get(before, r)
  {
    EndStep(c, m, replaced, s);
    var t := Run(EndOps(c, m, replaced), s);
    if r == m && WrittenNow(c, r) {
      BackupUntouched(c, r, replaced, s, base);
      OneRestores(c, r, replaced, t);
    } else if r != m {
      if m in c.updated { FreshApart(c, base, m, r); }
      OneKeeps(c, m, replaced, t, r);
    }
  }

  /** A tracked register the case wrote gets its backup back; others keep their value. */
  lemma {:induction false} EndRestores(c: Clu, n: nat, replaced: set<Reg>, s: State, r: Reg, base: nat)
    requires Fresh(c.updated, base) && r < base
    ensures Get(Run(EndOps(c, n, replaced), s), r) ==
            if r < n && WrittenNow(c, r) then Get(s, c.updated[r].backup) else Get(s, r)
  {
    if n > 0 {
      var m: nat := n - 1;
      EndRestores(c, m, replaced, s, r, base);
      RestoreStep(c, m, replaced, s, r, base);
    }
  }

  lemma BackupUntouched(c: Clu, r: Reg, replaced: set<Reg>, s: State, base: nat)
    requires Fresh(c.updated, base) && r in c.updated
    ensures Get(Run(EndOps(c, r, replaced), s), c.updated[r].backup) == Get(s, c.updated[r].backup)
    ensures c.updated[r].backup != c.updated[r].value
  {
    forall q | q in c.updated && q < r
      ensures c.updated[r].backup != q && c.updated[r].backup != c.updated[q].value
    {
      FreshApart(c, base, q, r);
    }
    EndKeeps(c, r, replaced, s, c.updated[r].backup);
  }

  lemma OneSelects(c: Clu, r: Reg, replaced: set<Reg>, t: State, base: nat)
    requires Ready(c, base) && WrittenNow(c, r)
    ensures Get(Run(EndOne(c, r, replaced), t), c.updated[r].value) ==
            if r in replaced || Chosen(c, t) then Get(t, r) else Get(t, c.updated[r].value)
  {
    TwoSteps(UpdateOp(c, r, replaced), Mov(r, c.updated[r].backup), t);
  }

  lemma SelectsHere(c: Clu, replaced: set<Reg>, s: State, r: Reg, base: nat)
    requires Ready(c, base) && WrittenNow(c, r)
    ensures Get(Run(EndOne(c, r, replaced), Run(EndOps(c, r, replaced), s)), c.updated[r].value) ==
            if r in replaced || Chosen(c, s) then Get(s, r) else Get(Run(EndOps(c, r, replaced), s), c.updated[r].value)
  {
    var t := Run(EndOps(c, r, replaced), s);
    assert Get(t, c.predicate_) == Get(s, c.predicate_) by {
      forall q | q in c.updated
        ensures c.predicate_ != q && c.predicate_ != c.updated[q].value
      {
        assert c.predicate_ == c.updated[q].value ==> Owns(c.updated, c.predicate_);
      }
      EndKeeps(c, r, replaced, s, c.predicate_);
    }
    EndRestores(c, r, replaced, s, r, base);
    OneSelects(c, r, replaced, t, base);
  }

  lemma SelectStep(c: Clu, m: nat, replaced: set<Reg>, s: State, r: Reg, base: nat)
    requires Ready(c, base) && r in c.updated
    ensures var before, after := Run(EndOps(c, m, replaced), s), Run(EndOps(c, m + 1, replaced), s);
      var x := c.updated[r].value;
      Get(after, x) ==
      if r == m && WrittenNow(c, r) && (r in replaced || Chosen(c, s)) then Get(s, r) else Get(before, x)
  {
    EndStep(c, m, replaced, s);
    var t := Run(EndOps(c, m, replaced), s);
    if r == m && WrittenNow(c, r) {
      SelectsHere(c, replaced, s, r, base);
    } else if r != m {
      if m in c.updated { FreshApart(c, base, m, r); }
      OneKeeps(c, m, replaced, t, c.updated[r].value);
    }
  }

  /** The selected value is replaced by what the case computed exactly when the case was taken. */
  lemma {:induction false} EndSelects(c: Clu, n: nat, replaced: set<Reg>, s: State, r: Reg, base: nat)
    requires Ready(c, base) && r in c.updated
    ensures Get(Run(EndOps(c, n, replaced), s), c.updated[r].value) ==
            if r < n && WrittenNow(c, r) && (r in replaced || Chosen(c, s)) then Get(s, r)
            else Get(s, c.updated[r].value)
  {
    if n > 0 {
      EndSelects(c, n - 1, replaced, s, r, base);
      SelectStep(c, n - 1, replaced, s, r, base);
    }
  }

  lemma {:induction false} EndNoGlobals(c: Clu, n: nat, replaced: set<Reg>)
    ensures NoGlobals(EndOps(c, n, replaced))
  {
    if n > 0 { EndNoGlobals(c, n - 1, replaced); }
  }

  // ---- The backups ----

  lemma {:induction false} BackupKeeps(u: map<Reg, Updated>, order: seq<Reg>, s: State, x: Reg)
    requires !Owns(u, x)
    ensures Get(Run(BackupOps(u, order), s), x) == Get(s, x)
  {
    if order != [] {
      var n := |order| - 1;
      BackupKeeps(u, order[..n], s, x);
      var t := Run(BackupOps(u, order[..n]), s);
      RunConcat(BackupOps(u, order[..n]), BackupOne(u, order[n]), s);
      if order[n] in u { TwoSteps(Mov(u[order[n]].backup, order[n]), Mov(u[order[n]].value, order[n]), t); }
    }
  }

  lemma {:induction false} BackupSaves(u: map<Reg, Updated>, order: seq<Reg>, s: State, r: Reg, base: nat)
    requires Fresh(u, base) && r in u && r in order
    ensures Get(Run(BackupOps(u, order), s), u[r].backup) == Get(s, r)
    ensures Get(Run(BackupOps(u, order), s), u[r].value) == Get(s, r)
  {
    var n := |order| - 1;
    var q := order[n];
    var t := Run(BackupOps(u, order[..n]), s);
    RunConcat(BackupOps(u, order[..n]), BackupOne(u, q), s);
    if q in u { TwoSteps(Mov(u[q].backup, q), Mov(u[q].value, q), t); }
    if q == r {
      BackupKeeps(u, order[..n], s, r);
    } else {
      BackupSaves(u, order[..n], s, r, base);
    }
  }

  lemma {:induction false} BackupNoGlobals(u: map<Reg, Updated>, order: seq<Reg>)
    ensures NoGlobals(BackupOps(u, order))
  {
    if order != [] { BackupNoGlobals(u, order[..|order| - 1]); }
  }

  // ---- The final copies ----

  /** Copying one value back changes that register only. */
  lemma CopyOneEffect(u: map<Reg, Updated>, r: Reg, t: State, x: Reg)
    ensures Get(Run(CopyOne(u, r), t), x) == if x == r && r in u then Get(t, u[r].value) else Get(t, x)
  {
    if r in u { RunOne(Mov(r, u[r].value), t); }
  }

  lemma CopyOneMore(u: map<Reg, Updated>, n: nat, s: State, x: Reg)
    ensures Get(Run(CopyOps(u, n + 1), s), x) ==
            if x == n && n in u then Get(Run(CopyOps(u, n), s), u[n].value) else Get(Run(CopyOps(u, n), s), x)
  {
    RunConcat(CopyOps(u, n), CopyOne(u, n), s);
    CopyOneEffect(u, n, Run(CopyOps(u, n), s), x);
  }

  lemma {:induction false} CopyEffect(u: map<Reg, Updated>, n: nat, s: State, x: Reg, base: nat)
    requires Fresh(u, base)
    ensures Get(Run(CopyOps(u, n), s), x) == if x < n && x in u then Get(s, u[x].value) else Get(s, x)
  {
    if n > 0 {
      CopyOneMore(u, n - 1, s, x);
      CopyEffect(u, n - 1, s, if x == n - 1 && x in u then u[x].value else x, base);
    }
  }

  lemma {:induction false} CopyNoGlobals(u: map<Reg, Updated>, n: nat)
    ensures NoGlobals(CopyOps(u, n))
  {
    if n > 0 { CopyNoGlobals(u, n - 1); }
  }
}
