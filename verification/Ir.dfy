/** The operations that if-conversion emits or moves around, and what running them does. */
module Ir {
  import opened Wrappers

  type Reg = nat

  datatype Op =
    | Mov(dst: Reg, src: Reg)
    | Select(dst: Reg, predicate_: Reg, ifZero: Reg, ifOne: Reg)
    | Invert(dst: Reg, src: Reg)
    | And(dst: Reg, lhs: Reg, rhs: Reg)
    | Compute(dst: Reg, f: seq<int> -> int, srcs: seq<Reg>)  // any other operation with one local result
    | ReadGlobal(dst: Reg, source: nat)
    | WriteGlobal(target: nat, value: Reg, guard: Option<Reg>)

  datatype State = State(regs: map<Reg, int>, globals: map<nat, int>)

  function Get(s: State, r: Reg): int { if r in s.regs then s.regs[r] else 0 }

  function Put(s: State, r: Reg, v: int): State { s.(regs := s.regs[r := v]) }

  function GetGlobal(s: State, g: nat): int { if g in s.globals then s.globals[g] else 0 }

  function PutGlobal(s: State, g: nat, v: int): State { s.(globals := s.globals[g := v]) }

  function GetAll(s: State, rs: seq<Reg>): (v: seq<int>)
    ensures |v| == |rs| && forall i :: 0 <= i < |rs| ==> v[i] == Get(s, rs[i])
  {
    seq(|rs|, i requires 0 <= i < |rs| => Get(s, rs[i]))
  }

  function Truth(b: bool): int { if b then 1 else 0 }

  /** What one operation stores in its destination register. */
  function Result(op: Op, s: State): int
    requires !op.WriteGlobal?
  {
    match op
    case Mov(_, src) => Get(s, src)
    case Select(_, p, a, b) => if Get(s, p) != 0 then Get(s, b) else Get(s, a)
    case Invert(_, src) => Truth(Get(s, src) == 0)
    case And(_, a, b) => Truth(Get(s, a) != 0 && Get(s, b) != 0)
    case Compute(_, f, srcs) => f(GetAll(s, srcs))
    case ReadGlobal(_, g) => GetGlobal(s, g)
  }

  function Step(op: Op, s: State): State {
    if op.WriteGlobal? then
      if op.guard.None? || Get(s, op.guard.value) != 0 then PutGlobal(s, op.target, Get(s, op.value)) else s
    else Put(s, op.dst, Result(op, s))
  }

  function Run(ops: seq<Op>, s: State): State {
    if ops == [] then s else Step(ops[|ops| - 1], Run(ops[..|ops| - 1], s))
  }

  lemma {:induction false} RunConcat(a: seq<Op>, b: seq<Op>, s: State)
    ensures Run(a + b, s) == Run(b, Run(a, s))
    decreases |b|
  {
    if b == [] {
      assert a + b == a;
    } else {
      var n := |b| - 1;
      assert (a + b)[..|a + b| - 1] == a + b[..n];
      RunConcat(a, b[..n], s);
    }
  }

  lemma RunOne(op: Op, s: State)
    ensures Run([op], s) == Step(op, s)
  {
    assert [op][..0] == [];
  }

  lemma RunPush(ops: seq<Op>, op: Op, s: State)
    ensures Run(ops + [op], s) == Step(op, Run(ops, s))
  {
    assert (ops + [op])[..|ops|] == ops;
  }

  ghost predicate Writes(ops: seq<Op>, r: Reg) {
    exists i :: 0 <= i < |ops| && !ops[i].WriteGlobal? && ops[i].dst == r
  }

  lemma WritesConcat(a: seq<Op>, b: seq<Op>, r: Reg)
    ensures Writes(a + b, r) <==> Writes(a, r) || Writes(b, r)
  {
    if i :| 0 <= i < |a| && !a[i].WriteGlobal? && a[i].dst == r { assert (a + b)[i] == a[i]; }
    if i :| 0 <= i < |b| && !b[i].WriteGlobal? && b[i].dst == r { assert (a + b)[|a| + i] == b[i]; }
    if i :| 0 <= i < |a + b| && !(a + b)[i].WriteGlobal? && (a + b)[i].dst == r {
      if i < |a| { assert a[i].dst == r; } else { assert b[i - |a|].dst == r; }
    }
  }

  /** A register no operation writes keeps its value. */
  lemma {:induction false} UnwrittenKept(ops: seq<Op>, s: State, r: Reg)
    requires !Writes(ops, r)
    ensures Get(Run(ops, s), r) == Get(s, r)
    decreases |ops|
  {
    if ops != [] {
      var n := |ops| - 1;
      WritesConcat(ops[..n], [ops[n]], r);
      assert ops == ops[..n] + [ops[n]];
      UnwrittenKept(ops[..n], s, r);
    }
  }

  /** No operation can change a global while its guard is zero. */
  ghost predicate NoGlobals(ops: seq<Op>) {
    forall i :: 0 <= i < |ops| ==> !ops[i].WriteGlobal?
  }

  lemma {:induction false} GlobalsKept(ops: seq<Op>, s: State)
    requires NoGlobals(ops)
    ensures Run(ops, s).globals == s.globals
    decreases |ops|
  {
    if ops != [] { GlobalsKept(ops[..|ops| - 1], s); }
  }
}
