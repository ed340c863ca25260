/** What one data-flow analysis computes: the equations, their solutions, and the state of the work-list loop. */
module FlowEquations {
  import opened Wrappers
  import opened RegisterMaps

  type Block = nat

  datatype Direction = Forward | Backward

  datatype Cfg<!Op> = Cfg(
    blocks: seq<Block>,
    predecessors: Block -> set<Block>,
    successors: Block -> set<Block>,
    operations: Block -> seq<Op>,
    renameToSuccessor: (Block, Block, Reg) -> Option<Reg>,    // predecessor, successor, register in the predecessor
    renameToPredecessor: (Block, Block, Reg) -> Option<Reg>)  // predecessor, successor, register in the successor

  datatype Analysis<!T, !Op> = Analysis(
    direction: Direction,
    cfg: Cfg<Op>,
    translate: (Block, Block, T) -> T,
    join: (T, T) -> T,
    visit: (Op, RegMap<T>) -> RegMap<T>)

  /** The blocks information flows from, and to. */
  function Sources<T, Op>(a: Analysis<T, Op>, b: Block): set<Block> {
    if a.direction == Forward then a.cfg.predecessors(b) else a.cfg.successors(b)
  }

  function Targets<T, Op>(a: Analysis<T, Op>, b: Block): set<Block> {
    if a.direction == Forward then a.cfg.successors(b) else a.cfg.predecessors(b)
  }

  function Start<T, Op>(a: Analysis<T, Op>): Block
    requires a.cfg.blocks != []
  {
    if a.direction == Forward then a.cfg.blocks[0] else a.cfg.blocks[|a.cfg.blocks| - 1]
  }

  function TranslateRegister<T, Op>(a: Analysis<T, Op>, from: Block, to: Block, r: Reg): Option<Reg> {
    if a.direction == Forward then a.cfg.renameToSuccessor(from, to, r) else a.cfg.renameToPredecessor(to, from, r)
  }

  /** The register r of block `from` is called q in block `to`: going forward that is the successor, going backward the
      predecessor. */
  ghost predicate IsName<T(!new), Op(!new)>(a: Analysis<T, Op>, from: Block, to: Block, r: Reg, q: Reg) {
    match a.direction
    case Forward => a.cfg.renameToSuccessor(from, to, r) == Some(q)
    case Backward => a.cfg.renameToPredecessor(to, from, r) == Some(q)
  }

  /** t holds, under the names that the registers of m have in the other block, what m holds, translated. */
  ghost predicate IsTranslated<T(!new), Op(!new)>(a: Analysis<T, Op>, from: Block, to: Block, m: RegMap<T>,
                                                  t: RegMap<T>)
  {
    && (forall q :: q in t <==> exists r :: r in m && IsName(a, from, to, r, q))
    && (forall q, r :: r in m && IsName(a, from, to, r, q) ==> q in t && t[q] == a.translate(from, to, m[r]))
  }

  /** No two registers of one block are translated to the same register of another. */
  ghost predicate InjectiveRenaming<T, Op>(a: Analysis<T, Op>) {
    forall from, to, r, q ::
      TranslateRegister(a, from, to, r).Some? && TranslateRegister(a, from, to, r) == TranslateRegister(a, from, to, q)
      ==> r == q
  }

  ghost function TranslateMap<T(!new), Op(!new)>(a: Analysis<T, Op>, from: Block, to: Block, m: RegMap<T>)
    : (t: RegMap<T>)
    requires InjectiveRenaming(a)
    ensures forall r :: r in m && TranslateRegister(a, from, to, r).Some? ==>
              TranslateRegister(a, from, to, r).value in t &&
              t[TranslateRegister(a, from, to, r).value] == a.translate(from, to, m[r])
    ensures forall q :: q in t ==> exists r :: r in m && TranslateRegister(a, from, to, r) == Some(q)
  {
    map r | r in m && TranslateRegister(a, from, to, r).Some? ::
      TranslateRegister(a, from, to, r).value := a.translate(from, to, m[r])
  }

  lemma SameTranslationAt<T(!new), Op(!new)>(a: Analysis<T, Op>, from: Block, to: Block, m: RegMap<T>, t: RegMap<T>,
                                             u: RegMap<T>, q: Reg)
    requires IsTranslated(a, from, to, m, t) && IsTranslated(a, from, to, m, u)
    ensures (q in t <==> q in u) && (q in t ==> t[q] == u[q])
  {
    if q in t || q in u { var r :| r in m && IsName(a, from, to, r, q); }
  }

  lemma SameTranslation<T(!new), Op(!new)>(a: Analysis<T, Op>, from: Block, to: Block, m: RegMap<T>, t: RegMap<T>,
                                           u: RegMap<T>)
    requires IsTranslated(a, from, to, m, t) && IsTranslated(a, from, to, m, u)
    ensures t == u
  {
    forall q: Reg
      ensures (q in t <==> q in u) && (q in t ==> t[q] == u[q])
    {
      SameTranslationAt(a, from, to, m, t, u, q);
    }
  }

  lemma TranslationIsTranslated<T(!new), Op(!new)>(a: Analysis<T, Op>, from: Block, to: Block, m: RegMap<T>)
    requires InjectiveRenaming(a)
    ensures IsTranslated(a, from, to, m, TranslateMap(a, from, to, m))
  {
    assert forall r: Reg, q: Reg :: IsName(a, from, to, r, q) <==> TranslateRegister(a, from, to, r) == Some(q);
  }

  /** There is one translation. */
  lemma TranslationIsUnique<T(!new), Op(!new)>(a: Analysis<T, Op>, from: Block, to: Block, m: RegMap<T>, t: RegMap<T>)
    requires InjectiveRenaming(a)
    ensures IsTranslated(a, from, to, m, t) <==> t == TranslateMap(a, from, to, m)
  {
    TranslationIsTranslated(a, from, to, m);
    if IsTranslated(a, from, to, m, t) { SameTranslation(a, from, to, m, t, TranslateMap(a, from, to, m)); }
  }

  /** One visit after the other, first operation first. */
  ghost predicate RunsForward<T(!new), Op(!new)>(visit: (Op, RegMap<T>) -> RegMap<T>, ops: seq<Op>, m: RegMap<T>,
                                                 out: RegMap<T>)
  {
    exists ms: seq<RegMap<T>> ::
      && |ms| == |ops| + 1 && ms[0] == m && ms[|ops|] == out
      && forall k :: 0 <= k < |ops| ==> ms[k + 1] == visit(ops[k], ms[k])
  }

  /** One visit after the other, last operation first. */
  ghost predicate RunsBackward<T(!new), Op(!new)>(visit: (Op, RegMap<T>) -> RegMap<T>, ops: seq<Op>, m: RegMap<T>,
                                                  out: RegMap<T>)
  {
    exists ms: seq<RegMap<T>> ::
      && |ms| == |ops| + 1 && ms[|ops|] == m && ms[0] == out
      && forall k :: 0 <= k < |ops| ==> ms[k] == visit(ops[k], ms[k + 1])
  }

  function VisitForward<T, Op>(visit: (Op, RegMap<T>) -> RegMap<T>, ops: seq<Op>, m: RegMap<T>): RegMap<T> {
    if ops == [] then m else visit(ops[|ops| - 1], VisitForward(visit, ops[..|ops| - 1], m))
  }

  function VisitReverse<T, Op>(visit: (Op, RegMap<T>) -> RegMap<T>, ops: seq<Op>, m: RegMap<T>): RegMap<T> {
    if ops == [] then m else visit(ops[0], VisitReverse(visit, ops[1..], m))
  }

  /** What a block makes of the information flowing into it. */
  function Transfer<T, Op>(a: Analysis<T, Op>, b: Block, m: RegMap<T>): RegMap<T> {
    if a.direction == Forward then VisitForward(a.visit, a.cfg.operations(b), m)
    else VisitReverse(a.visit, a.cfg.operations(b), m)
  }

  lemma {:induction false} ForwardAlong<T(!new), Op(!new)>(visit: (Op, RegMap<T>) -> RegMap<T>, ops: seq<Op>,
                                                           ms: seq<RegMap<T>>)
    requires |ms| == |ops| + 1 && forall k :: 0 <= k < |ops| ==> ms[k + 1] == visit(ops[k], ms[k])
    ensures ms[|ops|] == VisitForward(visit, ops, ms[0])
  {
    if ops != [] { ForwardAlong(visit, ops[..|ops| - 1], ms[..|ops|]); }
  }

  lemma {:induction false} BackwardAlong<T(!new), Op(!new)>(visit: (Op, RegMap<T>) -> RegMap<T>, ops: seq<Op>,
                                                            ms: seq<RegMap<T>>)
    requires |ms| == |ops| + 1 && forall k :: 0 <= k < |ops| ==> ms[k] == visit(ops[k], ms[k + 1])
    ensures ms[0] == VisitReverse(visit, ops, ms[|ops|])
  {
    if ops != [] { BackwardAlong(visit, ops[1..], ms[1..]); }
  }

  /** The maps before, between and after the visits. */
  ghost function ForwardMaps<T(!new), Op(!new)>(visit: (Op, RegMap<T>) -> RegMap<T>, ops: seq<Op>, m: RegMap<T>)
    : (ms: seq<RegMap<T>>)
    ensures |ms| == |ops| + 1 && ms[0] == m && ms[|ops|] == VisitForward(visit, ops, m)
    ensures forall k :: 0 <= k < |ops| ==> ms[k + 1] == visit(ops[k], ms[k])
  {
    if ops == [] then [m]
    else
      ForwardMaps(visit, ops[..|ops| - 1], m)
      + [visit(ops[|ops| - 1], VisitForward(visit, ops[..|ops| - 1], m))]
  }

  ghost function BackwardMaps<T(!new), Op(!new)>(visit: (Op, RegMap<T>) -> RegMap<T>, ops: seq<Op>, m: RegMap<T>)
    : (ms: seq<RegMap<T>>)
    ensures |ms| == |ops| + 1 && ms[|ops|] == m && ms[0] == VisitReverse(visit, ops, m)
    ensures forall k :: 0 <= k < |ops| ==> ms[k] == visit(ops[k], ms[k + 1])
  {
    if ops == [] then [m]
    else [visit(ops[0], VisitReverse(visit, ops[1..], m))] + BackwardMaps(visit, ops[1..], m)
  }

  /** Going forward the operations are visited in their order, going backward in the opposite order. */
  lemma TransferRuns<T(!new), Op(!new)>(a: Analysis<T, Op>, b: Block, m: RegMap<T>, out: RegMap<T>)
    ensures out == Transfer(a, b, m) <==>
            if a.direction == Forward then RunsForward(a.visit, a.cfg.operations(b), m, out)
            else RunsBackward(a.visit, a.cfg.operations(b), m, out)
  {
    var ops := a.cfg.operations(b);
    if a.direction == Forward {
      var fs := ForwardMaps(a.visit, ops, m);
      if ms: seq<RegMap<T>> :| |ms| == |ops| + 1 && ms[0] == m && ms[|ops|] == out
                               && forall k :: 0 <= k < |ops| ==> ms[k + 1] == a.visit(ops[k], ms[k]) {
        ForwardAlong(a.visit, ops, ms);
      }
    } else {
      var bs := BackwardMaps(a.visit, ops, m);
      if ms: seq<RegMap<T>> :| |ms| == |ops| + 1 && ms[|ops|] == m && ms[0] == out
                               && forall k :: 0 <= k < |ops| ==> ms[k] == a.visit(ops[k], ms[k + 1]) {
        BackwardAlong(a.visit, ops, ms);
      }
    }
  }

  // ---- Hypotheses on the callbacks and the graph ----

  ghost predicate TranslateKeepsOrder<T, Op>(a: Analysis<T, Op>, from: Block, to: Block, x: T, y: T) {
    Below(a.join, x, y) ==> Below(a.join, a.translate(from, to, x), a.translate(from, to, y))
  }

  ghost predicate VisitKeepsOrder<T, Op>(a: Analysis<T, Op>, op: Op, m: RegMap<T>, n: RegMap<T>) {
    Leq(a.join, m, n) ==> Leq(a.join, a.visit(op, m), a.visit(op, n))
  }

  ghost predicate Monotone<T(!new), Op(!new)>(a: Analysis<T, Op>) {
    && (forall from, to, x, y :: TranslateKeepsOrder(a, from, to, x, y))
    && (forall op, m, n :: VisitKeepsOrder(a, op, m, n))
  }

  ghost predicate ConsistentGraph<T, Op>(a: Analysis<T, Op>) {
    forall b, c :: b in Sources(a, c) <==> c in Targets(a, b)
  }

  ghost predicate IsPath<T, Op>(a: Analysis<T, Op>, path: seq<Block>) {
    path != [] && forall k :: 0 <= k < |path| - 1 ==> path[k + 1] in Targets(a, path[k])
  }

  /** Some block that the start reaches passes information on to the start. */
  ghost predicate StartIsReturnedTo<T(!new), Op(!new)>(a: Analysis<T, Op>)
    requires a.cfg.blocks != []
  {
    exists path :: IsPath(a, path) && path[0] == Start(a) && path[|path| - 1] in Sources(a, Start(a))
  }

  ghost predicate WellFormed<T(!new), Op(!new)>(a: Analysis<T, Op>, height: T -> nat) {
    && IsSemilattice(a.join, height) && Monotone(a) && InjectiveRenaming(a) && ConsistentGraph(a)
    && a.cfg.blocks != [] && !StartIsReturnedTo(a)
  }

  /** reach is the set of blocks the start reaches. */
  ghost predicate IsReach<T, Op>(a: Analysis<T, Op>, reach: set<Block>)
    requires a.cfg.blocks != []
  {
    && Start(a) in reach && (forall b, c :: b in reach && c in Targets(a, b) ==> c in reach)
    && (forall b :: b in reach ==> exists path :: IsPath(a, path) && path[0] == Start(a) && path[|path| - 1] == b)
  }

  /** Nothing that is reached passes information on to the start. */
  lemma StartHearsNobody<T(!new), Op(!new)>(a: Analysis<T, Op>, reach: set<Block>, S: set<Block>)
    requires a.cfg.blocks != [] && !StartIsReturnedTo(a) && IsReach(a, reach) && S <= reach
    ensures Sources(a, Start(a)) * S == {}
  {
    forall o | o in S
      ensures o !in Sources(a, Start(a))
    {
      var path :| IsPath(a, path) && path[0] == Start(a) && path[|path| - 1] == o;
    }
  }

  // ---- Equations ----

  type Maps<T> = map<Block, RegMap<T>>

  /** m is the join of what the blocks S pass on to b: empty if there are none, else the greatest lower bound. */
  ghost predicate IsInflow<T(!new), Op(!new)>(a: Analysis<T, Op>, maps: Maps<T>, S: set<Block>, b: Block, m: RegMap<T>)
    requires InjectiveRenaming(a) && S <= maps.Keys
  {
    && (S == {} ==> m == map[])
    && (S != {} ==> forall x: RegMap<T> :: Leq(a.join, x, m) <==> BelowAll(a, maps, S, b, x))
  }

  ghost predicate BelowAll<T(!new), Op(!new)>(a: Analysis<T, Op>, maps: Maps<T>, S: set<Block>, b: Block, x: RegMap<T>)
    requires InjectiveRenaming(a) && S <= maps.Keys
  {
    forall o :: o in S ==> Leq(a.join, x, TranslateMap(a, o, b, maps[o]))
  }

  ghost predicate Solved<T(!new), Op(!new)>(a: Analysis<T, Op>, maps: Maps<T>, S: set<Block>, b: Block)
    requires InjectiveRenaming(a) && S <= maps.Keys && b in maps
  {
    exists m :: IsInflow(a, maps, S, b, m) && maps[b] == Transfer(a, b, m)
  }

  ghost predicate PromisesNoMore<T(!new), Op(!new)>(a: Analysis<T, Op>, maps: Maps<T>, S: set<Block>, b: Block)
    requires InjectiveRenaming(a) && S <= maps.Keys && b in maps
  {
    exists m :: IsInflow(a, maps, S, b, m) && Leq(a.join, maps[b], Transfer(a, b, m))
  }

  /** Every reachable block holds what its operations make of the join over its reachable sources. */
  ghost predicate IsSolution<T(!new), Op(!new)>(a: Analysis<T, Op>, reach: set<Block>, maps: Maps<T>)
    requires InjectiveRenaming(a)
  {
    maps.Keys == reach && forall b :: b in reach ==> Solved(a, maps, Sources(a, b) * reach, b)
  }

  /** A consistent assignment: no block promises more than the equations allow. Solutions are consistent. */
  ghost predicate IsConsistent<T(!new), Op(!new)>(a: Analysis<T, Op>, reach: set<Block>, maps: Maps<T>)
    requires InjectiveRenaming(a)
  {
    maps.Keys == reach && forall b :: b in reach ==> PromisesNoMore(a, maps, Sources(a, b) * reach, b)
  }

  ghost predicate IsGreatestSolution<T(!new), Op(!new)>(a: Analysis<T, Op>, reach: set<Block>, maps: Maps<T>)
    requires InjectiveRenaming(a)
  {
    && IsSolution(a, reach, maps)
    && forall y: Maps<T>, b :: IsConsistent(a, reach, y) && b in reach ==> Leq(a.join, y[b], maps[b])
  }

  lemma SolutionIsConsistent<T(!new), Op(!new)>(a: Analysis<T, Op>, height: T -> nat, reach: set<Block>, maps: Maps<T>)
    requires WellFormed(a, height) && IsSolution(a, reach, maps)
    ensures IsConsistent(a, reach, maps)
  {
    forall b | b in reach
      ensures PromisesNoMore(a, maps, Sources(a, b) * reach, b)
    {
      assert Solved(a, maps, Sources(a, b) * reach, b);
      LeqRefl(a.join, height, maps[b]);
    }
  }

  /** There is at most one greatest solution. */
  lemma GreatestSolutionIsUnique<T(!new), Op(!new)>(a: Analysis<T, Op>, height: T -> nat, reach: set<Block>, x: Maps<T>,
                                                    y: Maps<T>)
    requires WellFormed(a, height) && IsGreatestSolution(a, reach, x) && IsGreatestSolution(a, reach, y)
    ensures x == y
  {
    SolutionIsConsistent(a, height, reach, x);
    SolutionIsConsistent(a, height, reach, y);
    forall b | b in reach
      ensures x[b] == y[b]
    {
      LeqAntisymmetric(a.join, height, x[b], y[b]);
    }
  }

  // ---- Monotonicity ----

  lemma {:induction false} VisitForwardMonotone<T(!new), Op(!new)>(a: Analysis<T, Op>, ops: seq<Op>, m: RegMap<T>,
                                                                   n: RegMap<T>)
    requires Monotone(a) && Leq(a.join, m, n)
    ensures Leq(a.join, VisitForward(a.visit, ops, m), VisitForward(a.visit, ops, n))
    decreases |ops|
  {
    if ops != [] {
      var init := ops[..|ops| - 1];
      VisitForwardMonotone(a, init, m, n);
      assert VisitKeepsOrder(a, ops[|ops| - 1], VisitForward(a.visit, init, m), VisitForward(a.visit, init, n));
    }
  }

  lemma {:induction false} VisitReverseMonotone<T(!new), Op(!new)>(a: Analysis<T, Op>, ops: seq<Op>, m: RegMap<T>,
                                                                   n: RegMap<T>)
    requires Monotone(a) && Leq(a.join, m, n)
    ensures Leq(a.join, VisitReverse(a.visit, ops, m), VisitReverse(a.visit, ops, n))
    decreases |ops|
  {
    if ops != [] {
      VisitReverseMonotone(a, ops[1..], m, n);
      assert VisitKeepsOrder(a, ops[0], VisitReverse(a.visit, ops[1..], m), VisitReverse(a.visit, ops[1..], n));
    }
  }

  lemma TransferMonotone<T(!new), Op(!new)>(a: Analysis<T, Op>, b: Block, m: RegMap<T>, n: RegMap<T>)
    requires Monotone(a) && Leq(a.join, m, n)
    ensures Leq(a.join, Transfer(a, b, m), Transfer(a, b, n))
  {
    VisitForwardMonotone(a, a.cfg.operations(b), m, n);
    VisitReverseMonotone(a, a.cfg.operations(b), m, n);
  }

  lemma TranslateMonotone<T(!new), Op(!new)>(a: Analysis<T, Op>, from: Block, to: Block, m: RegMap<T>, n: RegMap<T>)
    requires Monotone(a) && InjectiveRenaming(a) && Leq(a.join, m, n)
    ensures Leq(a.join, TranslateMap(a, from, to, m), TranslateMap(a, from, to, n))
  {
    var s, t := TranslateMap(a, from, to, m), TranslateMap(a, from, to, n);
    forall q | q in s
      ensures q in t && Below(a.join, s[q], t[q])
    {
      var r :| r in m && TranslateRegister(a, from, to, r) == Some(q);
      assert TranslateKeepsOrder(a, from, to, m[r], n[r]);
    }
  }

  /** More sources, and sources that promise less, give an inflow that promises less. */
  lemma InflowMonotone<T(!new), Op(!new)>(a: Analysis<T, Op>, height: T -> nat, x: Maps<T>, S: set<Block>, y: Maps<T>,
                                          U: set<Block>, b: Block, m: RegMap<T>, n: RegMap<T>)
    requires WellFormed(a, height) && S <= x.Keys && U <= y.Keys && U <= S && (U == {} ==> S == {})
    requires forall o :: o in U ==> Leq(a.join, x[o], y[o])
    requires IsInflow(a, x, S, b, m) && IsInflow(a, y, U, b, n)
    ensures Leq(a.join, m, n)
  {
    if U != {} {
      LeqRefl(a.join, height, m);
      assert BelowAll(a, x, S, b, m);
      forall o | o in U
        ensures Leq(a.join, m, TranslateMap(a, o, b, y[o]))
      {
        TranslateMonotone(a, o, b, x[o], y[o]);
        LeqTrans(a.join, height, m, TranslateMap(a, o, b, x[o]), TranslateMap(a, o, b, y[o]));
      }
      assert BelowAll(a, y, U, b, m);
    }
  }

  lemma {:induction false} InflowExists<T(!new), Op(!new)>(a: Analysis<T, Op>, height: T -> nat, maps: Maps<T>,
                                                           S: set<Block>, b: Block) returns (m: RegMap<T>)
    requires WellFormed(a, height) && S <= maps.Keys
    ensures IsInflow(a, maps, S, b, m)
    decreases |S|
  {
    if S == {} {
      m := map[];
    } else {
      var o :| o in S;
      var rest := InflowExists(a, height, maps, S - {o}, b);
      m := InflowAdd(a, height, maps, S - {o}, b, o, rest);
      assert S - {o} + {o} == S;
    }
  }

  /** One more source: join its information, or take it as it is if it is the first. */
  lemma InflowAdd<T(!new), Op(!new)>(a: Analysis<T, Op>, height: T -> nat, maps: Maps<T>, S: set<Block>, b: Block,
                                     o: Block, m: RegMap<T>) returns (n: RegMap<T>)
    requires WellFormed(a, height) && S <= maps.Keys && o in maps && o !in S && IsInflow(a, maps, S, b, m)
    ensures n == if S == {} then TranslateMap(a, o, b, maps[o]) else Join(a.join, m, TranslateMap(a, o, b, maps[o]))
    ensures IsInflow(a, maps, S + {o}, b, n)
  {
    var t := TranslateMap(a, o, b, maps[o]);
    n := if S == {} then t else Join(a.join, m, t);
    forall x: RegMap<T>
      ensures Leq(a.join, x, n) <==> BelowAll(a, maps, S + {o}, b, x)
    {
      if S != {} { JoinIsGreatestLowerBound(a.join, height, m, t, x); }
      assert BelowAll(a, maps, S + {o}, b, x) <==> BelowAll(a, maps, S, b, x) && Leq(a.join, x, t);
    }
  }

  lemma InflowUnique<T(!new), Op(!new)>(a: Analysis<T, Op>, height: T -> nat, maps: Maps<T>, S: set<Block>, b: Block,
                                        m: RegMap<T>, n: RegMap<T>)
    requires WellFormed(a, height) && S <= maps.Keys && IsInflow(a, maps, S, b, m) && IsInflow(a, maps, S, b, n)
    ensures m == n
  {
    forall o | o in S
      ensures Leq(a.join, maps[o], maps[o])
    {
      LeqRefl(a.join, height, maps[o]);
    }
    InflowMonotone(a, height, maps, S, maps, S, b, m, n);
    InflowMonotone(a, height, maps, S, maps, S, b, n, m);
    LeqAntisymmetric(a.join, height, m, n);
  }
}
