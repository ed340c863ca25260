/** The data-flow engine: blocks are taken from a work list, in no particular order, until nothing changes. */
module DataFlow {
  import opened Wrappers
  import opened RegisterMaps
  import opened FlowEquations
  import opened FlowIteration
  import opened SilentBlocks

  class DataFlowWorkList<!Op> {
    const controlFlowGraph: Cfg<Op>
    var workingSet: set<Block>

    /** Initially every block of the function is queued. */
    constructor (controlFlowGraph: Cfg<Op>)
      ensures this.controlFlowGraph == controlFlowGraph
      ensures forall b :: b in workingSet <==> b in controlFlowGraph.blocks
    {
      this.controlFlowGraph := controlFlowGraph;
      workingSet := set b | b in controlFlowGraph.blocks;
    }

    predicate Empty()
      reads this
    {
      workingSet == {}
    }

    /** Which block comes out depends on where the blocks lie in memory. */
    method Pop() returns (b: Block)
      requires !Empty()
      modifies this
      ensures b in old(workingSet) && workingSet == old(workingSet) - {b}
    {
      b :| b in workingSet;
      workingSet := workingSet - {b};
    }

    method PopAll()
      modifies this
      ensures workingSet == {}
    {
      workingSet := {};
    }

    method AddBasicBlock(b: Block)
      modifies this
      ensures workingSet == old(workingSet) + {b}
    {
      workingSet := workingSet + {b};
    }

    method AddSuccessors(b: Block)
      modifies this
      ensures workingSet == old(workingSet) + controlFlowGraph.successors(b)
    {
      AddAll(controlFlowGraph.successors(b));
    }

    method AddPredecessors(b: Block)
      modifies this
      ensures workingSet == old(workingSet) + controlFlowGraph.predecessors(b)
    {
      AddAll(controlFlowGraph.predecessors(b));
    }

    method AddAll(blocks: set<Block>)
      modifies this
      ensures workingSet == old(workingSet) + blocks
    {
      var rest := blocks;
      while rest != {}
        invariant rest <= blocks && workingSet == old(workingSet) + (blocks - rest)
        decreases |rest|
      {
        var b :| b in rest;
        AddBasicBlock(b);
        rest := rest - {b};
      }
    }
  }

  /** Some consistent assignment has information at every reachable block that anyone listens to. */
  ghost predicate Informative<T(!new), Op(!new)>(a: Analysis<T, Op>, reach: set<Block>)
    requires InjectiveRenaming(a)
  {
    exists y: Maps<T> :: IsConsistent(a, reach, y) && HasInformation(a, reach, y)
  }

  ghost predicate HasInformation<T(!new), Op(!new)>(a: Analysis<T, Op>, reach: set<Block>, y: Maps<T>)
    requires reach <= y.Keys
  {
    forall b :: b in reach && Targets(a, b) != {} ==> y[b] != map[]
  }

  class DataFlowAnalysis<!T(==, !new), !Op(!new)> {
    const a: Analysis<T, Op>
    var basicBlockMaps: Maps<T>
    var processedBasicBlocks: set<Block>

    /**
     * Runs to the end for every pop order. Processed blocks are reachable and hold at least what any consistent
     * assignment holds. When information survives everywhere the result is the greatest solution on every
     * reachable block. An empty first map counts as no change, so a block is only visited if the start reaches it
     * without passing through one that always yields nothing; when the start does, nothing else is visited.
     */
    constructor (a: Analysis<T, Op>, ghost height: T -> nat, ghost reach: set<Block>)
      requires a.cfg.blocks != [] ==> WellFormed(a, height) && IsReach(a, reach)
      ensures this.a == a && processedBasicBlocks == basicBlockMaps.Keys
      ensures a.cfg.blocks == [] ==> basicBlockMaps == map[]
      ensures a.cfg.blocks != [] && a.direction == Forward ==> a.cfg.blocks[0] in processedBasicBlocks
      ensures a.cfg.blocks != [] && a.direction == Backward ==>
                a.cfg.blocks[|a.cfg.blocks| - 1] in processedBasicBlocks
      ensures a.cfg.blocks != [] ==> processedBasicBlocks <= reach
      ensures a.cfg.blocks != [] ==> forall y: Maps<T> ::
                IsConsistent(a, reach, y) ==> Dominates(a, reach, basicBlockMaps, y)
      ensures a.cfg.blocks != [] && Informative(a, reach) ==> IsGreatestSolution(a, reach, basicBlockMaps)
      ensures a.cfg.blocks != [] ==> forall b :: b in processedBasicBlocks ==> Told(a, b)
      ensures a.cfg.blocks != [] && Transfer(a, Start(a), map[]) == map[] ==> basicBlockMaps == map[Start(a) := map[]]
    {
      this.a := a;
      basicBlockMaps, processedBasicBlocks := map[], {};
      new;
      var workList := new DataFlowWorkList(a.cfg);
      workList.PopAll();
      if a.cfg.blocks != [] {
        workList.AddBasicBlock(Start(a));
        LoopBegins(a, height, reach);
        Run(workList, height, reach);
        LoopEnds(a, height, reach, basicBlockMaps);
      }
    }

    method Run(workList: DataFlowWorkList<Op>, ghost height: T -> nat, ghost reach: set<Block>)
      requires workList.controlFlowGraph == a.cfg && a.cfg.blocks != []
      requires WellFormed(a, height) && IsReach(a, reach) && processedBasicBlocks == basicBlockMaps.Keys
      requires LoopState(a, reach, basicBlockMaps, workList.workingSet)
      modifies this, workList
      ensures processedBasicBlocks == basicBlockMaps.Keys && LoopState(a, reach, basicBlockMaps, {})
    {
      while !workList.Empty()
        invariant processedBasicBlocks == basicBlockMaps.Keys
        invariant LoopState(a, reach, basicBlockMaps, workList.workingSet)
        decreases |reach - basicBlockMaps.Keys|, TotalRank(height, basicBlockMaps), |workList.workingSet|
      {
        ghost var maps, working := basicBlockMaps, workList.workingSet;
        ghost var b, inflow, more := Step(workList, height);
        TurnInLoop(a, height, reach, maps, working, b, inflow, basicBlockMaps, more);
      }
    }

    /** One turn: a popped block is recomputed, and whoever listens to it is queued if that changed its map. */
    method Step(workList: DataFlowWorkList<Op>, ghost height: T -> nat)
      returns (ghost b: Block, ghost inflow: RegMap<T>, ghost more: set<Block>)
      requires !workList.Empty() && workList.controlFlowGraph == a.cfg
      requires WellFormed(a, height) && processedBasicBlocks == basicBlockMaps.Keys
      modifies this, workList
      ensures processedBasicBlocks == basicBlockMaps.Keys
      ensures b in old(workList.workingSet) && Turn(a, old(basicBlockMaps), b, inflow, basicBlockMaps)
      ensures more == if Reported(old(basicBlockMaps), b, basicBlockMaps[b]) then Targets(a, b) else {}
      ensures workList.workingSet == old(workList.workingSet) - {b} + more
      ensures AreTold(a, old(basicBlockMaps), b, basicBlockMaps[b], more)
    {
      var block := workList.Pop();
      var flow := ComputeInflow(block, height);
      b, inflow, more := block, flow, {};
      var registerMap := VisitOperations(block, flow);
      var changed := Reported(basicBlockMaps, block, registerMap);
      basicBlockMaps := basicBlockMaps[block := registerMap];
      if changed {
        more := Targets(a, b);
        if a.direction == Forward {
          workList.AddSuccessors(block);
        } else {
          workList.AddPredecessors(block);
        }
      }
      processedBasicBlocks := processedBasicBlocks + {block};
    }

    /** The join of what the processed sources of b pass on. */
    method ComputeInflow(b: Block, ghost height: T -> nat) returns (registerMap: RegMap<T>)
      requires WellFormed(a, height) && processedBasicBlocks == basicBlockMaps.Keys
      ensures IsInflow(a, basicBlockMaps, Heard(a, basicBlockMaps, b), b, registerMap)
    {
      var isFirst := true;
      registerMap := map[];
      var others := Sources(a, b);
      ghost var seen: set<Block> := {};
      while others != {}
        invariant others <= Sources(a, b) && seen == Heard(a, basicBlockMaps, b) - others
        invariant isFirst <==> seen == {}
        invariant IsInflow(a, basicBlockMaps, seen, b, registerMap)
        decreases |others|
      {
        var other :| other in others;
        others := others - {other};
        if other in processedBasicBlocks {
          var translated := TranslateRegisters(other, b, basicBlockMaps[other]);
          ghost var n := InflowAdd(a, height, basicBlockMaps, seen, b, other, registerMap);
          if isFirst {
            registerMap := translated;
            isFirst := false;
          } else {
            registerMap := JoinRegToT(registerMap, translated);
          }
          seen := seen + {other};
        }
        assert seen == Heard(a, basicBlockMaps, b) - others;
      }
      assert seen == Heard(a, basicBlockMaps, b);
    }

    /** Registers without a name in the other block are dropped. */
    method TranslateRegisters(from: Block, to: Block, m: RegMap<T>) returns (translated: RegMap<T>)
      requires InjectiveRenaming(a)
      ensures translated == TranslateMap(a, from, to, m) && IsTranslated(a, from, to, m, translated)
    {
      translated := map[];
      var rest := m.Keys;
      ghost var keys: set<Reg> := {};
      while rest != {}
        invariant rest <= m.Keys && keys == m.Keys - rest && translated == TranslateMap(a, from, to, Restrict(m, keys))
        decreases |rest|
      {
        var r :| r in rest;
        TranslateMapAdd(a, from, to, m, keys, r, translated);
        OneFewerLeft(m.Keys, rest, r);
        rest := rest - {r};
        keys := keys + {r};
        var q := TranslateRegister(a, from, to, r);
        if q.Some? {
          translated := translated[q.value := a.translate(from, to, m[r])];
        }
      }
      assert keys == m.Keys;
      RestrictAll(m);
      TranslationIsTranslated(a, from, to, m);
    }

    method JoinRegToT(m: RegMap<T>, n: RegMap<T>) returns (result: RegMap<T>)
      ensures result == Join(a.join, m, n)
    {
      result := map[];
      var rest := m.Keys;
      while rest != {}
        invariant rest <= m.Keys && result == Join(a.join, m - rest, n)
        decreases |rest|
      {
        var r :| r in rest;
        rest := rest - {r};
        if r in n {
          result := result[r := a.join(m[r], n[r])];
        }
      }
      assert m - rest == m;
    }

    method VisitOperations(b: Block, inflow: RegMap<T>) returns (registerMap: RegMap<T>)
      ensures registerMap == Transfer(a, b, inflow)
      ensures if a.direction == Forward then RunsForward(a.visit, a.cfg.operations(b), inflow, registerMap)
              else RunsBackward(a.visit, a.cfg.operations(b), inflow, registerMap)
    {
      TransferRuns(a, b, inflow, Transfer(a, b, inflow));
      var ops := a.cfg.operations(b);
      registerMap := inflow;
      if a.direction == Forward {
        var i := 0;
        while i < |ops|
          invariant 0 <= i <= |ops| && registerMap == VisitForward(a.visit, ops[..i], inflow)
        {
          assert ops[..i + 1][..i] == ops[..i];
          registerMap := a.visit(ops[i], registerMap);
          i := i + 1;
        }
        assert ops[..i] == ops;
      } else {
        var i := |ops|;
        while i > 0
          invariant 0 <= i <= |ops| && registerMap == VisitReverse(a.visit, ops[i..], inflow)
        {
          i := i - 1;
          assert ops[i..][1..] == ops[i + 1..];
          registerMap := a.visit(ops[i], registerMap);
        }
      }
    }

    /** A block that was never processed reads as an empty map. */
    method GetRegisterMap(b: Block) returns (m: RegMap<T>)
      ensures m == if b in basicBlockMaps then basicBlockMaps[b] else map[]
    {
      m := if b in basicBlockMaps then basicBlockMaps[b] else map[];
    }
  }

  function Restrict<T>(m: RegMap<T>, keys: set<Reg>): RegMap<T> {
    map r | r in m && r in keys :: m[r]
  }

  /** t holds at q what the registers among keys that are called q there hold in m. */
  ghost predicate TranslatedAt<T(!new), Op(!new)>(a: Analysis<T, Op>, from: Block, to: Block, m: RegMap<T>,
                                                  keys: set<Reg>, q: Reg, t: RegMap<T>) {
    && (q in t <==> exists r :: r in m && r in keys && TranslateRegister(a, from, to, r) == Some(q))
    && (forall r :: r in m && r in keys && TranslateRegister(a, from, to, r) == Some(q) ==>
        q in t && t[q] == a.translate(from, to, m[r]))
  }

  lemma TranslateMapAt<T(!new), Op(!new)>(a: Analysis<T, Op>, from: Block, to: Block, m: RegMap<T>, keys: set<Reg>,
                                          q: Reg)
    requires InjectiveRenaming(a)
    ensures TranslatedAt(a, from, to, m, keys, q, TranslateMap(a, from, to, Restrict(m, keys)))
  {
    var t := TranslateMap(a, from, to, Restrict(m, keys));
    if q in t {
      var r :| r in Restrict(m, keys) && TranslateRegister(a, from, to, r) == Some(q);
    }
  }

  /** At k, t is base with the value added under the name q, if there is a name. */
  ghost predicate ExtendsAt<T>(t: RegMap<T>, base: RegMap<T>, q: Option<Reg>, value: T, k: Reg) {
    if Some(k) == q then k !in base && k in t && t[k] == value
    else (k in t <==> k in base) && (k in base && k in t ==> t[k] == base[k])
  }

  ghost predicate Extends<T(!new)>(t: RegMap<T>, base: RegMap<T>, q: Option<Reg>, value: T) {
    forall k :: ExtendsAt(t, base, q, value, k)
  }

  lemma ExtendsIsUpdate<T(!new)>(t: RegMap<T>, base: RegMap<T>, q: Option<Reg>, value: T)
    requires Extends(t, base, q, value)
    ensures q.Some? ==> q.value !in base
    ensures t == if q.Some? then base[q.value := value] else base
  {
    var u := if q.Some? then base[q.value := value] else base;
    forall k: Reg
      ensures (k in t <==> k in u) && (k in t ==> t[k] == u[k])
    {
      assert ExtendsAt(t, base, q, value, k);
    }
    if q.Some? { assert ExtendsAt(t, base, q, value, q.value); }
  }

  lemma OneFewerLeft(all: set<Reg>, rest: set<Reg>, r: Reg)
    requires r in rest && rest <= all
    ensures all - (rest - {r}) == all - rest + {r} && |rest - {r}| < |rest|
  {
  }

  lemma RestrictAll<T>(m: RegMap<T>)
    ensures Restrict(m, m.Keys) == m
  {
  }

  lemma TranslateMapAddAt<T(!new), Op(!new)>(a: Analysis<T, Op>, from: Block, to: Block, m: RegMap<T>, keys: set<Reg>,
                                             r: Reg, q: Reg, before: RegMap<T>, after: RegMap<T>)
    requires InjectiveRenaming(a) && r in m && r !in keys
    requires TranslatedAt(a, from, to, m, keys, q, before) && TranslatedAt(a, from, to, m, keys + {r}, q, after)
    ensures ExtendsAt(after, before, TranslateRegister(a, from, to, r), a.translate(from, to, m[r]), q)
  {
    if q in before {
      var o :| o in m && o in keys && TranslateRegister(a, from, to, o) == Some(q);
    }
  }

  lemma TranslateMapAdd<T(!new), Op(!new)>(a: Analysis<T, Op>, from: Block, to: Block, m: RegMap<T>, keys: set<Reg>,
                                           r: Reg, before: RegMap<T>)
    requires InjectiveRenaming(a) && r in m && r !in keys && before == TranslateMap(a, from, to, Restrict(m, keys))
    ensures TranslateRegister(a, from, to, r).Some? ==> TranslateRegister(a, from, to, r).value !in before
    ensures TranslateMap(a, from, to, Restrict(m, keys + {r})) ==
            match TranslateRegister(a, from, to, r)
            case Some(q) => before[q := a.translate(from, to, m[r])]
            case None => before
  {
    var after := TranslateMap(a, from, to, Restrict(m, keys + {r}));
    var name, value := TranslateRegister(a, from, to, r), a.translate(from, to, m[r]);
    forall q: Reg
      ensures ExtendsAt(after, before, name, value, q)
    {
      TranslateMapAt(a, from, to, m, keys, q);
      TranslateMapAt(a, from, to, m, keys + {r}, q);
      TranslateMapAddAt(a, from, to, m, keys, r, q, before, after);
    }
    ExtendsIsUpdate(after, before, name, value);
  }

  /** What the analysis says of a block. */
  ghost function ReadMap<T>(maps: Maps<T>, b: Block): RegMap<T> {
    if b in maps then maps[b] else map[]
  }

  // ---- One turn, all facts ----

  /** Under information everywhere, a block with listeners is never processed to an empty map. */
  lemma InformationIsReported<T(!new), Op(!new)>(a: Analysis<T, Op>, reach: set<Block>, maps: Maps<T>, y: Maps<T>,
                                                 b: Block)
    requires InjectiveRenaming(a) && Dominates(a, reach, maps, y) && HasInformation(a, reach, y) && b in maps
    requires Targets(a, b) != {}
    ensures maps[b] != map[]
  {
    assert y[b] != map[];
    var r :| r in y[b];
    assert r in maps[b];
  }

  lemma TurnKeepsInformed<T(!new), Op(!new)>(a: Analysis<T, Op>, height: T -> nat, reach: set<Block>, maps: Maps<T>,
                                             working: set<Block>, b: Block, m: RegMap<T>, next: Maps<T>,
                                             more: set<Block>)
    requires WellFormed(a, height) && Settled(a, maps, working) && b in working && Turn(a, maps, b, m, next)
    requires Informative(a, reach) && forall y: Maps<T> :: IsConsistent(a, reach, y) ==> Dominates(a, reach, next, y)
    requires more == if Reported(maps, b, next[b]) then Targets(a, b) else {}
    ensures Settled(a, next, working - {b} + more)
  {
    var y: Maps<T> :| IsConsistent(a, reach, y) && HasInformation(a, reach, y);
    if Targets(a, b) != {} { InformationIsReported(a, reach, next, y, b); }
    TurnKeepsSettled(a, height, maps, working, b, m, next, more);
  }

  /** What the loop keeps. */
  ghost predicate LoopState<T(!new), Op(!new)>(a: Analysis<T, Op>, reach: set<Block>, maps: Maps<T>,
                                               working: set<Block>)
    requires InjectiveRenaming(a) && a.cfg.blocks != []
  {
    && Invariant(a, reach, maps, working)
    && (Informative(a, reach) ==> Settled(a, maps, working))
    && OnlyTold(a, maps, working)
  }

  lemma LoopBegins<T(!new), Op(!new)>(a: Analysis<T, Op>, height: T -> nat, reach: set<Block>)
    requires WellFormed(a, height) && IsReach(a, reach)
    ensures LoopState(a, reach, map[], {} + {Start(a)})
  {
    StartIsTold(a);
  }

  lemma LoopEnds<T(!new), Op(!new)>(a: Analysis<T, Op>, height: T -> nat, reach: set<Block>, maps: Maps<T>)
    requires WellFormed(a, height) && IsReach(a, reach) && LoopState(a, reach, maps, {})
    ensures Start(a) in maps && maps.Keys <= reach
    ensures forall y: Maps<T> :: IsConsistent(a, reach, y) ==> Dominates(a, reach, maps, y)
    ensures Informative(a, reach) ==> IsGreatestSolution(a, reach, maps)
    ensures forall b :: b in maps ==> Told(a, b)
    ensures Transfer(a, Start(a), map[]) == map[] ==> maps == map[Start(a) := map[]]
  {
    if Informative(a, reach) { SettledIsGreatest(a, height, reach, maps); }
    if Transfer(a, Start(a), map[]) == map[] { SilentStartIsAlone(a, maps); }
  }

  lemma TurnKeepsLoopState<T(!new), Op(!new)>(a: Analysis<T, Op>, height: T -> nat, reach: set<Block>, maps: Maps<T>,
                                              working: set<Block>, b: Block, m: RegMap<T>, next: Maps<T>,
                                              more: set<Block>)
    requires WellFormed(a, height) && IsReach(a, reach) && LoopState(a, reach, maps, working) && b in working
    requires Turn(a, maps, b, m, next)
    requires more == if Reported(maps, b, next[b]) then Targets(a, b) else {}
    ensures LoopState(a, reach, next, working - {b} + more)
  {
    TurnKeepsInvariant(a, height, reach, maps, working, b, m, next, more);
    if Informative(a, reach) { TurnKeepsInformed(a, height, reach, maps, working, b, m, next, more); }
    TurnKeepsOnlyTold(a, height, maps, working, b, m, next, more);
  }

  /** What is left to do shrinks in this order. */
  ghost predicate Closer(blocks: nat, rank: nat, queued: nat, blocks2: nat, rank2: nat, queued2: nat) {
    blocks2 < blocks || (blocks2 == blocks && (rank2 < rank || (rank2 == rank && queued2 < queued)))
  }

  /** All that the loop needs to know of a turn. */
  lemma TurnInLoop<T(!new), Op(!new)>(a: Analysis<T, Op>, height: T -> nat, reach: set<Block>, maps: Maps<T>,
                                      working: set<Block>, b: Block, m: RegMap<T>, next: Maps<T>, more: set<Block>)
    requires WellFormed(a, height) && IsReach(a, reach) && LoopState(a, reach, maps, working) && b in working
    requires Turn(a, maps, b, m, next)
    requires more == if Reported(maps, b, next[b]) then Targets(a, b) else {}
    ensures LoopState(a, reach, next, working - {b} + more)
    ensures Closer(|reach - maps.Keys|, TotalRank(height, maps), |working|,
                   |reach - next.Keys|, TotalRank(height, next), |working - {b} + more|)
  {
    TurnKeepsLoopState(a, height, reach, maps, working, b, m, next, more);
    TurnComesCloser(a, height, reach, maps, working, b, m, next, more);
  }

  lemma NewBlockCounts(reach: set<Block>, done: set<Block>, b: Block)
    requires b in reach && b !in done
    ensures |reach - (done + {b})| < |reach - done|
  {
    assert reach - (done + {b}) == (reach - done) - {b};
  }

  /** Every turn processes a new block, weakens a map, or shortens the queue. */
  lemma TurnComesCloser<T(!new), Op(!new)>(a: Analysis<T, Op>, height: T -> nat, reach: set<Block>, maps: Maps<T>,
                                           working: set<Block>, b: Block, m: RegMap<T>, next: Maps<T>, more: set<Block>)
    requires WellFormed(a, height) && Descending(a, maps) && b in working && b in reach && Turn(a, maps, b, m, next)
    requires more == if Reported(maps, b, next[b]) then Targets(a, b) else {}
    ensures b !in maps ==> |reach - next.Keys| < |reach - maps.Keys|
    ensures b in maps ==> next.Keys == maps.Keys
    ensures b in maps && next[b] != maps[b] ==> TotalRank(height, next) < TotalRank(height, maps)
    ensures b in maps && next[b] == maps[b] ==> next == maps && |working - {b} + more| < |working|
  {
    assert next.Keys == maps.Keys + {b};
    if b !in maps {
      NewBlockCounts(reach, maps.Keys, b);
    } else if next[b] != maps[b] {
      ChangeDrops(a, height, maps, b, m, next);
    } else {
      assert working - {b} + more == working - {b};
    }
  }
}
