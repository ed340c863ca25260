/** When the engine's result is right, and what goes wrong otherwise. */
module DataFlowLimits {
  import opened Wrappers
  import opened RegisterMaps
  import opened FlowEquations
  import opened FlowIteration
  import opened SilentBlocks
  import opened DataFlow

  // ---- Conditions on the operations ----

  /** The operations of b leave something in the map even if nothing flows in. */
  ghost predicate Generates<T(!new), Op(!new)>(a: Analysis<T, Op>, b: Block) {
    Transfer(a, b, map[]) != map[]
  }

  lemma GeneratingIsInformative<T(!new), Op(!new)>(a: Analysis<T, Op>, height: T -> nat, reach: set<Block>)
    requires WellFormed(a, height) && IsReach(a, reach)
    requires forall b :: b in reach && Targets(a, b) != {} ==> Generates(a, b)
    ensures Informative(a, reach)
  {
    var y: Maps<T> := map b | b in reach :: Transfer(a, b, map[]);
    forall b | b in reach
      ensures PromisesNoMore(a, y, Sources(a, b) * reach, b)
    {
      var m := InflowExists(a, height, y, Sources(a, b) * reach, b);
      TransferMonotone(a, b, map[], m);
    }
    assert IsConsistent(a, reach, y) && HasInformation(a, reach, y);
  }

  /** If silent blocks cut a reachable block off from the start, no order of the blocks ends in a solution. */
  lemma CutOffIsMissed<T(!new), Op(!new)>(a: Analysis<T, Op>, height: T -> nat, reach: set<Block>, maps: Maps<T>,
                                          c: Block)
    requires WellFormed(a, height) && IsReach(a, reach) && LoopState(a, reach, maps, {})
    requires c in reach && !Told(a, c)
    ensures c !in maps && !IsSolution(a, reach, maps)
  {
    LoopEnds(a, height, reach, maps);
  }

  /** A listened-to block that yields something from nothing, or cuts a target off by yielding nothing at all. */
  ghost predicate GeneratesOrCutsOff<T(!new), Op(!new)>(a: Analysis<T, Op>, b: Block)
    requires a.cfg.blocks != []
  {
    Generates(a, b) || (Silent(a, b) && exists c :: c in Targets(a, b) && !Told(a, c))
  }

  /** For such blocks the run ends in the greatest solution exactly if all of them generate something. */
  lemma SilentBlocksDecide<T(!new), Op(!new)>(a: Analysis<T, Op>, height: T -> nat, reach: set<Block>, maps: Maps<T>)
    requires WellFormed(a, height) && IsReach(a, reach) && LoopState(a, reach, maps, {})
    requires forall b :: b in reach && Targets(a, b) != {} ==> GeneratesOrCutsOff(a, b)
    ensures IsGreatestSolution(a, reach, maps) <==> forall b :: b in reach && Targets(a, b) != {} ==> Generates(a, b)
  {
    if forall b :: b in reach && Targets(a, b) != {} ==> Generates(a, b) {
      GeneratingIsInformative(a, height, reach);
      LoopEnds(a, height, reach, maps);
    } else {
      var b :| b in reach && Targets(a, b) != {} && !Generates(a, b);
      assert GeneratesOrCutsOff(a, b);
      var c :| c in Targets(a, b) && !Told(a, c);
      CutOffIsMissed(a, height, reach, maps, c);
    }
  }

  /**
   * If every other block that is listened to generates something, the run ends in the greatest solution exactly
   * when the start generates something too, or has nobody to tell.
   */
  lemma StartDecides<T(!new), Op(!new)>(a: Analysis<T, Op>, height: T -> nat, reach: set<Block>, maps: Maps<T>)
    requires WellFormed(a, height) && IsReach(a, reach) && LoopState(a, reach, maps, {})
    requires forall b :: b in reach && b != Start(a) && Targets(a, b) != {} ==> Generates(a, b)
    ensures IsGreatestSolution(a, reach, maps) <==> Generates(a, Start(a)) || Targets(a, Start(a)) == {}
  {
    if !Generates(a, Start(a)) && Targets(a, Start(a)) != {} {
      var c :| c in Targets(a, Start(a));
      assert Silent(a, Start(a)) && Start(a) in Sources(a, c);
      TargetOfSilentStart(a, c);
    }
    SilentBlocksDecide(a, height, reach, maps);
  }

  lemma TargetOfSilentStart<T(!new), Op(!new)>(a: Analysis<T, Op>, c: Block)
    requires a.cfg.blocks != [] && Silent(a, Start(a)) && c != Start(a)
    ensures !Told(a, c)
  {
    forall path | TellingTo(a, c, path)
      ensures |path| <= 1
    {
      if |path| > 1 { LongPathFromTelling(a, c, path); }
    }
  }

  lemma EmptyInflow<T(!new), Op(!new)>(a: Analysis<T, Op>, height: T -> nat, reach: set<Block>, maps: Maps<T>, b: Block,
                                       o: Block)
    requires WellFormed(a, height) && IsSolution(a, reach, maps) && b in reach && o in Sources(a, b) * reach
    requires maps[o] == map[]
    ensures maps[b] == Transfer(a, b, map[])
  {
    var S := Sources(a, b) * reach;
    assert Solved(a, maps, S, b);
    var m :| IsInflow(a, maps, S, b, m) && maps[b] == Transfer(a, b, m);
    LeqRefl(a.join, height, m);
    assert BelowAll(a, maps, S, b, m);
    assert Leq(a.join, m, TranslateMap(a, o, b, map[]));
    assert m == map[];
  }

  lemma StartInflow<T(!new), Op(!new)>(a: Analysis<T, Op>, height: T -> nat, reach: set<Block>, maps: Maps<T>)
    requires WellFormed(a, height) && IsReach(a, reach) && IsSolution(a, reach, maps)
    ensures maps[Start(a)] == Transfer(a, Start(a), map[])
  {
    assert Solved(a, maps, Sources(a, Start(a)) * reach, Start(a));
  }

  lemma {:induction false} EmptyAlongPath<T(!new), Op(!new)>(a: Analysis<T, Op>, height: T -> nat, reach: set<Block>,
                                                             maps: Maps<T>, path: seq<Block>)
    requires WellFormed(a, height) && IsReach(a, reach) && IsSolution(a, reach, maps) && IsPath(a, path)
    requires path[0] == Start(a)
    requires forall b :: b in reach ==> !Generates(a, b)
    ensures path[|path| - 1] in reach && maps[path[|path| - 1]] == map[]
    decreases |path|
  {
    var last := |path| - 1;
    if last == 0 {
      StartInflow(a, height, reach, maps);
    } else {
      EmptyAlongPath(a, height, reach, maps, path[..last]);
      assert path[last] in Targets(a, path[last - 1]);
      assert path[last - 1] in Sources(a, path[last]);
      EmptyInflow(a, height, reach, maps, path[last], path[last - 1]);
    }
  }

  lemma BeforeOnPath<T(!new), Op(!new)>(a: Analysis<T, Op>, reach: set<Block>, b: Block) returns (o: Block)
    requires a.cfg.blocks != [] && ConsistentGraph(a) && IsReach(a, reach) && b in reach && b != Start(a)
    ensures o in Sources(a, b) * reach
  {
    var path :| IsPath(a, path) && path[0] == Start(a) && path[|path| - 1] == b;
    o := path[|path| - 2];
    assert path[|path| - 2 + 1] in Targets(a, o);
    PrefixReached(a, reach, path, |path| - 2);
  }

  lemma {:induction false} PrefixReached<T(!new), Op(!new)>(a: Analysis<T, Op>, reach: set<Block>, path: seq<Block>,
                                                            k: nat)
    requires a.cfg.blocks != [] && IsReach(a, reach) && IsPath(a, path) && path[0] == Start(a) && k < |path|
    ensures path[k] in reach
  {
    if k > 0 {
      PrefixReached(a, reach, path, k - 1);
      assert path[k - 1 + 1] in Targets(a, path[k - 1]);
    }
  }

  lemma NothingGeneratedIsEmpty<T(!new), Op(!new)>(a: Analysis<T, Op>, height: T -> nat, reach: set<Block>,
                                                   maps: Maps<T>, b: Block)
    requires WellFormed(a, height) && IsReach(a, reach) && IsSolution(a, reach, maps) && b in reach
    requires forall o :: o in reach ==> !Generates(a, o)
    ensures maps[b] == map[]
  {
    var path :| IsPath(a, path) && path[0] == Start(a) && path[|path| - 1] == b;
    EmptyAlongPath(a, height, reach, maps, path);
  }

  lemma EmptyGeneratesNothing<T(!new), Op(!new)>(a: Analysis<T, Op>, height: T -> nat, reach: set<Block>, maps: Maps<T>,
                                                 b: Block)
    requires WellFormed(a, height) && IsReach(a, reach) && IsSolution(a, reach, maps) && b in reach
    requires forall o :: o in reach ==> maps[o] == map[]
    ensures !Generates(a, b)
  {
    if b == Start(a) {
      StartInflow(a, height, reach, maps);
    } else {
      var o := BeforeOnPath(a, reach, b);
      EmptyInflow(a, height, reach, maps, b, o);
    }
  }

  /**
   * When the start generates nothing the run ends at once and every other block reads as empty. That is the
   * greatest solution exactly when no reachable block generates anything.
   */
  lemma EmptyStartIsRight<T(!new), Op(!new)>(a: Analysis<T, Op>, height: T -> nat, reach: set<Block>, maps: Maps<T>,
                                             greatest: Maps<T>)
    requires WellFormed(a, height) && IsReach(a, reach) && IsGreatestSolution(a, reach, greatest)
    requires !Generates(a, Start(a)) && maps == map[Start(a) := map[]]
    ensures (forall b :: b in reach ==> ReadMap(maps, b) == greatest[b]) <==>
            (forall b :: b in reach ==> !Generates(a, b))
  {
    if forall b :: b in reach ==> !Generates(a, b) {
      forall b | b in reach
        ensures ReadMap(maps, b) == greatest[b]
      {
        NothingGeneratedIsEmpty(a, height, reach, greatest, b);
      }
    } else if forall b :: b in reach ==> ReadMap(maps, b) == greatest[b] {
      var b :| b in reach && Generates(a, b);
      forall o | o in reach
        ensures greatest[o] == map[]
      {
        assert ReadMap(maps, o) == map[];
      }
      EmptyGeneratesNothing(a, height, reach, greatest, b);
    }
  }

  // ---- Runs with a given order ----

  /** The blocks of order come off the work list one by one; final is what the maps hold when it is empty. */
  ghost predicate RunAlong<T(!new), Op(!new)>(a: Analysis<T, Op>, order: seq<Block>, maps: Maps<T>, working: set<Block>,
                                              final: Maps<T>)
    requires InjectiveRenaming(a)
    decreases |order|
  {
    if order == [] then working == {} && final == maps
    else
      exists m :: TurnAlong(a, order, maps, working, final, m)
  }

  ghost predicate TurnAlong<T(!new), Op(!new)>(a: Analysis<T, Op>, order: seq<Block>, maps: Maps<T>,
                                               working: set<Block>, final: Maps<T>, m: RegMap<T>)
    requires InjectiveRenaming(a) && order != []
    decreases |order|, 0
  {
    var b := order[0];
    var value := Transfer(a, b, m);
    && b in working && IsInflow(a, maps, Heard(a, maps, b), b, m)
    && RunAlong(a, order[1..], maps[b := value],
                working - {b} + (if Reported(maps, b, value) then Targets(a, b) else {}), final)
  }

  /** Popping b, with m flowing in, leaves next and left. */
  ghost predicate TurnsInto<T(!new), Op(!new)>(a: Analysis<T, Op>, b: Block, maps: Maps<T>, working: set<Block>,
                                               m: RegMap<T>, next: Maps<T>, left: set<Block>)
    requires InjectiveRenaming(a)
  {
    && b in working && IsInflow(a, maps, Heard(a, maps, b), b, m) && next == maps[b := Transfer(a, b, m)]
    && left == working - {b} + (if Reported(maps, b, next[b]) then Targets(a, b) else {})
  }

  lemma RunStep<T(!new), Op(!new)>(a: Analysis<T, Op>, b: Block, order: seq<Block>, maps: Maps<T>, working: set<Block>,
                                   final: Maps<T>, m: RegMap<T>, next: Maps<T>, left: set<Block>)
    requires InjectiveRenaming(a) && TurnsInto(a, b, maps, working, m, next, left)
    requires RunAlong(a, order, next, left, final)
    ensures RunAlong(a, [b] + order, maps, working, final)
  {
    assert ([b] + order)[1..] == order;
    assert TurnAlong(a, [b] + order, maps, working, final, m);
  }

  // ---- Where the order matters ----

  datatype Action = Define(r: Reg) | Copy(source: Reg, target: Reg) | Forget

  function Height(t: bool): nat { if t then 1 else 0 }

  /** Which registers are known. */
  function Visit(op: Action, m: RegMap<bool>): RegMap<bool> {
    match op
    case Define(r) => m[r := true]
    case Copy(source, target) => if source in m then m[target := true] else m
    case Forget => map[]
  }

  /** The analysis of which registers are known, on any graph. */
  function KnownOn(direction: Direction, blocks: seq<Block>, successors: Block -> set<Block>,
                   predecessors: Block -> set<Block>, operations: Block -> seq<Action>): Analysis<bool, Action> {
    Analysis(direction,
             Cfg(blocks, predecessors, successors, operations, (p: Block, s: Block, r: Reg) => Some(r),
                 (p: Block, s: Block, r: Reg) => Some(r)),
             (from: Block, to: Block, t: bool) => t, (s: bool, t: bool) => s && t, Visit)
  }

  function Known(successors: Block -> set<Block>, predecessors: Block -> set<Block>,
                 operations: Block -> seq<Action>): Analysis<bool, Action> {
    KnownOn(Forward, [0, 1, 2, 3], successors, predecessors, operations)
  }

  lemma KnownIsMonotone(a: Analysis<bool, Action>, direction: Direction, blocks: seq<Block>,
                        successors: Block -> set<Block>, predecessors: Block -> set<Block>,
                        operations: Block -> seq<Action>)
    requires a == KnownOn(direction, blocks, successors, predecessors, operations)
    ensures IsSemilattice(a.join, Height) && Monotone(a) && InjectiveRenaming(a)
  {
    assert forall x, y :: Commutes(a.join, x, y);
    assert forall x, y, z :: Associates(a.join, x, y, z);
    forall op, m, n
      ensures VisitKeepsOrder(a, op, m, n)
    {
    }
  }

  lemma IdentityTranslates<T(!new), Op(!new)>(a: Analysis<T, Op>, from: Block, to: Block, m: RegMap<T>)
    requires InjectiveRenaming(a) && forall r: Reg :: TranslateRegister(a, from, to, r) == Some(r)
    requires forall r :: r in m ==> a.translate(from, to, m[r]) == m[r]
    ensures TranslateMap(a, from, to, m) == m
  {
    assert Restrict(m, m.Keys) == m;
    var t := TranslateMap(a, from, to, m);
    forall q
      ensures TranslatedAt(a, from, to, m, m.Keys, q, t)
    {
      TranslateMapAt(a, from, to, m, m.Keys, q);
    }
    IdentityEverywhere(a, from, to, m, t);
  }

  lemma IdentityEverywhere<T(!new), Op(!new)>(a: Analysis<T, Op>, from: Block, to: Block, m: RegMap<T>, t: RegMap<T>)
    requires forall q :: TranslatedAt(a, from, to, m, m.Keys, q, t)
    requires forall r: Reg :: TranslateRegister(a, from, to, r) == Some(r)
    requires forall r :: r in m ==> a.translate(from, to, m[r]) == m[r]
    ensures t == m
  {
    forall q: Reg
      ensures (q in t <==> q in m) && (q in m && q in t ==> t[q] == m[q])
    {
      assert TranslatedAt(a, from, to, m, m.Keys, q, t) && TranslateRegister(a, from, to, q) == Some(q);
    }
    SameMap(t, m);
  }

  lemma SameMap<T>(s: RegMap<T>, t: RegMap<T>)
    requires forall q: Reg :: (q in s <==> q in t) && (q in t && q in s ==> s[q] == t[q])
    ensures s == t
  {
  }

  /** With a single source, what flows in is what that source holds. */
  lemma KnownInflow(a: Analysis<bool, Action>, successors: Block -> set<Block>, predecessors: Block -> set<Block>,
                    operations: Block -> seq<Action>, maps: Maps<bool>, o: Block, b: Block)
    requires a == Known(successors, predecessors, operations) && InjectiveRenaming(a) && o in maps
    ensures IsInflow(a, maps, {o}, b, maps[o])
  {
    IdentityTranslates(a, o, b, maps[o]);
    forall x: RegMap<bool>
      ensures Leq(a.join, x, maps[o]) <==> BelowAll(a, maps, {o}, b, x)
    {
    }
  }

  // A block with two successors that meet again; one of the branches forgets everything.

  function DiamondSuccessors(b: Block): set<Block> {
    if b == 0 then {1, 2} else if b == 1 || b == 2 then {3} else {}
  }

  function DiamondPredecessors(b: Block): set<Block> {
    if b == 1 || b == 2 then {0} else if b == 3 then {1, 2} else {}
  }

  function DiamondOperations(b: Block): seq<Action> {
    if b == 0 then [Define(7)] else if b == 2 then [Forget] else []
  }

  function Diamond(): Analysis<bool, Action> {
    Known(DiamondSuccessors, DiamondPredecessors, DiamondOperations)
  }

  lemma DiamondWellFormed()
    ensures WellFormed(Diamond(), Height)
  {
    KnownIsMonotone(Diamond(), Forward, [0, 1, 2, 3], DiamondSuccessors, DiamondPredecessors, DiamondOperations);
  }

  lemma DiamondTransfers(m: RegMap<bool>)
    ensures Transfer(Diamond(), 0, m) == m[7 := true] && Transfer(Diamond(), 1, m) == m
    ensures Transfer(Diamond(), 2, m) == map[] && Transfer(Diamond(), 3, m) == m
  {
    assert VisitForward(Visit, [Define(7)], m) == m[7 := true];
    assert VisitForward(Visit, [Forget], m) == map[];
  }

  /** What is known after the start. */
  ghost function K(): RegMap<bool> { map[7 := true] }

  lemma DiamondStart()
    requires InjectiveRenaming(Diamond())
    ensures TurnsInto(Diamond(), 0, map[], {0}, map[], map[0 := K()], {1, 2})
  {
    DiamondTransfers(map[]);
    assert 7 in K();
  }

  lemma DiamondBranch()
    requires InjectiveRenaming(Diamond())
    ensures TurnsInto(Diamond(), 1, map[0 := K()], {1, 2}, K(), map[0 := K(), 1 := K()], {2, 3})
  {
    var maps: Maps<bool> := map[0 := K()];
    KnownInflow(Diamond(), DiamondSuccessors, DiamondPredecessors, DiamondOperations, maps, 0, 1);
    DiamondTransfers(K());
    assert 7 in K() && Heard(Diamond(), maps, 1) == {0};
  }

  lemma DiamondMeet()
    requires InjectiveRenaming(Diamond())
    ensures TurnsInto(Diamond(), 3, map[0 := K(), 1 := K()], {2, 3}, K(), map[0 := K(), 1 := K(), 3 := K()], {2})
  {
    var maps: Maps<bool> := map[0 := K(), 1 := K()];
    KnownInflow(Diamond(), DiamondSuccessors, DiamondPredecessors, DiamondOperations, maps, 1, 3);
    DiamondTransfers(K());
    assert Heard(Diamond(), maps, 3) == {1};
  }

  lemma DiamondForget()
    requires InjectiveRenaming(Diamond())
    ensures TurnsInto(Diamond(), 2, map[0 := K(), 1 := K(), 3 := K()], {2}, K(),
                      map[0 := K(), 1 := K(), 2 := map[], 3 := K()], {})
  {
    var maps: Maps<bool> := map[0 := K(), 1 := K(), 3 := K()];
    KnownInflow(Diamond(), DiamondSuccessors, DiamondPredecessors, DiamondOperations, maps, 0, 2);
    DiamondTransfers(K());
    assert Heard(Diamond(), maps, 2) == {0};
    assert maps[2 := map[]] == map[0 := K(), 1 := K(), 2 := map[], 3 := K()];
  }

  lemma MeetIsUnsolved(final: Maps<bool>)
    requires InjectiveRenaming(Diamond()) && final == map[0 := K(), 1 := K(), 2 := map[], 3 := K()]
    ensures !IsSolution(Diamond(), {0, 1, 2, 3}, final)
  {
    var a := Diamond();
    var S := Sources(a, 3) * {0, 1, 2, 3};
    assert S == {1, 2};
    forall m | IsInflow(a, final, S, 3, m)
      ensures m == map[]
    {
      assert Leq(a.join, m, m);
      assert BelowAll(a, final, S, 3, m);
      assert Leq(a.join, m, TranslateMap(a, 2, 3, map[]));
    }
    DiamondTransfers(map[]);
    assert 7 in final[3];
  }

  lemma DiamondLast(final: Maps<bool>)
    requires InjectiveRenaming(Diamond()) && final == map[0 := K(), 1 := K(), 2 := map[], 3 := K()]
    ensures RunAlong(Diamond(), [2], map[0 := K(), 1 := K(), 3 := K()], {2}, final)
  {
    DiamondForget();
    RunStep(Diamond(), 2, [], map[0 := K(), 1 := K(), 3 := K()], {2}, final, K(), final, {});
    assert [2] + [] == [2];
  }

  lemma DiamondLastTwo(final: Maps<bool>)
    requires InjectiveRenaming(Diamond()) && final == map[0 := K(), 1 := K(), 2 := map[], 3 := K()]
    ensures RunAlong(Diamond(), [3, 2], map[0 := K(), 1 := K()], {2, 3}, final)
  {
    DiamondLast(final);
    DiamondMeet();
    RunStep(Diamond(), 3, [2], map[0 := K(), 1 := K()], {2, 3}, final, K(), map[0 := K(), 1 := K(), 3 := K()], {2});
    assert [3] + [2] == [3, 2];
  }

  lemma DiamondLastThree(final: Maps<bool>)
    requires InjectiveRenaming(Diamond()) && final == map[0 := K(), 1 := K(), 2 := map[], 3 := K()]
    ensures RunAlong(Diamond(), [1, 3, 2], map[0 := K()], {1, 2}, final)
  {
    DiamondLastTwo(final);
    DiamondBranch();
    RunStep(Diamond(), 1, [3, 2], map[0 := K()], {1, 2}, final, K(), map[0 := K(), 1 := K()], {2, 3});
    assert [1] + [3, 2] == [1, 3, 2];
  }

  lemma DiamondRun(final: Maps<bool>)
    requires InjectiveRenaming(Diamond()) && final == map[0 := K(), 1 := K(), 2 := map[], 3 := K()]
    ensures RunAlong(Diamond(), [0, 1, 3, 2], map[], {0}, final)
  {
    DiamondLastThree(final);
    DiamondStart();
    RunStep(Diamond(), 0, [1, 3, 2], map[], {0}, final, map[], map[0 := K()], {1, 2});
    assert [0] + [1, 3, 2] == [0, 1, 3, 2];
  }

  /**
   * Visiting the meeting point before the branch that forgets leaves it claiming what that branch forgot: the
   * branch's first map is empty, which counts as no change, so nobody tells the meeting point.
   */
  lemma ForgottenBranchGoesUnnoticed()
    ensures WellFormed(Diamond(), Height)
    ensures var final: Maps<bool> := map[0 := K(), 1 := K(), 2 := map[], 3 := K()];
            RunAlong(Diamond(), [0, 1, 3, 2], map[], {0}, final) && !IsSolution(Diamond(), {0, 1, 2, 3}, final)
  {
    DiamondWellFormed();
    var final: Maps<bool> := map[0 := K(), 1 := K(), 2 := map[], 3 := K()];
    DiamondRun(final);
    MeetIsUnsolved(final);
  }
}
