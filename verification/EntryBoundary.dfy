/** An entry that can be reached again forgets that nothing was known the first time through. */
module EntryBoundary {
  import opened RegisterMaps
  import opened FlowEquations
  import opened FlowIteration
  import opened DataFlowLimits

  // ---- A start nobody returns to ----

  ghost predicate ReachedBy<T(!new), Op(!new)>(a: Analysis<T, Op>, b: Block, path: seq<Block>)
    requires a.cfg.blocks != []
  {
    IsPath(a, path) && path[0] == Start(a) && path[|path| - 1] == b
  }

  /** What is queued or processed can be reached, and the start holds what its operations make of nothing. */
  ghost predicate Undisturbed<T(!new), Op(!new)>(a: Analysis<T, Op>, maps: Maps<T>, working: set<Block>)
    requires a.cfg.blocks != []
  {
    && (forall b :: b in maps.Keys + working ==> exists path :: ReachedBy(a, b, path))
    && Start(a) in maps.Keys + working && (Start(a) in maps ==> maps[Start(a)] == Transfer(a, Start(a), map[]))
  }

  lemma NothingReturns<T(!new), Op(!new)>(a: Analysis<T, Op>, maps: Maps<T>, working: set<Block>)
    requires a.cfg.blocks != [] && !StartIsReturnedTo(a) && Undisturbed(a, maps, working)
    ensures Heard(a, maps, Start(a)) == {}
  {
    forall o | o in maps
      ensures o !in Sources(a, Start(a))
    {
      assert o in maps.Keys + working;
      var path :| ReachedBy(a, o, path);
    }
  }

  lemma StepStaysUndisturbed<T(!new), Op(!new)>(a: Analysis<T, Op>, b: Block, maps: Maps<T>, working: set<Block>,
                                                m: RegMap<T>, next: Maps<T>, left: set<Block>)
    requires a.cfg.blocks != [] && InjectiveRenaming(a) && !StartIsReturnedTo(a)
    requires Undisturbed(a, maps, working) && TurnsInto(a, b, maps, working, m, next, left)
    ensures Undisturbed(a, next, left)
  {
    NothingReturns(a, maps, working);
    assert b in maps.Keys + working;
    var path :| ReachedBy(a, b, path);
    forall c | c in Targets(a, b)
      ensures exists longer :: ReachedBy(a, c, longer)
    {
      assert ReachedBy(a, c, path + [c]);
    }
  }

  lemma {:induction false} RunStaysUndisturbed<T(!new), Op(!new)>(a: Analysis<T, Op>, order: seq<Block>, maps: Maps<T>,
                                                                  working: set<Block>, final: Maps<T>)
    requires a.cfg.blocks != [] && InjectiveRenaming(a) && !StartIsReturnedTo(a)
    requires Undisturbed(a, maps, working) && RunAlong(a, order, maps, working, final)
    ensures Undisturbed(a, final, {})
    decreases |order|
  {
    if order != [] {
      var m, next, left := FirstTurn(a, order, maps, working, final);
      StepStaysUndisturbed(a, order[0], maps, working, m, next, left);
      RunStaysUndisturbed(a, order[1..], next, left, final);
    }
  }

  lemma FirstTurn<T(!new), Op(!new)>(a: Analysis<T, Op>, order: seq<Block>, maps: Maps<T>, working: set<Block>,
                                     final: Maps<T>) returns (m: RegMap<T>, next: Maps<T>, left: set<Block>)
    requires InjectiveRenaming(a) && order != [] && RunAlong(a, order, maps, working, final)
    ensures TurnsInto(a, order[0], maps, working, m, next, left) && RunAlong(a, order[1..], next, left, final)
  {
    m :| TurnAlong(a, order, maps, working, final, m);
    var value := Transfer(a, order[0], m);
    next := maps[order[0] := value];
    left := working - {order[0]} + (if Reported(maps, order[0], value) then Targets(a, order[0]) else {});
  }

  /** Every finished run leaves such a start with what its operations make of nothing, whatever the callbacks. */
  lemma StartKeepsBoundary<T(!new), Op(!new)>(a: Analysis<T, Op>, order: seq<Block>, final: Maps<T>)
    requires a.cfg.blocks != [] && InjectiveRenaming(a) && !StartIsReturnedTo(a)
    requires RunAlong(a, order, map[], {Start(a)}, final)
    ensures Start(a) in final && final[Start(a)] == Transfer(a, Start(a), map[])
  {
    assert ReachedBy(a, Start(a), [Start(a)]);
    RunStaysUndisturbed(a, order, map[], {Start(a)}, final);
  }

  // ---- A start somebody returns to ----

  /** The start copies register 7 to 8 and then defines 7; the other blocks do nothing. */
  function CopyAtStart(direction: Direction, blocks: seq<Block>, successors: Block -> set<Block>,
                       predecessors: Block -> set<Block>): Analysis<bool, Action>
    requires blocks != []
  {
    var start := if direction == Forward then blocks[0] else blocks[|blocks| - 1];
    var code := if direction == Forward then [Copy(7, 8), Define(7)] else [Define(7), Copy(7, 8)];
    KnownOn(direction, blocks, successors, predecessors, (b: Block) => if b == start then code else [])
  }

  ghost predicate IsCopyAtStart(a: Analysis<bool, Action>) {
    a.cfg.blocks != [] && a == CopyAtStart(a.direction, a.cfg.blocks, a.cfg.successors, a.cfg.predecessors)
  }

  ghost function First(): RegMap<bool> { map[7 := true] }

  ghost function Later(): RegMap<bool> { map[7 := true, 8 := true] }

  lemma CopyIsMonotone(a: Analysis<bool, Action>)
    requires IsCopyAtStart(a)
    ensures IsSemilattice(a.join, Height) && Monotone(a) && InjectiveRenaming(a)
  {
    KnownIsMonotone(a, a.direction, a.cfg.blocks, a.cfg.successors, a.cfg.predecessors, a.cfg.operations);
  }

  lemma CopyThenDefine(m: RegMap<bool>)
    ensures VisitForward(Visit, [Copy(7, 8), Define(7)], m) == Visit(Define(7), Visit(Copy(7, 8), m))
    ensures VisitReverse(Visit, [Define(7), Copy(7, 8)], m) == Visit(Define(7), Visit(Copy(7, 8), m))
  {
    assert [Copy(7, 8), Define(7)][..1] == [Copy(7, 8)];
    assert [Copy(7, 8)][..0] == [];
    assert VisitForward(Visit, [Copy(7, 8)], m) == Visit(Copy(7, 8), m);
    assert [Define(7), Copy(7, 8)][1..] == [Copy(7, 8)];
    assert VisitReverse(Visit, [Copy(7, 8)], m) == Visit(Copy(7, 8), m);
  }

  lemma CopyTransfers(a: Analysis<bool, Action>, b: Block)
    requires IsCopyAtStart(a)
    ensures b != Start(a) ==> Transfer(a, b, First()) == First() && Transfer(a, b, Later()) == Later()
    ensures Transfer(a, Start(a), map[]) == First()
    ensures Transfer(a, Start(a), First()) == Later() && Transfer(a, Start(a), Later()) == Later()
  {
    CopyThenDefine(map[]);
    CopyThenDefine(First());
    CopyThenDefine(Later());
    assert First()[8 := true][7 := true] == Later() && Later()[8 := true][7 := true] == Later();
  }

  // ---- What flows between the blocks ----

  ghost predicate Values(maps: Maps<bool>, S: set<Block>) {
    forall o :: o in S ==> o in maps && (maps[o] == First() || maps[o] == Later())
  }

  /** What flows in from blocks with these values. */
  ghost function Meet(maps: Maps<bool>, S: set<Block>): RegMap<bool>
    requires Values(maps, S)
  {
    if forall o :: o in S ==> maps[o] == Later() then Later() else First()
  }

  lemma BelowAllKnown(a: Analysis<bool, Action>, maps: Maps<bool>, S: set<Block>, b: Block, x: RegMap<bool>)
    requires IsCopyAtStart(a) && InjectiveRenaming(a) && S <= maps.Keys
    ensures BelowAll(a, maps, S, b, x) <==> forall o :: o in S ==> Leq(a.join, x, maps[o])
  {
    forall o | o in S
      ensures TranslateMap(a, o, b, maps[o]) == maps[o]
    {
      IdentityTranslates(a, o, b, maps[o]);
    }
  }

  lemma BelowFirst(a: Analysis<bool, Action>, x: RegMap<bool>)
    requires IsCopyAtStart(a) && Leq(a.join, x, First())
    ensures Leq(a.join, x, Later())
  {
  }

  lemma MeetIsHeld(maps: Maps<bool>, S: set<Block>)
    requires Values(maps, S) && S != {}
    ensures exists o :: o in S && maps[o] == Meet(maps, S)
    ensures Meet(maps, S) == First() || forall o :: o in S ==> maps[o] == Later()
  {
    var o :| o in S;
  }

  lemma MeetBelow(a: Analysis<bool, Action>, maps: Maps<bool>, S: set<Block>, b: Block, x: RegMap<bool>)
    requires IsCopyAtStart(a) && InjectiveRenaming(a) && S <= maps.Keys && Values(maps, S) && S != {}
    ensures Leq(a.join, x, Meet(maps, S)) <==> BelowAll(a, maps, S, b, x)
  {
    BelowAllKnown(a, maps, S, b, x);
    if Leq(a.join, x, First()) { BelowFirst(a, x); }
    MeetIsHeld(maps, S);
  }

  lemma MeetIsInflow(a: Analysis<bool, Action>, maps: Maps<bool>, S: set<Block>, b: Block)
    requires IsCopyAtStart(a) && InjectiveRenaming(a) && S <= maps.Keys && Values(maps, S) && S != {}
    ensures IsInflow(a, maps, S, b, Meet(maps, S))
  {
    forall x: RegMap<bool>
      ensures Leq(a.join, x, Meet(maps, S)) <==> BelowAll(a, maps, S, b, x)
    {
      MeetBelow(a, maps, S, b, x);
    }
  }

  lemma InflowIsMeet(a: Analysis<bool, Action>, maps: Maps<bool>, S: set<Block>, b: Block, m: RegMap<bool>)
    requires IsCopyAtStart(a) && InjectiveRenaming(a) && S <= maps.Keys && Values(maps, S) && S != {}
    requires IsInflow(a, maps, S, b, m)
    ensures m == Meet(maps, S)
  {
    CopyIsMonotone(a);
    var n := Meet(maps, S);
    MeetBelow(a, maps, S, b, m);
    MeetBelow(a, maps, S, b, n);
    LeqRefl(a.join, Height, m);
    LeqRefl(a.join, Height, n);
    LeqAntisymmetric(a.join, Height, m, n);
  }

  // ---- Every run ----

  /** Whoever a processed block passes information on to is processed or queued. */
  ghost predicate Passed(a: Analysis<bool, Action>, maps: Maps<bool>, working: set<Block>) {
    forall b, c :: b in maps && c in Targets(a, b) ==> c in maps.Keys + working
  }

  /** Once somebody the start listens to was processed, the start is queued or has forgotten. */
  ghost predicate Returned(a: Analysis<bool, Action>, maps: Maps<bool>, working: set<Block>)
    requires a.cfg.blocks != []
  {
    Heard(a, maps, Start(a)) != {} ==> Start(a) in working || (Start(a) in maps && maps[Start(a)] == Later())
  }

  /** What every turn keeps. */
  ghost predicate Spreads(a: Analysis<bool, Action>, maps: Maps<bool>, working: set<Block>)
    requires a.cfg.blocks != []
  {
    && Values(maps, maps.Keys) && Anchored(a, maps, working) && Start(a) in maps.Keys + working
    && Passed(a, maps, working) && Returned(a, maps, working)
  }

  /** A turn makes a block hold what its sources agree on; the start adds what it adds. */
  lemma TurnValue(a: Analysis<bool, Action>, b: Block, maps: Maps<bool>, working: set<Block>, m: RegMap<bool>,
                  next: Maps<bool>, left: set<Block>)
    requires IsCopyAtStart(a) && InjectiveRenaming(a) && Spreads(a, maps, working)
    requires TurnsInto(a, b, maps, working, m, next, left)
    ensures Values(maps, Heard(a, maps, b))
    ensures next[b] == if Heard(a, maps, b) == {} then First() else if b == Start(a) then Later()
                       else Meet(maps, Heard(a, maps, b))
  {
    CopyTransfers(a, b);
    if Heard(a, maps, b) != {} { InflowIsMeet(a, maps, Heard(a, maps, b), b, m); }
  }

  lemma TurnAnchors(a: Analysis<bool, Action>, b: Block, maps: Maps<bool>, working: set<Block>, m: RegMap<bool>,
                    next: Maps<bool>, left: set<Block>)
    requires a.cfg.blocks != [] && InjectiveRenaming(a) && ConsistentGraph(a) && Anchored(a, maps, working)
    requires TurnsInto(a, b, maps, working, m, next, left)
    ensures Anchored(a, next, left)
  {
    forall c | c in next.Keys + left && c != Start(a)
      ensures Heard(a, next, c) != {}
    {
      if c in maps.Keys + working {
        var o :| o in Heard(a, maps, c);
        assert o in Heard(a, next, c);
      } else {
        assert b in Heard(a, next, c);
      }
    }
  }

  lemma TurnPassesOn(a: Analysis<bool, Action>, b: Block, maps: Maps<bool>, working: set<Block>, m: RegMap<bool>,
                     next: Maps<bool>, left: set<Block>)
    requires InjectiveRenaming(a) && Passed(a, maps, working) && TurnsInto(a, b, maps, working, m, next, left)
    requires next[b] != map[]
    ensures Passed(a, next, left)
  {
    forall o, c | o in next && c in Targets(a, o)
      ensures c in next.Keys + left
    {
      if o in maps { assert c in maps.Keys + working; }
    }
  }

  lemma TurnReturns(a: Analysis<bool, Action>, b: Block, maps: Maps<bool>, working: set<Block>, m: RegMap<bool>,
                    next: Maps<bool>, left: set<Block>)
    requires a.cfg.blocks != [] && InjectiveRenaming(a) && ConsistentGraph(a)
    requires Returned(a, maps, working) && TurnsInto(a, b, maps, working, m, next, left) && next[b] != map[]
    requires b == Start(a) && Heard(a, maps, b) != {} ==> next[b] == Later()
    ensures Returned(a, next, left)
  {
    if b in Heard(a, next, Start(a)) { assert Start(a) in Targets(a, b); }
  }

  lemma TurnSpreads(a: Analysis<bool, Action>, b: Block, maps: Maps<bool>, working: set<Block>, m: RegMap<bool>,
                    next: Maps<bool>, left: set<Block>)
    requires IsCopyAtStart(a) && InjectiveRenaming(a) && ConsistentGraph(a) && Spreads(a, maps, working)
    requires TurnsInto(a, b, maps, working, m, next, left)
    ensures Spreads(a, next, left)
  {
    TurnValue(a, b, maps, working, m, next, left);
    assert 7 in next[b];
    TurnAnchors(a, b, maps, working, m, next, left);
    TurnPassesOn(a, b, maps, working, m, next, left);
    TurnReturns(a, b, maps, working, m, next, left);
  }

  lemma {:induction false} RunSpreads(a: Analysis<bool, Action>, order: seq<Block>, maps: Maps<bool>,
                                      working: set<Block>, final: Maps<bool>)
    requires IsCopyAtStart(a) && InjectiveRenaming(a) && ConsistentGraph(a) && Spreads(a, maps, working)
    requires RunAlong(a, order, maps, working, final)
    ensures Spreads(a, final, {})
    decreases |order|
  {
    if order != [] {
      var m, next, left := FirstTurn(a, order, maps, working, final);
      TurnSpreads(a, order[0], maps, working, m, next, left);
      RunSpreads(a, order[1..], next, left, final);
    }
  }

  lemma StartSpreads(a: Analysis<bool, Action>)
    requires a.cfg.blocks != []
    ensures Spreads(a, map[], {Start(a)})
  {
  }

  lemma ReturningIsHeard(a: Analysis<bool, Action>, maps: Maps<bool>)
    requires a.cfg.blocks != [] && StartIsReturnedTo(a) && Start(a) in maps && Passed(a, maps, {})
    ensures Heard(a, maps, Start(a)) != {}
  {
    var path :| IsPath(a, path) && path[0] == Start(a) && path[|path| - 1] in Sources(a, Start(a));
    forall b, c | b in maps && c in Targets(a, b)
      ensures c in maps
    {
      assert c in maps.Keys + {};
    }
    ClosedCoversPath(a, maps.Keys, path);
    assert path[|path| - 1] in Heard(a, maps, Start(a));
  }

  /** Every finished run leaves register 8 known at the start, although it is unknown the first time through. */
  lemma EveryRunForgets(a: Analysis<bool, Action>, order: seq<Block>, final: Maps<bool>)
    requires IsCopyAtStart(a) && InjectiveRenaming(a) && ConsistentGraph(a) && StartIsReturnedTo(a)
    requires RunAlong(a, order, map[], {Start(a)}, final)
    ensures Start(a) in final && final[Start(a)] == Later()
    ensures !Leq(a.join, final[Start(a)], Transfer(a, Start(a), map[]))
  {
    StartSpreads(a);
    RunSpreads(a, order, map[], {Start(a)}, final);
    ReturningIsHeard(a, final);
    CopyTransfers(a, Start(a));
    assert 8 in Later() && 8 !in First();
  }

  // ---- Some run ends ----

  /** Before the start is taken again all blocks agree. */
  ghost predicate Agreeing(a: Analysis<bool, Action>, reach: set<Block>, maps: Maps<bool>, working: set<Block>)
    requires a.cfg.blocks != []
  {
    && IsReach(a, reach) && Spreads(a, maps, working) && maps.Keys + working <= reach && Start(a) in maps
    && forall b :: b in maps ==> maps[b] == First()
  }

  /** Afterwards a block gains only when all its sources have. */
  ghost predicate Gaining(a: Analysis<bool, Action>, reach: set<Block>, maps: Maps<bool>, working: set<Block>)
    requires a.cfg.blocks != []
  {
    && IsReach(a, reach) && Spreads(a, maps, working) && maps.Keys == reach && working <= reach
    && maps[Start(a)] == Later() && GainsAgreed(a, maps)
  }

  ghost predicate Agreed(a: Analysis<bool, Action>, maps: Maps<bool>, b: Block) {
    forall o :: o in Heard(a, maps, b) ==> maps[o] == Later()
  }

  ghost function Behind(maps: Maps<bool>): set<Block> { set b | b in maps && maps[b] == First() }

  lemma BehindShrinks(maps: Maps<bool>, b: Block)
    requires b in maps && maps[b] == First()
    ensures Behind(maps[b := Later()]) < Behind(maps)
  {
    assert 8 in Later() && 8 !in First();
    assert Behind(maps[b := Later()]) == Behind(maps) - {b} && b in Behind(maps);
  }

  ghost predicate GainsAgreed(a: Analysis<bool, Action>, maps: Maps<bool>)
    requires a.cfg.blocks != []
  {
    forall b :: b in maps && b != Start(a) && maps[b] == Later() ==> Agreed(a, maps, b)
  }

  lemma GainIsAgreed(a: Analysis<bool, Action>, maps: Maps<bool>, b: Block)
    requires a.cfg.blocks != [] && GainsAgreed(a, maps) && b in maps && (b == Start(a) || Agreed(a, maps, b))
    ensures GainsAgreed(a, maps[b := Later()])
  {
    var next := maps[b := Later()];
    forall c | c in next && c != Start(a) && next[c] == Later()
      ensures Agreed(a, next, c)
    {
      assert Agreed(a, maps, c);
      assert Heard(a, next, c) == Heard(a, maps, c);
    }
  }

  /** With somebody heard a turn changes nothing, or a block gains what its sources agree on. */
  lemma GainingValue(a: Analysis<bool, Action>, reach: set<Block>, b: Block, maps: Maps<bool>, working: set<Block>,
                     m: RegMap<bool>, next: Maps<bool>, left: set<Block>)
    requires IsCopyAtStart(a) && InjectiveRenaming(a) && Gaining(a, reach, maps, working) && Heard(a, maps, b) != {}
    requires TurnsInto(a, b, maps, working, m, next, left)
    ensures next == maps || (maps[b] == First() && next == maps[b := Later()] && Agreed(a, maps, b) && b != Start(a))
  {
    TurnValue(a, b, maps, working, m, next, left);
  }

  lemma GainingTurn(a: Analysis<bool, Action>, reach: set<Block>, b: Block, maps: Maps<bool>, working: set<Block>)
    returns (m: RegMap<bool>, next: Maps<bool>, left: set<Block>)
    requires IsCopyAtStart(a) && InjectiveRenaming(a) && ConsistentGraph(a) && Gaining(a, reach, maps, working)
    requires b in working && Heard(a, maps, b) != {}
    ensures TurnsInto(a, b, maps, working, m, next, left) && Gaining(a, reach, next, left)
    ensures (next == maps && left == working - {b}) || Behind(next) < Behind(maps)
  {
    var S := Heard(a, maps, b);
    m := Meet(maps, S);
    MeetIsInflow(a, maps, S, b);
    next := maps[b := Transfer(a, b, m)];
    left := working - {b} + (if Reported(maps, b, next[b]) then Targets(a, b) else {});
    TurnSpreads(a, b, maps, working, m, next, left);
    GainingValue(a, reach, b, maps, working, m, next, left);
    if next != maps {
      BehindShrinks(maps, b);
      GainIsAgreed(a, maps, b);
    }
  }

  lemma {:induction false} FinishGaining(a: Analysis<bool, Action>, reach: set<Block>, maps: Maps<bool>,
                                         working: set<Block>) returns (order: seq<Block>, final: Maps<bool>)
    requires IsCopyAtStart(a) && InjectiveRenaming(a) && ConsistentGraph(a) && Gaining(a, reach, maps, working)
    requires Heard(a, maps, Start(a)) != {}
    ensures RunAlong(a, order, maps, working, final)
    decreases Behind(maps), working
  {
    if working == {} {
      order, final := [], maps;
    } else {
      var b :| b in working;
      assert b in maps.Keys + working;
      var m, next, left := GainingTurn(a, reach, b, maps, working);
      assert Heard(a, next, Start(a)) == Heard(a, maps, Start(a));
      var rest;
      rest, final := FinishGaining(a, reach, next, left);
      RunStep(a, b, rest, maps, working, final, m, next, left);
      order := [b] + rest;
    }
  }

  lemma AgreeingTurn(a: Analysis<bool, Action>, reach: set<Block>, b: Block, maps: Maps<bool>, working: set<Block>)
    returns (m: RegMap<bool>, next: Maps<bool>, left: set<Block>)
    requires IsCopyAtStart(a) && InjectiveRenaming(a) && ConsistentGraph(a) && Agreeing(a, reach, maps, working)
    requires b in working && b != Start(a)
    ensures TurnsInto(a, b, maps, working, m, next, left) && Agreeing(a, reach, next, left)
    ensures (next == maps && left == working - {b}) || reach - next.Keys < reach - maps.Keys
  {
    var S := Heard(a, maps, b);
    assert b in maps.Keys + working;
    m := Meet(maps, S);
    MeetIsInflow(a, maps, S, b);
    next := maps[b := Transfer(a, b, m)];
    left := working - {b} + (if Reported(maps, b, next[b]) then Targets(a, b) else {});
    TurnSpreads(a, b, maps, working, m, next, left);
    TurnValue(a, b, maps, working, m, next, left);
    MeetIsHeld(maps, S);
    assert next[b] == First();
    if b in maps {
      assert next == maps;
    } else {
      assert b in (reach - maps.Keys) - (reach - next.Keys);
    }
  }

  /** All blocks are processed and only the start is left. */
  lemma AgreedIsAll(a: Analysis<bool, Action>, reach: set<Block>, maps: Maps<bool>, working: set<Block>)
    requires a.cfg.blocks != [] && Agreeing(a, reach, maps, working)
    requires StartIsReturnedTo(a) && working <= {Start(a)}
    ensures maps.Keys == reach && Heard(a, maps, Start(a)) != {}
  {
    forall b, c | b in maps && c in Targets(a, b)
      ensures c in maps
    {
      assert c in maps.Keys + working;
    }
    forall b | b in reach
      ensures b in maps
    {
      var path :| IsPath(a, path) && path[0] == Start(a) && path[|path| - 1] == b;
      ClosedCoversPath(a, maps.Keys, path);
    }
    ReturningIsHeard(a, maps);
  }

  /** The start is taken again and forgets. */
  lemma StartForgets(a: Analysis<bool, Action>, reach: set<Block>, maps: Maps<bool>, working: set<Block>)
    returns (m: RegMap<bool>, next: Maps<bool>, left: set<Block>)
    requires IsCopyAtStart(a) && InjectiveRenaming(a) && ConsistentGraph(a) && Agreeing(a, reach, maps, working)
    requires StartIsReturnedTo(a) && working <= {Start(a)}
    ensures TurnsInto(a, Start(a), maps, working, m, next, left) && Gaining(a, reach, next, left)
    ensures Heard(a, next, Start(a)) != {}
  {
    var b := Start(a);
    AgreedIsAll(a, reach, maps, working);
    var S := Heard(a, maps, b);
    assert 8 in Later() && 8 !in First();
    m := Meet(maps, S);
    MeetIsInflow(a, maps, S, b);
    next := maps[b := Transfer(a, b, m)];
    left := working - {b} + (if Reported(maps, b, next[b]) then Targets(a, b) else {});
    TurnSpreads(a, b, maps, working, m, next, left);
    TurnValue(a, b, maps, working, m, next, left);
    assert Heard(a, next, b) == S;
  }

  lemma {:induction false} FinishAgreeing(a: Analysis<bool, Action>, reach: set<Block>, maps: Maps<bool>,
                                          working: set<Block>) returns (order: seq<Block>, final: Maps<bool>)
    requires IsCopyAtStart(a) && InjectiveRenaming(a) && ConsistentGraph(a) && Agreeing(a, reach, maps, working)
    requires StartIsReturnedTo(a)
    ensures RunAlong(a, order, maps, working, final)
    decreases reach - maps.Keys, working
  {
    var b, m, next, left, rest;
    if working <= {Start(a)} {
      b := Start(a);
      m, next, left := StartForgets(a, reach, maps, working);
      rest, final := FinishGaining(a, reach, next, left);
    } else {
      b :| b in working && b != Start(a);
      m, next, left := AgreeingTurn(a, reach, b, maps, working);
      rest, final := FinishAgreeing(a, reach, next, left);
    }
    RunStep(a, b, rest, maps, working, final, m, next, left);
    order := [b] + rest;
  }

  lemma FirstTurnAgrees(a: Analysis<bool, Action>, reach: set<Block>)
    requires IsCopyAtStart(a) && InjectiveRenaming(a) && ConsistentGraph(a) && IsReach(a, reach)
    ensures var next: Maps<bool> := map[Start(a) := First()];
      TurnsInto(a, Start(a), map[], {Start(a)}, map[], next, Targets(a, Start(a))) &&
      Agreeing(a, reach, next, Targets(a, Start(a)))
  {
    var b := Start(a);
    var next: Maps<bool> := map[b := First()];
    CopyTransfers(a, b);
    assert 7 in First();
    assert TurnsInto(a, b, map[], {b}, map[], next, Targets(a, b));
    StartSpreads(a);
    TurnSpreads(a, b, map[], {b}, map[], next, Targets(a, b));
  }

  /** There is a run that ends: take the start again only when everything else is done. */
  lemma SomeRunEnds(a: Analysis<bool, Action>, reach: set<Block>) returns (order: seq<Block>, final: Maps<bool>)
    requires IsCopyAtStart(a) && InjectiveRenaming(a) && ConsistentGraph(a) && IsReach(a, reach)
    requires StartIsReturnedTo(a)
    ensures RunAlong(a, order, map[], {Start(a)}, final)
  {
    var b := Start(a);
    var next: Maps<bool> := map[b := First()];
    FirstTurnAgrees(a, reach);
    var rest;
    rest, final := FinishAgreeing(a, reach, next, Targets(a, b));
    RunStep(a, b, rest, map[], {b}, final, map[], next, Targets(a, b));
    order := [b] + rest;
  }

  // ---- Exactly when the boundary is kept ----

  ghost predicate SameGraph<T(!new), Op(!new), U(!new), Pq(!new)>(a: Analysis<T, Op>, b: Analysis<U, Pq>) {
    && a.direction == b.direction && a.cfg.blocks == b.cfg.blocks
    && a.cfg.predecessors == b.cfg.predecessors && a.cfg.successors == b.cfg.successors
  }

  /** On this graph every finished run of every such analysis promises no more at the start than its operations make
      of nothing, which is all that holds the first time through. */
  ghost predicate KeepsBoundary(g: Analysis<bool, Action>)
    requires g.cfg.blocks != []
  {
    forall a: Analysis<bool, Action>, order, final ::
      SameGraph(g, a) && IsSemilattice(a.join, Height) && Monotone(a) && InjectiveRenaming(a) &&
      RunAlong(a, order, map[], {Start(a)}, final) ==>
        Start(a) in final && Leq(a.join, final[Start(a)], Transfer(a, Start(a), map[]))
  }

  lemma SameReturn<T(!new), Op(!new), U(!new), Pq(!new)>(a: Analysis<T, Op>, b: Analysis<U, Pq>)
    requires SameGraph(a, b) && a.cfg.blocks != [] && StartIsReturnedTo(a)
    ensures StartIsReturnedTo(b)
  {
    var path :| IsPath(a, path) && path[0] == Start(a) && path[|path| - 1] in Sources(a, Start(a));
    forall k | 0 <= k < |path| - 1
      ensures path[k + 1] in Targets(b, path[k])
    {
      assert path[k + 1] in Targets(a, path[k]);
    }
    assert IsPath(b, path);
  }

  /** A graph keeps the boundary for all analyses exactly if nothing that the start reaches leads back to it. */
  lemma BoundaryKeptExactly(g: Analysis<bool, Action>, reach: set<Block>)
    requires g.cfg.blocks != [] && ConsistentGraph(g) && IsReach(g, reach)
    ensures KeepsBoundary(g) <==> !StartIsReturnedTo(g)
  {
    if StartIsReturnedTo(g) {
      var a := CopyAtStart(g.direction, g.cfg.blocks, g.cfg.successors, g.cfg.predecessors);
      assert SameGraph(g, a) && IsCopyAtStart(a);
      CopyIsMonotone(a);
      SameReturn(g, a);
      SameReach(g, a, reach);
      var order, final := SomeRunEnds(a, reach);
      EveryRunForgets(a, order, final);
    } else {
      forall a: Analysis<bool, Action>, order, final |
        SameGraph(g, a) && IsSemilattice(a.join, Height) && InjectiveRenaming(a) &&
        RunAlong(a, order, map[], {Start(a)}, final)
        ensures Start(a) in final && Leq(a.join, final[Start(a)], Transfer(a, Start(a), map[]))
      {
        if StartIsReturnedTo(a) { SameReturn(a, g); }
        StartKeepsBoundary(a, order, final);
        LeqRefl(a.join, Height, final[Start(a)]);
      }
    }
  }

  lemma SameReach<T(!new), Op(!new), U(!new), Pq(!new)>(a: Analysis<T, Op>, b: Analysis<U, Pq>, reach: set<Block>)
    requires SameGraph(a, b) && a.cfg.blocks != [] && IsReach(a, reach) && ConsistentGraph(a)
    ensures IsReach(b, reach) && ConsistentGraph(b)
  {
    forall c | c in reach
      ensures exists path :: IsPath(b, path) && path[0] == Start(b) && path[|path| - 1] == c
    {
      var path :| IsPath(a, path) && path[0] == Start(a) && path[|path| - 1] == c;
      forall k | 0 <= k < |path| - 1
        ensures path[k + 1] in Targets(b, path[k])
      {
        assert path[k + 1] in Targets(a, path[k]);
      }
      assert IsPath(b, path);
    }
    forall c, d
      ensures c in Sources(b, d) <==> d in Targets(b, c)
    {
      assert c in Sources(a, d) <==> d in Targets(a, c);
    }
  }

  // ---- The smallest example ----

  /** A start that is its own successor. */
  function LoopNeighbours(b: Block): set<Block> { if b == 0 then {0} else {} }

  function Loop(): Analysis<bool, Action> { CopyAtStart(Forward, [0], LoopNeighbours, LoopNeighbours) }

  /** With a predecessor, the entry ends up claiming register 8 although the first time through it is unknown. */
  lemma EntryForgetsItsBoundary()
    ensures InjectiveRenaming(Loop())
    ensures exists order, final :: RunAlong(Loop(), order, map[], {0}, final)
    ensures forall order, final :: RunAlong(Loop(), order, map[], {0}, final) ==>
              0 in final && final[0] == Later() && !Leq(Loop().join, final[0], Transfer(Loop(), 0, map[]))
  {
    var a := Loop();
    CopyIsMonotone(a);
    assert IsPath(a, [0]);
    var order, final := SomeRunEnds(a, {0});
    forall order, final | RunAlong(a, order, map[], {0}, final)
      ensures 0 in final && final[0] == Later() && !Leq(a.join, final[0], Transfer(a, 0, map[]))
    {
      EveryRunForgets(a, order, final);
    }
  }
}
