/** The equations of a data-flow analysis in terms of the graph, direction by direction. */
module FlowMeaning {
  import opened RegisterMaps
  import opened FlowEquations

  /** x promises no more than what each of the blocks S passes on to b. */
  ghost predicate BelowEach<T(!new), Op(!new)>(a: Analysis<T, Op>, maps: Maps<T>, S: set<Block>, b: Block, x: RegMap<T>)
    requires S <= maps.Keys
  {
    forall o, t :: o in S && IsTranslated(a, o, b, maps[o], t) ==> Leq(a.join, x, t)
  }

  /** m is the greatest such map, or the empty one if S is empty. */
  ghost predicate IsMeet<T(!new), Op(!new)>(a: Analysis<T, Op>, maps: Maps<T>, S: set<Block>, b: Block, m: RegMap<T>)
    requires S <= maps.Keys
  {
    if S == {} then m == map[] else forall x: RegMap<T> :: Leq(a.join, x, m) <==> BelowEach(a, maps, S, b, x)
  }

  /** Forward, a block holds what its operations, first to last, make of the meet over its predecessors; backward, what
      they make, last to first, of the meet over its successors. */
  ghost predicate Equation<T(!new), Op(!new)>(a: Analysis<T, Op>, reach: set<Block>, maps: Maps<T>, b: Block)
    requires maps.Keys == reach && b in reach
  {
    match a.direction
    case Forward => exists m ::
      && IsMeet(a, maps, a.cfg.predecessors(b) * reach, b, m)
      && RunsForward(a.visit, a.cfg.operations(b), m, maps[b])
    case Backward => exists m ::
      && IsMeet(a, maps, a.cfg.successors(b) * reach, b, m)
      && RunsBackward(a.visit, a.cfg.operations(b), m, maps[b])
  }

  lemma BelowEachIsBelowAll<T(!new), Op(!new)>(a: Analysis<T, Op>, maps: Maps<T>, S: set<Block>, b: Block, x: RegMap<T>)
    requires InjectiveRenaming(a) && S <= maps.Keys
    ensures BelowEach(a, maps, S, b, x) <==> BelowAll(a, maps, S, b, x)
  {
    forall o, t | o in S
      ensures IsTranslated(a, o, b, maps[o], t) <==> t == TranslateMap(a, o, b, maps[o])
    {
      TranslationIsUnique(a, o, b, maps[o], t);
    }
    if BelowEach(a, maps, S, b, x) {
      forall o | o in S
        ensures Leq(a.join, x, TranslateMap(a, o, b, maps[o]))
      {
        assert IsTranslated(a, o, b, maps[o], TranslateMap(a, o, b, maps[o]));
      }
    }
  }

  lemma MeetIsInflow<T(!new), Op(!new)>(a: Analysis<T, Op>, maps: Maps<T>, S: set<Block>, b: Block, m: RegMap<T>)
    requires InjectiveRenaming(a) && S <= maps.Keys
    ensures IsMeet(a, maps, S, b, m) <==> IsInflow(a, maps, S, b, m)
  {
    forall x: RegMap<T>
      ensures BelowEach(a, maps, S, b, x) <==> BelowAll(a, maps, S, b, x)
    {
      BelowEachIsBelowAll(a, maps, S, b, x);
    }
  }

  lemma EquationIsSolved<T(!new), Op(!new)>(a: Analysis<T, Op>, reach: set<Block>, maps: Maps<T>, b: Block)
    requires InjectiveRenaming(a) && maps.Keys == reach && b in reach
    ensures Equation(a, reach, maps, b) <==> Solved(a, maps, Sources(a, b) * reach, b)
  {
    forall m: RegMap<T>
      ensures IsMeet(a, maps, Sources(a, b) * reach, b, m) <==> IsInflow(a, maps, Sources(a, b) * reach, b, m)
      ensures maps[b] == Transfer(a, b, m) <==>
              if a.direction == Forward then RunsForward(a.visit, a.cfg.operations(b), m, maps[b])
              else RunsBackward(a.visit, a.cfg.operations(b), m, maps[b])
    {
      MeetIsInflow(a, maps, Sources(a, b) * reach, b, m);
      TransferRuns(a, b, m, maps[b]);
    }
  }

  /** A solution holds the equation of every reachable block, and nothing else is one. */
  lemma SolutionMeans<T(!new), Op(!new)>(a: Analysis<T, Op>, reach: set<Block>, maps: Maps<T>)
    requires InjectiveRenaming(a)
    ensures IsSolution(a, reach, maps) <==>
            maps.Keys == reach && forall b :: b in reach ==> Equation(a, reach, maps, b)
  {
    if maps.Keys == reach {
      forall b | b in reach
        ensures Equation(a, reach, maps, b) <==> Solved(a, maps, Sources(a, b) * reach, b)
      {
        EquationIsSolved(a, reach, maps, b);
      }
    }
  }
}
