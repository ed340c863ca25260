/** What one turn of the work-list loop does to the maps, and what every turn keeps. */
module FlowIteration {
  import opened RegisterMaps
  import opened FlowEquations

  /** The sources a block listens to so far. */
  ghost function Heard<T(!new), Op(!new)>(a: Analysis<T, Op>, maps: Maps<T>, b: Block): set<Block> {
    Sources(a, b) * maps.Keys
  }

  ghost predicate PromisesEnough<T(!new), Op(!new)>(a: Analysis<T, Op>, maps: Maps<T>, S: set<Block>, b: Block)
    requires InjectiveRenaming(a) && S <= maps.Keys && b in maps
  {
    exists m :: IsInflow(a, maps, S, b, m) && Leq(a.join, Transfer(a, b, m), maps[b])
  }

  /** No processed block promises less than its equation yields now. */
  ghost predicate Descending<T(!new), Op(!new)>(a: Analysis<T, Op>, maps: Maps<T>)
    requires InjectiveRenaming(a)
  {
    forall b :: b in maps ==> PromisesEnough(a, maps, Heard(a, maps, b), b)
  }

  /** Only the start is ever looked at before one of its sources. */
  ghost predicate Anchored<T(!new), Op(!new)>(a: Analysis<T, Op>, maps: Maps<T>, working: set<Block>)
    requires a.cfg.blocks != []
  {
    forall b :: b in maps.Keys + working && b != Start(a) ==> Heard(a, maps, b) != {}
  }

  /** Processed blocks that are not queued satisfy their equation. */
  ghost predicate Settled<T(!new), Op(!new)>(a: Analysis<T, Op>, maps: Maps<T>, working: set<Block>)
    requires InjectiveRenaming(a)
  {
    && (forall b :: b in maps.Keys - working ==> Solved(a, maps, Heard(a, maps, b), b))
    && (forall b, c :: b in maps && c in Targets(a, b) ==> c in maps.Keys + working)
  }

  /** y bounds every processed block from below. */
  ghost predicate Dominates<T(!new), Op(!new)>(a: Analysis<T, Op>, reach: set<Block>, maps: Maps<T>, y: Maps<T>) {
    maps.Keys <= reach <= y.Keys && forall b :: b in maps ==> Leq(a.join, y[b], maps[b])
  }

  /** The invariant of the loop, whatever the callbacks produce. */
  ghost predicate Invariant<T(!new), Op(!new)>(a: Analysis<T, Op>, reach: set<Block>, maps: Maps<T>,
                                               working: set<Block>)
    requires InjectiveRenaming(a) && a.cfg.blocks != []
  {
    && maps.Keys + working <= reach && Start(a) in maps.Keys + working
    && Anchored(a, maps, working) && Descending(a, maps)
    && DominatesAll(a, reach, maps)
  }

  // ---- One turn ----

  /** m flows into b, which becomes what its operations make of it. */
  ghost predicate Turn<T(!new), Op(!new)>(a: Analysis<T, Op>, maps: Maps<T>, b: Block, m: RegMap<T>, next: Maps<T>)
    requires InjectiveRenaming(a)
  {
    IsInflow(a, maps, Heard(a, maps, b), b, m) && next == maps[b := Transfer(a, b, m)]
  }

  /** Nobody is told of a map that stays as it was, nor of a first map that is empty; otherwise the successors are, or
      the predecessors going backward. */
  ghost predicate AreTold<T(!new), Op(!new)>(a: Analysis<T, Op>, maps: Maps<T>, b: Block, value: RegMap<T>,
                                             told: set<Block>)
  {
    if (b in maps && maps[b] == value) || (b !in maps && value == map[]) then told == {}
    else if a.direction == Forward then told == a.cfg.successors(b) else told == a.cfg.predecessors(b)
  }

  /** An absent entry compares as an empty map. */
  function Reported<T(==)>(maps: Maps<T>, b: Block, value: RegMap<T>): bool {
    (if b in maps then maps[b] else map[]) != value
  }

  /** A processed block never gains. */
  lemma TurnLowers<T(!new), Op(!new)>(a: Analysis<T, Op>, height: T -> nat, maps: Maps<T>, b: Block, m: RegMap<T>,
                                      next: Maps<T>)
    requires WellFormed(a, height) && Descending(a, maps) && Turn(a, maps, b, m, next)
    ensures forall c :: c in maps ==> c in next && Leq(a.join, next[c], maps[c])
  {
    forall c | c in maps
      ensures Leq(a.join, next[c], maps[c])
    {
      if c == b {
        assert PromisesEnough(a, maps, Heard(a, maps, b), b);
        var m0 :| IsInflow(a, maps, Heard(a, maps, b), b, m0) && Leq(a.join, Transfer(a, b, m0), maps[b]);
        InflowUnique(a, height, maps, Heard(a, maps, b), b, m, m0);
      } else {
        LeqRefl(a.join, height, maps[c]);
      }
    }
  }

  /** What a block hears never gets stronger. */
  lemma HeardLowers<T(!new), Op(!new)>(a: Analysis<T, Op>, height: T -> nat, maps: Maps<T>, next: Maps<T>, c: Block,
                                       m: RegMap<T>) returns (n: RegMap<T>)
    requires WellFormed(a, height) && maps.Keys <= next.Keys
    requires forall o :: o in maps ==> Leq(a.join, next[o], maps[o])
    requires IsInflow(a, maps, Heard(a, maps, c), c, m)
    requires if c == Start(a) then Heard(a, next, c) == {} else Heard(a, maps, c) != {}
    ensures IsInflow(a, next, Heard(a, next, c), c, n) && Leq(a.join, Transfer(a, c, n), Transfer(a, c, m))
  {
    n := InflowExists(a, height, next, Heard(a, next, c), c);
    InflowMonotone(a, height, next, Heard(a, next, c), maps, Heard(a, maps, c), c, n, m);
    TransferMonotone(a, c, n, m);
  }

  lemma TurnKeepsDescending<T(!new), Op(!new)>(a: Analysis<T, Op>, height: T -> nat, maps: Maps<T>, working: set<Block>,
                                               b: Block, m: RegMap<T>, next: Maps<T>)
    requires WellFormed(a, height) && Descending(a, maps) && Turn(a, maps, b, m, next)
    requires Anchored(a, maps, working) && b in working && Heard(a, next, Start(a)) == {}
    ensures Descending(a, next)
  {
    TurnLowers(a, height, maps, b, m, next);
    forall c | c in next
      ensures PromisesEnough(a, next, Heard(a, next, c), c)
    {
      if c == b {
        var n := HeardLowers(a, height, maps, next, b, m);
      } else {
        assert PromisesEnough(a, maps, Heard(a, maps, c), c);
        var mc :| IsInflow(a, maps, Heard(a, maps, c), c, mc) && Leq(a.join, Transfer(a, c, mc), maps[c]);
        var n := HeardLowers(a, height, maps, next, c, mc);
        LeqTrans(a.join, height, Transfer(a, c, n), Transfer(a, c, mc), maps[c]);
      }
    }
  }

  lemma TurnKeepsDominance<T(!new), Op(!new)>(a: Analysis<T, Op>, height: T -> nat, reach: set<Block>, maps: Maps<T>,
                                              b: Block, m: RegMap<T>, next: Maps<T>, y: Maps<T>)
    requires WellFormed(a, height) && Turn(a, maps, b, m, next) && IsConsistent(a, reach, y) && b in reach
    requires Dominates(a, reach, maps, y) && (b != Start(a) ==> Heard(a, maps, b) != {}) && IsReach(a, reach)
    ensures Dominates(a, reach, next, y)
  {
    StartHearsNobody(a, reach, reach);
    var all := Sources(a, b) * reach;
    assert PromisesNoMore(a, y, all, b);
    var my :| IsInflow(a, y, all, b, my) && Leq(a.join, y[b], Transfer(a, b, my));
    InflowMonotone(a, height, y, all, maps, Heard(a, maps, b), b, my, m);
    TransferMonotone(a, b, my, m);
    LeqTrans(a.join, height, y[b], Transfer(a, b, my), Transfer(a, b, m));
  }

  ghost predicate DominatesAll<T(!new), Op(!new)>(a: Analysis<T, Op>, reach: set<Block>, maps: Maps<T>)
    requires InjectiveRenaming(a)
  {
    forall y: Maps<T> :: IsConsistent(a, reach, y) ==> Dominates(a, reach, maps, y)
  }

  lemma TurnKeepsAllDominance<T(!new), Op(!new)>(a: Analysis<T, Op>, height: T -> nat, reach: set<Block>, maps: Maps<T>,
                                                 b: Block, m: RegMap<T>, next: Maps<T>)
    requires WellFormed(a, height) && Turn(a, maps, b, m, next) && b in reach
    requires DominatesAll(a, reach, maps) && (b != Start(a) ==> Heard(a, maps, b) != {})
    requires IsReach(a, reach)
    ensures DominatesAll(a, reach, next)
  {
    forall y: Maps<T> | IsConsistent(a, reach, y)
      ensures Dominates(a, reach, next, y)
    {
      TurnKeepsDominance(a, height, reach, maps, b, m, next, y);
    }
  }

  lemma TurnKeepsAnchored<T(!new), Op(!new)>(a: Analysis<T, Op>, height: T -> nat, maps: Maps<T>, working: set<Block>,
                                             b: Block, m: RegMap<T>, next: Maps<T>, more: set<Block>)
    requires WellFormed(a, height) && Turn(a, maps, b, m, next) && Anchored(a, maps, working) && b in working
    requires more <= Targets(a, b)
    ensures Anchored(a, next, working - {b} + more)
  {
    forall c | c in next.Keys + (working - {b} + more) && c != Start(a)
      ensures Heard(a, next, c) != {}
    {
      if c in maps.Keys + working {
        assert Heard(a, maps, c) <= Heard(a, next, c);
      } else {
        assert b in Heard(a, next, c);
      }
    }
  }

  /** Every turn keeps the invariant. */
  lemma TurnStaysWithin<T(!new), Op(!new)>(a: Analysis<T, Op>, reach: set<Block>, maps: Maps<T>, working: set<Block>,
                                           b: Block, m: RegMap<T>, next: Maps<T>, more: set<Block>)
    requires InjectiveRenaming(a) && a.cfg.blocks != [] && IsReach(a, reach)
    requires maps.Keys + working <= reach && Start(a) in maps.Keys + working
    requires b in working && Turn(a, maps, b, m, next) && more <= Targets(a, b)
    ensures next.Keys + (working - {b} + more) <= reach && Start(a) in next.Keys + (working - {b} + more)
  {
    assert next.Keys == maps.Keys + {b};
  }

  lemma TurnKeepsInvariant<T(!new), Op(!new)>(a: Analysis<T, Op>, height: T -> nat, reach: set<Block>, maps: Maps<T>,
                                              working: set<Block>, b: Block, m: RegMap<T>, next: Maps<T>,
                                              more: set<Block>)
    requires WellFormed(a, height) && IsReach(a, reach) && Invariant(a, reach, maps, working)
    requires b in working && Turn(a, maps, b, m, next) && more <= Targets(a, b)
    ensures Invariant(a, reach, next, working - {b} + more)
  {
    TurnStaysWithin(a, reach, maps, working, b, m, next, more);
    TurnKeepsAnchored(a, height, maps, working, b, m, next, more);
    StartHearsNobody(a, reach, next.Keys);
    TurnKeepsDescending(a, height, maps, working, b, m, next);
    TurnKeepsAllDominance(a, height, reach, maps, b, m, next);
  }

  lemma SolvedAgain<T(!new), Op(!new)>(a: Analysis<T, Op>, maps: Maps<T>, next: Maps<T>, S: set<Block>, c: Block,
                                       m: RegMap<T>)
    requires InjectiveRenaming(a) && S <= maps.Keys && S <= next.Keys && c in next
    requires forall o :: o in S ==> maps[o] == next[o]
    requires IsInflow(a, maps, S, c, m) && next[c] == Transfer(a, c, m)
    ensures Solved(a, next, S, c)
  {
    forall x: RegMap<T>
      ensures BelowAll(a, maps, S, c, x) <==> BelowAll(a, next, S, c, x)
    {
    }
  }

  /** A turn whose change reached everyone listening leaves only queued blocks unsolved. */
  lemma TurnKeepsSettled<T(!new), Op(!new)>(a: Analysis<T, Op>, height: T -> nat, maps: Maps<T>, working: set<Block>,
                                            b: Block, m: RegMap<T>, next: Maps<T>, more: set<Block>)
    requires WellFormed(a, height) && Turn(a, maps, b, m, next) && Settled(a, maps, working) && b in working
    requires more == Targets(a, b) || (b in maps && maps[b] == next[b] && more == {})
    ensures Settled(a, next, working - {b} + more)
  {
    var after := working - {b} + more;
    forall c | c in next.Keys - after
      ensures Solved(a, next, Heard(a, next, c), c)
    {
      if b in Sources(a, c) {
        assert c in Targets(a, b);
        assert next == maps;
      } else {
        assert Heard(a, next, c) == Heard(a, maps, c);
      }
      if c == b {
        SolvedAgain(a, maps, next, Heard(a, maps, b), b, m);
      } else {
        assert Solved(a, maps, Heard(a, maps, c), c);
        var mc :| IsInflow(a, maps, Heard(a, maps, c), c, mc) && maps[c] == Transfer(a, c, mc);
        SolvedAgain(a, maps, next, Heard(a, maps, c), c, mc);
      }
    }
    forall o, c | o in next && c in Targets(a, o)
      ensures c in next.Keys + after
    {
      if o in maps { assert c in maps.Keys + working; }
    }
  }

  // ---- The end ----

  lemma {:induction false} ClosedCoversPath<T(!new), Op(!new)>(a: Analysis<T, Op>, done: set<Block>, path: seq<Block>)
    requires IsPath(a, path) && path[0] in done && forall b, c :: b in done && c in Targets(a, b) ==> c in done
    ensures path[|path| - 1] in done
    decreases |path|
  {
    if |path| > 1 {
      ClosedCoversPath(a, done, path[1..]);
    }
  }

  /** When the queue is empty and nothing went unreported, the maps are the greatest solution. */
  lemma SettledIsGreatest<T(!new), Op(!new)>(a: Analysis<T, Op>, height: T -> nat, reach: set<Block>, maps: Maps<T>)
    requires WellFormed(a, height) && IsReach(a, reach) && Invariant(a, reach, maps, {}) && Settled(a, maps, {})
    ensures IsGreatestSolution(a, reach, maps)
  {
    forall b | b in reach
      ensures b in maps
    {
      var path :| IsPath(a, path) && path[0] == Start(a) && path[|path| - 1] == b;
      ClosedCoversPath(a, maps.Keys, path);
    }
    assert maps.Keys == reach;
    forall b | b in reach
      ensures Solved(a, maps, Sources(a, b) * reach, b)
    {
      assert b in maps.Keys - {};
      assert Solved(a, maps, Heard(a, maps, b), b);
    }
    forall y: Maps<T>, b | IsConsistent(a, reach, y) && b in reach
      ensures Leq(a.join, y[b], maps[b])
    {
      assert Dominates(a, reach, maps, y);
    }
  }

  // ---- Termination ----

  ghost function TotalRank<T(!new)>(height: T -> nat, maps: Maps<T>): nat {
    Rank((m: RegMap<T>) => Rank(height, m), maps)
  }

  lemma ReplaceDrops<T(!new)>(height: T -> nat, m: RegMap<T>, r: Reg, t: T)
    requires r in m && height(t) < height(m[r])
    ensures Rank(height, m[r := t]) < Rank(height, m)
  {
    RankRemove(height, m, r);
    RankRemove(height, m[r := t], r);
    assert m[r := t] - {r} == m - {r};
  }

  /** A reported change of a processed block lowers the total rank. */
  lemma ChangeDrops<T(!new), Op(!new)>(a: Analysis<T, Op>, height: T -> nat, maps: Maps<T>, b: Block, m: RegMap<T>,
                                       next: Maps<T>)
    requires WellFormed(a, height) && Descending(a, maps) && Turn(a, maps, b, m, next) && b in maps
    requires next[b] != maps[b]
    ensures TotalRank(height, next) < TotalRank(height, maps)
  {
    TurnLowers(a, height, maps, b, m, next);
    RankDrops(a.join, height, next[b], maps[b]);
    ReplaceDrops((m: RegMap<T>) => Rank(height, m), maps, b, next[b]);
  }
}
