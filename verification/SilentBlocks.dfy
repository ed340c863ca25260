/** Blocks that yield nothing never make their targets look at them. */
module SilentBlocks {
  import opened RegisterMaps
  import opened FlowEquations
  import opened FlowIteration

  /** Whatever flows in, nothing comes out. Nothing flows into the start. */
  ghost predicate Silent<T(!new), Op(!new)>(a: Analysis<T, Op>, b: Block)
    requires a.cfg.blocks != []
  {
    forall m :: (b == Start(a) ==> m == map[]) ==> Transfer(a, b, m) == map[]
  }

  /** Every block before the last yields something for some inflow. */
  ghost predicate Telling<T(!new), Op(!new)>(a: Analysis<T, Op>, path: seq<Block>)
    requires a.cfg.blocks != []
  {
    forall k :: 0 <= k < |path| - 1 ==> !Silent(a, path[k])
  }

  ghost predicate TellingTo<T(!new), Op(!new)>(a: Analysis<T, Op>, b: Block, path: seq<Block>)
    requires a.cfg.blocks != []
  {
    IsPath(a, path) && Telling(a, path) && path[0] == Start(a) && path[|path| - 1] == b
  }

  /** The start reaches b without passing through a silent block. */
  ghost predicate Told<T(!new), Op(!new)>(a: Analysis<T, Op>, b: Block)
    requires a.cfg.blocks != []
  {
    exists path :: TellingTo(a, b, path)
  }

  /** Only blocks that are told are looked at, and silent ones hold nothing. */
  ghost predicate OnlyTold<T(!new), Op(!new)>(a: Analysis<T, Op>, maps: Maps<T>, working: set<Block>)
    requires a.cfg.blocks != []
  {
    && (forall b :: b in maps.Keys + working ==> Told(a, b))
    && (forall b :: b in maps && Silent(a, b) ==> maps[b] == map[])
  }

  lemma StartIsTold<T(!new), Op(!new)>(a: Analysis<T, Op>)
    requires a.cfg.blocks != []
    ensures OnlyTold(a, map[], {} + {Start(a)})
  {
    assert TellingTo(a, Start(a), [Start(a)]);
  }

  lemma ToldGoesOn<T(!new), Op(!new)>(a: Analysis<T, Op>, b: Block, c: Block)
    requires a.cfg.blocks != [] && Told(a, b) && !Silent(a, b) && c in Targets(a, b)
    ensures Told(a, c)
  {
    var path :| TellingTo(a, b, path);
    var longer := path + [c];
    forall k | 0 <= k < |longer| - 1
      ensures longer[k + 1] in Targets(a, longer[k]) && !Silent(a, longer[k])
    {
      if k < |path| - 1 { assert path[k + 1] in Targets(a, path[k]); }
    }
    assert TellingTo(a, c, longer);
  }

  lemma StartHearsNoTold<T(!new), Op(!new)>(a: Analysis<T, Op>, maps: Maps<T>, working: set<Block>)
    requires a.cfg.blocks != [] && !StartIsReturnedTo(a) && OnlyTold(a, maps, working)
    ensures Heard(a, maps, Start(a)) == {}
  {
    forall o | o in maps
      ensures o !in Sources(a, Start(a))
    {
      assert o in maps.Keys + working && Told(a, o);
      var path :| TellingTo(a, o, path);
    }
  }

  lemma TurnKeepsOnlyTold<T(!new), Op(!new)>(a: Analysis<T, Op>, height: T -> nat, maps: Maps<T>, working: set<Block>,
                                             b: Block, m: RegMap<T>, next: Maps<T>, more: set<Block>)
    requires WellFormed(a, height) && OnlyTold(a, maps, working) && b in working && Turn(a, maps, b, m, next)
    requires more == if Reported(maps, b, next[b]) then Targets(a, b) else {}
    ensures OnlyTold(a, next, working - {b} + more)
  {
    assert Told(a, b);
    if b == Start(a) { StartHearsNoTold(a, maps, working); }
    if Silent(a, b) {
      assert next[b] == Transfer(a, b, m) == map[];
    } else {
      forall c | c in more
        ensures Told(a, c)
      {
        ToldGoesOn(a, b, c);
      }
    }
  }

  lemma LongPathFromTelling<T(!new), Op(!new)>(a: Analysis<T, Op>, b: Block, path: seq<Block>)
    requires a.cfg.blocks != [] && TellingTo(a, b, path) && |path| > 1
    ensures !Silent(a, Start(a))
  {
    assert !Silent(a, path[0]);
  }

  /** A silent start tells nobody. */
  lemma SilentStartIsAlone<T(!new), Op(!new)>(a: Analysis<T, Op>, maps: Maps<T>)
    requires a.cfg.blocks != [] && OnlyTold(a, maps, {}) && Start(a) in maps && Silent(a, Start(a))
    ensures maps == map[Start(a) := map[]]
  {
    forall b | b in maps
      ensures b == Start(a)
    {
      assert b in maps.Keys + {} && Told(a, b);
      var path :| TellingTo(a, b, path);
      if |path| > 1 { LongPathFromTelling(a, b, path); }
    }
  }
}
