/** The edges of the control flow graph, and why graph and renaming suit the data-flow engine. */
module ControlFlowGraphs {
  import opened Wrappers
  import opened FifoEntries
  import opened Renaming
  import M = RegisterMaps
  import F = FlowEquations

  /** Some operation of p enqueues to s within the function. */
  ghost predicate Linked(ops: seq<Located>, p: Block, s: Block) {
    exists fifo :: LinksBy(ops, p, s, fifo)
  }

  function Neighbours(edges: map<Block, set<Block>>, b: Block): set<Block> {
    if b in edges then edges[b] else {}
  }

  lemma OneMoreLinked(ops: seq<Located>, x: Located)
    ensures forall p, s :: Linked(ops + [x], p, s) <==>
      Linked(ops, p, s) || (x.block == p && x.op.Enqueue? && x.op.sameFunction && x.op.successor == s)
  {
    var all := ops + [x];
    assert forall l :: l in all <==> l in ops || l == x;
    forall p, s
      ensures Linked(all, p, s) <==>
              Linked(ops, p, s) || (x.block == p && x.op.Enqueue? && x.op.sameFunction && x.op.successor == s)
    {
      if fifo :| LinksBy(ops, p, s, fifo) { assert LinksBy(all, p, s, fifo); }
      if fifo :| LinksBy(all, p, s, fifo) {
        assert x != Located(p, Enqueue(s, true, fifo)) ==> LinksBy(ops, p, s, fifo);
      }
      if x.block == p && x.op.Enqueue? && x.op.sameFunction && x.op.successor == s {
        assert LinksBy(all, p, s, x.op.successorFifo);
      }
    }
  }

  class ControlFlowGraph {
    var successors: map<Block, set<Block>>
    var predecessors: map<Block, set<Block>>

    /** Both edge tables hold exactly the enqueues to blocks of the same function. */
    ghost predicate Reflects(ops: seq<Located>)
      reads this
    {
      forall p, s ::
        && (s in Neighbours(successors, p) <==> Linked(ops, p, s))
        && (p in Neighbours(predecessors, s) <==> Linked(ops, p, s))
    }

    constructor (blocks: seq<BasicBlock>)
      ensures Reflects(AllOperations(blocks))
    {
      successors, predecessors := map[], map[];
      new;
      var i := 0;
      while i < |blocks|
        invariant 0 <= i <= |blocks| && Reflects(AllOperations(blocks[..i]))
      {
        VisitBlock(AllOperations(blocks[..i]), blocks[i]);
        assert blocks[..i + 1][..i] == blocks[..i];
        i := i + 1;
      }
      assert blocks[..i] == blocks;
    }

    method VisitBlock(ghost before: seq<Located>, b: BasicBlock)
      requires Reflects(before)
      modifies this
      ensures Reflects(before + InBlock(b.id, b.operations))
    {
      ghost var all := InBlock(b.id, b.operations);
      var j := 0;
      assert before + all[..0] == before;
      while j < |b.operations|
        invariant 0 <= j <= |b.operations| && Reflects(before + all[..j])
      {
        var op := b.operations[j];
        OneMoreSeen(before, all, j);
        OneMoreLinked(before + all[..j], all[j]);
        if op.Enqueue? && op.sameFunction {
          AddEdge(before + all[..j], before + all[..j + 1], b.id, op.successor);
        }
        j := j + 1;
      }
      assert all[..j] == all;
    }

    method AddEdge(ghost before: seq<Located>, ghost after: seq<Located>, p: Block, s: Block)
      requires Reflects(before)
      requires forall q, t :: Linked(after, q, t) <==> Linked(before, q, t) || (q == p && t == s)
      modifies this
      ensures Reflects(after)
    {
      successors := successors[p := Neighbours(successors, p) + {s}];
      predecessors := predecessors[s := Neighbours(predecessors, s) + {p}];
    }
  }

  /** Edges and names of the analysis are those of the operations. */
  ghost predicate Models<T(!new), Op(!new)>(a: F.Analysis<T, Op>, ops: seq<Located>) {
    && (forall p, s :: s in a.cfg.successors(p) <==> Linked(ops, p, s))
    && (forall p, s :: p in a.cfg.predecessors(s) <==> Linked(ops, p, s))
    && (forall p, s, r: Reg, q: Reg :: a.cfg.renameToSuccessor(p, s, r) == Some(q) <==> Renames(ops, p, s, r, q))
    && (forall p, s, r: Reg, q: Reg :: a.cfg.renameToPredecessor(p, s, q) == Some(r) <==> Renames(ops, p, s, r, q))
  }

  /** The graph of an accepted function is consistent and never gives two registers one name. */
  lemma AcceptedGraphSuitsEngine<T(!new), Op(!new)>(a: F.Analysis<T, Op>, ops: seq<Located>)
    requires Acceptable(ops) && Models(a, ops)
    ensures F.ConsistentGraph(a) && F.InjectiveRenaming(a)
  {
    forall from, to, r: Reg, q: Reg | F.TranslateRegister(a, from, to, r).Some?
                                      && F.TranslateRegister(a, from, to, r) == F.TranslateRegister(a, from, to, q)
      ensures r == q
    {
      var x := F.TranslateRegister(a, from, to, r).value;
      if a.direction == F.Forward {
        RenamingIsPartialInverse(ops, from, to, r, x, q, x);
      } else {
        RenamingIsPartialInverse(ops, to, from, x, r, x, q);
      }
    }
  }

  /** Forward, what p holds in register r reaches exactly the register of s that lies at the same place of the FIFO. */
  lemma ForwardFollowsNames<T(!new), Op(!new)>(a: F.Analysis<T, Op>, ops: seq<Located>, p: Block, s: Block,
                                               m: M.RegMap<T>, t: M.RegMap<T>)
    requires Models(a, ops) && a.direction == F.Forward && F.IsTranslated(a, p, s, m, t)
    ensures forall q: Reg :: q in t <==> exists r :: r in m && Renames(ops, p, s, r, q)
    ensures forall q: Reg, r :: r in m && Renames(ops, p, s, r, q) ==> q in t && t[q] == a.translate(p, s, m[r])
  {
    forall q: Reg | exists r :: r in m && Renames(ops, p, s, r, q)
      ensures q in t
    {
      var r :| r in m && Renames(ops, p, s, r, q);
      assert a.cfg.renameToSuccessor(p, s, r) == Some(q);
    }
    forall q: Reg, r | r in m && Renames(ops, p, s, r, q)
      ensures q in t && t[q] == a.translate(p, s, m[r])
    {
      assert a.cfg.renameToSuccessor(p, s, r) == Some(q);
    }
  }

  /** Backward, what s holds in register q reaches exactly the register of p that lies at the same place of the FIFO. */
  lemma BackwardFollowsNames<T(!new), Op(!new)>(a: F.Analysis<T, Op>, ops: seq<Located>, p: Block, s: Block,
                                                m: M.RegMap<T>, t: M.RegMap<T>)
    requires Models(a, ops) && a.direction == F.Backward && F.IsTranslated(a, s, p, m, t)
    ensures forall r: Reg :: r in t <==> exists q :: q in m && Renames(ops, p, s, r, q)
    ensures forall r: Reg, q :: q in m && Renames(ops, p, s, r, q) ==> r in t && t[r] == a.translate(s, p, m[q])
  {
    forall r: Reg | exists q :: q in m && Renames(ops, p, s, r, q)
      ensures r in t
    {
      var q :| q in m && Renames(ops, p, s, r, q);
      assert a.cfg.renameToPredecessor(p, s, q) == Some(r);
    }
    forall r: Reg, q | q in m && Renames(ops, p, s, r, q)
      ensures r in t && t[r] == a.translate(s, p, m[q])
    {
      assert a.cfg.renameToPredecessor(p, s, q) == Some(r);
    }
  }
}
