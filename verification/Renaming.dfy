/** The control flow graph after pipelining: registers of two blocks are matched through the FIFO that links them. */
module Renaming {
  import opened FifoEntries

  datatype Lookup = NotLinked | Unmapped | Register(reg: Reg)

  /** Register r of p and register q of s lie at the same offset of the FIFO from p to s. */
  ghost predicate Renames(ops: seq<Located>, p: Block, s: Block, r: Reg, q: Reg) {
    exists fifo, offset :: SamePlace(ops, p, s, r, q, fifo, offset)
  }

  ghost predicate SamePlace(ops: seq<Located>, p: Block, s: Block, r: Reg, q: Reg, fifo: nat, offset: nat) {
    LinksBy(ops, p, s, fifo) && WritesAt(ops, fifo, r, offset) && ReadsAt(ops, fifo, q, offset)
  }

  lemma SamePlaceListed(ops: seq<Located>, p: Block, s: Block, r: Reg, q: Reg, fifo: nat, offset: nat)
    ensures SamePlace(ops, p, s, r, q, fifo, offset) <==>
            && Link(p, s, fifo) in Links(ops) && Entry(fifo, r, offset) in Writes(ops)
            && Entry(fifo, q, offset) in Reads(ops)
  {
    LinksAre(ops, p, s, fifo);
    WritesAre(ops, Entry(fifo, r, offset));
    ReadsAre(ops, Entry(fifo, q, offset));
  }

  /** Renaming relates each register to at most one, in both directions. */
  lemma RenamingIsPartialInverse(ops: seq<Located>, p: Block, s: Block, r: Reg, q: Reg, r': Reg, q': Reg)
    requires Acceptable(ops) && Renames(ops, p, s, r, q) && Renames(ops, p, s, r', q')
    ensures r == r' <==> q == q'
  {
    AcceptableAsLists(ops);
    var f, o :| SamePlace(ops, p, s, r, q, f, o);
    var f', o' :| SamePlace(ops, p, s, r', q', f', o');
    SamePlaceListed(ops, p, s, r, q, f, o);
    SamePlaceListed(ops, p, s, r', q', f', o');
    assert f == f' by { SameLink(Links(ops), Link(p, s, f), Link(p, s, f')); }
    SameEntry(Writes(ops), Entry(f, r, o), Entry(f, r', o'));
    SameEntry(Reads(ops), Entry(f, q, o), Entry(f, q', o'));
  }

  lemma SameLink(links: seq<Link>, a: Link, b: Link)
    requires LinkedOnce(links) && a in links && b in links && a.predecessor == b.predecessor
    requires a.successor == b.successor
    ensures a == b
  {
    var i :| 0 <= i < |links| && links[i] == a;
    var j :| 0 <= j < |links| && links[j] == b;
  }

  lemma SameEntry(entries: seq<Entry>, a: Entry, b: Entry)
    requires Unambiguous(entries) && a in entries && b in entries && a.fifo == b.fifo
    ensures a.reg == b.reg <==> a.offset == b.offset
  {
    var i :| 0 <= i < |entries| && entries[i] == a;
    var j :| 0 <= j < |entries| && entries[j] == b;
  }

  // ---- The tables ----

  type Offsets = map<(nat, Reg), nat>    // FIFO and register to offset
  type Registers = map<(nat, nat), Reg>  // FIFO and offset to register

  ghost predicate Tabulates(entries: seq<Entry>, offsets: Offsets, registers: Registers) {
    && (forall e :: e in entries ==> (e.fifo, e.reg) in offsets && offsets[(e.fifo, e.reg)] == e.offset)
    && (forall e :: e in entries ==> (e.fifo, e.offset) in registers && registers[(e.fifo, e.offset)] == e.reg)
    && (forall k :: k in offsets ==> Entry(k.0, k.1, offsets[k]) in entries)
    && (forall k :: k in registers ==> Entry(k.0, registers[k], k.1) in entries)
  }

  lemma TabulateOne(entries: seq<Entry>, offsets: Offsets, registers: Registers, e: Entry)
    requires Unambiguous(entries) && Tabulates(entries, offsets, registers)
    ensures Unambiguous(entries + [e]) <==> (e.fifo, e.reg) !in offsets && (e.fifo, e.offset) !in registers
    ensures Unambiguous(entries + [e]) ==>
              Tabulates(entries + [e], offsets[(e.fifo, e.reg) := e.offset], registers[(e.fifo, e.offset) := e.reg])
  {
    OneMoreIsAmbiguous(entries, e);
    if (e.fifo, e.reg) in offsets {
      assert Clash(Entry(e.fifo, e.reg, offsets[(e.fifo, e.reg)]), e);
    } else if (e.fifo, e.offset) in registers {
      assert Clash(Entry(e.fifo, registers[(e.fifo, e.offset)], e.offset), e);
    }
  }

  ghost predicate TabulatesLinks(links: seq<Link>, fifos: map<(Block, Block), nat>) {
    && (forall l ::
        l in links ==> (l.predecessor, l.successor) in fifos && fifos[(l.predecessor, l.successor)] == l.fifo)
    && (forall k :: k in fifos ==> Link(k.0, k.1, fifos[k]) in links)
  }

  lemma TabulateLink(links: seq<Link>, fifos: map<(Block, Block), nat>, l: Link)
    requires LinkedOnce(links) && TabulatesLinks(links, fifos)
    ensures LinkedOnce(links + [l]) <==> (l.predecessor, l.successor) !in fifos
    ensures LinkedOnce(links + [l]) ==> TabulatesLinks(links + [l], fifos[(l.predecessor, l.successor) := l.fifo])
  {
    OneMoreIsLinkedTwice(links, l);
    if (l.predecessor, l.successor) in fifos {
      assert SamePair(Link(l.predecessor, l.successor, fifos[(l.predecessor, l.successor)]), l);
    }
  }

  lemma StaysUnacceptable(ops: seq<Located>, more: seq<Located>)
    requires !ListsAreAcceptable(ops)
    ensures !ListsAreAcceptable(ops + more)
    decreases |more|
  {
    if more == [] {
      assert ops + more == ops;
    } else {
      var init := more[..|more| - 1];
      StaysUnacceptable(ops, init);
      assert ops + more == (ops + init) + [more[|more| - 1]];
      OneMoreUnacceptable(ops + init, more[|more| - 1]);
    }
  }

  lemma OneMoreUnacceptable(ops: seq<Located>, last: Located)
    requires !ListsAreAcceptable(ops)
    ensures !ListsAreAcceptable(ops + [last])
  {
    var all := ops + [last];
    assert all[..|all| - 1] == ops;
    LongerIsAmbiguous(Reads(ops), ReadsOf(last.op));
    LongerIsAmbiguous(Writes(ops), WritesOf(last.op));
    LongerIsLinkedTwice(Links(ops), LinksOf(last.block, last.op));
  }

  lemma OneMoreSeen(before: seq<Located>, all: seq<Located>, j: nat)
    requires j < |all|
    ensures before + all[..j] + [all[j]] == before + all[..j + 1]
  {
  }

  lemma BlockSeen(before: seq<Located>, all: seq<Located>, j: nat)
    requires j <= |all|
    ensures j == |all| ==> before + all[..j] == before + all
    ensures !ListsAreAcceptable(before + all[..j]) ==> !ListsAreAcceptable(before + all)
  {
    assert before + all[..j] + all[j..] == before + all;
    if !ListsAreAcceptable(before + all[..j]) { StaysUnacceptable(before + all[..j], all[j..]); }
  }

  lemma OneMoreBlock(blocks: seq<BasicBlock>, i: nat)
    requires i < |blocks|
    ensures AllOperations(blocks[..i + 1]) == AllOperations(blocks[..i]) + InBlock(blocks[i].id, blocks[i].operations)
  {
    assert blocks[..i + 1][..i] == blocks[..i];
  }

  lemma BlocksVisited(blocks: seq<BasicBlock>, i: nat)
    requires i <= |blocks|
    ensures !ListsAreAcceptable(AllOperations(blocks[..i])) ==> !ListsAreAcceptable(AllOperations(blocks))
    ensures i == |blocks| ==> AllOperations(blocks[..i]) == AllOperations(blocks)
  {
    AllIsPrefixAndRest(blocks, i);
    if !ListsAreAcceptable(AllOperations(blocks[..i])) {
      StaysUnacceptable(AllOperations(blocks[..i]), RestOf(blocks, i));
    }
    if i == |blocks| { assert blocks[..i] == blocks; }
  }

  /** The five tables, and whether a key was inserted twice. */
  datatype Tables = Tables(
    failed: bool, links: map<(Block, Block), nat>,
    readOffsets: Offsets, readRegisters: Registers, writeOffsets: Offsets, writeRegisters: Registers)

  /** Failed exactly if something is ambiguous; otherwise the tables hold exactly what was read, written and linked. */
  ghost predicate Holds(t: Tables, read: seq<Entry>, written: seq<Entry>, links: seq<Link>) {
    if t.failed then !Unambiguous(read) || !Unambiguous(written) || !LinkedOnce(links)
    else
      && Unambiguous(read) && Tabulates(read, t.readOffsets, t.readRegisters)
      && Unambiguous(written) && Tabulates(written, t.writeOffsets, t.writeRegisters)
      && LinkedOnce(links) && TabulatesLinks(links, t.links)
  }

  lemma ReadRecorded(t: Tables, read: seq<Entry>, written: seq<Entry>, links: seq<Link>, e: Entry)
    requires Holds(t, read, written, links) && !t.failed
    ensures Holds(t.(failed := (e.fifo, e.reg) in t.readOffsets || (e.fifo, e.offset) in t.readRegisters,
                     readOffsets := t.readOffsets[(e.fifo, e.reg) := e.offset],
                     readRegisters := t.readRegisters[(e.fifo, e.offset) := e.reg]), read + [e], written, links)
  {
    TabulateOne(read, t.readOffsets, t.readRegisters, e);
  }

  lemma WriteRecorded(t: Tables, read: seq<Entry>, written: seq<Entry>, links: seq<Link>, e: Entry)
    requires Holds(t, read, written, links) && !t.failed
    ensures Holds(t.(failed := (e.fifo, e.reg) in t.writeOffsets || (e.fifo, e.offset) in t.writeRegisters,
                     writeOffsets := t.writeOffsets[(e.fifo, e.reg) := e.offset],
                     writeRegisters := t.writeRegisters[(e.fifo, e.offset) := e.reg]), read, written + [e], links)
  {
    TabulateOne(written, t.writeOffsets, t.writeRegisters, e);
  }

  lemma LinkRecorded(t: Tables, read: seq<Entry>, written: seq<Entry>, links: seq<Link>, l: Link)
    requires Holds(t, read, written, links) && !t.failed
    ensures Holds(t.(failed := (l.predecessor, l.successor) in t.links,
                     links := t.links[(l.predecessor, l.successor) := l.fifo]), read, written, links + [l])
  {
    TabulateLink(links, t.links, l);
  }

  /** A failure part of the way through the sources is a failure for all of them. */
  lemma SelectedDone(t: Tables, read: seq<Entry>, written: seq<Entry>, links: seq<Link>, reg: Reg,
                     sources: seq<(nat, nat)>, k: nat)
    requires k <= |sources| && Holds(t, read + SelectedReads(reg, sources[..k]), written, links)
    requires t.failed || k == |sources|
    ensures Holds(t, read + SelectedReads(reg, sources), written, links)
  {
    if k == |sources| {
      assert sources[..k] == sources;
    } else if !Unambiguous(read + SelectedReads(reg, sources[..k])) {
      SelectedFails(read, reg, sources, k);
    }
  }

  class ControlFlowGraphPostPipeline {
    var basicBlockPairToFifo: map<(Block, Block), nat>
    var fifoAndRegReadToOffset: Offsets
    var fifoAndRegWriteToOffset: Offsets
    var fifoAndOffsetToReadReg: Registers
    var fifoAndOffsetToWriteReg: Registers
    var failed: bool   // some key was inserted twice, which the program reports as an error
    ghost var seen: seq<Located>

    ghost function State(): Tables
      reads this`failed, this`basicBlockPairToFifo, this`fifoAndRegReadToOffset, this`fifoAndOffsetToReadReg
      reads this`fifoAndRegWriteToOffset, this`fifoAndOffsetToWriteReg
    {
      Tables(failed, basicBlockPairToFifo, fifoAndRegReadToOffset, fifoAndOffsetToReadReg, fifoAndRegWriteToOffset,
             fifoAndOffsetToWriteReg)
    }

    /** Until something fails the tables hold exactly what the operations seen so far say. */
    ghost predicate Valid()
      reads this
    {
      Holds(State(), Reads(seen), Writes(seen), Links(seen))
    }

    /** Building fails exactly when the operations are ambiguous; otherwise all of them are in the tables. */
    constructor (blocks: seq<BasicBlock>)
      ensures Valid() && (failed <==> !Acceptable(AllOperations(blocks)))
      ensures !failed ==> seen == AllOperations(blocks)
    {
      basicBlockPairToFifo, fifoAndRegReadToOffset, fifoAndRegWriteToOffset := map[], map[], map[];
      fifoAndOffsetToReadReg, fifoAndOffsetToWriteReg := map[], map[];
      failed, seen := false, [];
      new;
      var i := 0;
      while i < |blocks| && !failed
        invariant 0 <= i <= |blocks| && Valid()
        invariant !failed ==> seen == AllOperations(blocks[..i])
        invariant failed ==> !ListsAreAcceptable(AllOperations(blocks[..i]))
      {
        OneMoreBlock(blocks, i);
        VisitBlock(blocks[i]);
        i := i + 1;
      }
      BlocksVisited(blocks, i);
      AcceptableAsLists(AllOperations(blocks));
    }

    method VisitBlock(b: BasicBlock)
      requires Valid() && !failed
      modifies this
      ensures Valid()
      ensures !failed ==> seen == old(seen) + InBlock(b.id, b.operations)
      ensures failed ==> !ListsAreAcceptable(old(seen) + InBlock(b.id, b.operations))
    {
      ghost var all := InBlock(b.id, b.operations);
      ghost var before := seen;
      var j := 0;
      while j < |b.operations| && !failed
        invariant 0 <= j <= |b.operations| && Valid() && seen == before + all[..j]
      {
        VisitOperation(b.id, b.operations[j]);
        OneMoreSeen(before, all, j);
        j := j + 1;
      }
      BlockSeen(before, all, j);
    }

    method VisitOperation(b: Block, op: Operation)
      requires Valid() && !failed
      modifies this
      ensures Valid() && seen == old(seen) + [Located(b, op)]
    {
      ghost var after := seen + [Located(b, op)];
      OneMoreOperation(seen, Located(b, op));
      Record(Reads(seen), Writes(seen), Links(seen), Reads(after), Writes(after), Links(after), b, op);
      seen := after;
    }

    method Record(ghost read: seq<Entry>, ghost written: seq<Entry>, ghost links: seq<Link>, ghost read': seq<Entry>,
                  ghost written': seq<Entry>, ghost links': seq<Link>, b: Block, op: Operation)
      requires Holds(State(), read, written, links) && !failed
      requires read' == read + ReadsOf(op) && written' == written + WritesOf(op) && links' == links + LinksOf(b, op)
      modifies this`failed, this`basicBlockPairToFifo, this`fifoAndRegReadToOffset, this`fifoAndOffsetToReadReg
      modifies this`fifoAndRegWriteToOffset, this`fifoAndOffsetToWriteReg
      ensures Holds(State(), read', written', links')
    {
      assert read + [] == read && written + [] == written && links + [] == links;
      match op {
        case Enqueue(successor, sameFunction, fifo) =>
          if sameFunction { RecordLink(read, written, links, b, successor, fifo); }
        case MovToFifo(reg, fifo, offset) => RecordFifoWrite(read, written, links, reg, fifo, offset);
        case MovFromFifo(reg, fifo, offset) => RecordFifoRead(read, written, links, reg, fifo, offset);
        case ReadSelectedFifo(reg, sources) => ReadSelected(read, written, links, reg, sources);
        case Other =>
      }
    }

    method RecordLink(ghost read: seq<Entry>, ghost written: seq<Entry>, ghost links: seq<Link>, b: Block,
                      successor: Block, fifo: nat)
      requires Holds(State(), read, written, links) && !failed
      modifies this`failed, this`basicBlockPairToFifo
      ensures Holds(State(), read, written, links + [Link(b, successor, fifo)])
    {
      LinkRecorded(State(), read, written, links, Link(b, successor, fifo));
      if (b, successor) in basicBlockPairToFifo { failed := true; }
      basicBlockPairToFifo := basicBlockPairToFifo[(b, successor) := fifo];
    }

    method RecordFifoWrite(ghost read: seq<Entry>, ghost written: seq<Entry>, ghost links: seq<Link>, reg: Reg,
                           fifo: nat, offset: nat)
      requires Holds(State(), read, written, links) && !failed
      modifies this`failed, this`fifoAndRegWriteToOffset, this`fifoAndOffsetToWriteReg
      ensures Holds(State(), read, written + [Entry(fifo, reg, offset)], links)
    {
      WriteRecorded(State(), read, written, links, Entry(fifo, reg, offset));
      if (fifo, reg) in fifoAndRegWriteToOffset || (fifo, offset) in fifoAndOffsetToWriteReg { failed := true; }
      fifoAndRegWriteToOffset := fifoAndRegWriteToOffset[(fifo, reg) := offset];
      fifoAndOffsetToWriteReg := fifoAndOffsetToWriteReg[(fifo, offset) := reg];
    }

    method ReadSelected(ghost read: seq<Entry>, ghost written: seq<Entry>, ghost links: seq<Link>, reg: Reg,
                        sources: seq<(nat, nat)>)
      requires Holds(State(), read, written, links) && !failed
      modifies this`failed, this`fifoAndRegReadToOffset, this`fifoAndOffsetToReadReg
      ensures Holds(State(), read + SelectedReads(reg, sources), written, links)
    {
      var k := 0;
      ghost var done := read;
      while k < |sources| && !failed
        invariant 0 <= k <= |sources| && done == read + SelectedReads(reg, sources[..k])
        invariant Holds(State(), done, written, links)
      {
        RecordFifoRead(done, written, links, reg, sources[k].0, sources[k].1);
        SelectedOneMore(read, reg, sources, k);
        done := done + [Entry(sources[k].0, reg, sources[k].1)];
        k := k + 1;
      }
      SelectedDone(State(), read, written, links, reg, sources, k);
    }

    method RecordFifoRead(ghost read: seq<Entry>, ghost written: seq<Entry>, ghost links: seq<Link>, reg: Reg,
                          fifo: nat, offset: nat)
      requires Holds(State(), read, written, links) && !failed
      modifies this`failed, this`fifoAndRegReadToOffset, this`fifoAndOffsetToReadReg
      ensures Holds(State(), read + [Entry(fifo, reg, offset)], written, links)
    {
      ReadRecorded(State(), read, written, links, Entry(fifo, reg, offset));
      if (fifo, reg) in fifoAndRegReadToOffset || (fifo, offset) in fifoAndOffsetToReadReg { failed := true; }
      fifoAndRegReadToOffset := fifoAndRegReadToOffset[(fifo, reg) := offset];
      fifoAndOffsetToReadReg := fifoAndOffsetToReadReg[(fifo, offset) := reg];
    }

    function RenameLocalImpl(p: Block, s: Block, reg: Reg, offsets: Offsets, registers: Registers): Lookup
      reads this
    {
      if (p, s) !in basicBlockPairToFifo then NotLinked
      else
        var fifo := basicBlockPairToFifo[(p, s)];
        if (fifo, reg) !in offsets then Unmapped
        else if (fifo, offsets[(fifo, reg)]) !in registers then Unmapped
        else Register(registers[(fifo, offsets[(fifo, reg)])])
    }

    /** Finds the register of the predecessor at the same place of the FIFO, if there is one. */
    method RenameLocalToPredecessor(p: Block, s: Block, q: Reg) returns (result: Lookup)
      requires Valid() && !failed
      ensures result == NotLinked <==> forall fifo :: !LinksBy(seen, p, s, fifo)
      ensures forall r :: result == Register(r) <==> Renames(seen, p, s, r, q)
    {
      result := RenameLocalImpl(p, s, q, fifoAndRegReadToOffset, fifoAndOffsetToWriteReg);
      LinkFound(p, s);
      forall r
        ensures result == Register(r) <==> Renames(seen, p, s, r, q)
      {
        if result == Register(r) {
          var fifo := basicBlockPairToFifo[(p, s)];
          SamePlaceListed(seen, p, s, r, q, fifo, fifoAndRegReadToOffset[(fifo, q)]);
        }
        if Renames(seen, p, s, r, q) {
          var fifo, offset :| SamePlace(seen, p, s, r, q, fifo, offset);
          SamePlaceListed(seen, p, s, r, q, fifo, offset);
        }
      }
    }

    /** Finds the register of the successor at the same place of the FIFO, if there is one. */
    method RenameLocalToSuccessor(p: Block, s: Block, r: Reg) returns (result: Lookup)
      requires Valid() && !failed
      ensures result == NotLinked <==> forall fifo :: !LinksBy(seen, p, s, fifo)
      ensures forall q :: result == Register(q) <==> Renames(seen, p, s, r, q)
    {
      result := RenameLocalImpl(p, s, r, fifoAndRegWriteToOffset, fifoAndOffsetToReadReg);
      LinkFound(p, s);
      forall q
        ensures result == Register(q) <==> Renames(seen, p, s, r, q)
      {
        if result == Register(q) {
          var fifo := basicBlockPairToFifo[(p, s)];
          SamePlaceListed(seen, p, s, r, q, fifo, fifoAndRegWriteToOffset[(fifo, r)]);
        }
        if Renames(seen, p, s, r, q) {
          var fifo, offset :| SamePlace(seen, p, s, r, q, fifo, offset);
          SamePlaceListed(seen, p, s, r, q, fifo, offset);
        }
      }
    }

    /** The table has a FIFO exactly for the blocks that are linked. */
    lemma LinkFound(p: Block, s: Block)
      requires Valid() && !failed
      ensures (p, s) !in basicBlockPairToFifo <==> forall fifo :: !LinksBy(seen, p, s, fifo)
      ensures forall fifo :: Link(p, s, fifo) in Links(seen) ==>
        (p, s) in basicBlockPairToFifo && basicBlockPairToFifo[(p, s)] == fifo
    {
      forall fifo
        ensures LinksBy(seen, p, s, fifo) <==> Link(p, s, fifo) in Links(seen)
      {
        LinksAre(seen, p, s, fifo);
      }
      if (p, s) in basicBlockPairToFifo { assert LinksBy(seen, p, s, basicBlockPairToFifo[(p, s)]); }
    }
  }

  lemma {:induction false} SelectedPrefix(reg: Reg, sources: seq<(nat, nat)>, k: nat)
    requires k <= |sources|
    ensures |SelectedReads(reg, sources)| == |sources|
    ensures SelectedReads(reg, sources[..k]) == SelectedReads(reg, sources)[..k]
    decreases |sources|
  {
    if k == |sources| {
      assert sources[..k] == sources;
      if sources != [] { SelectedPrefix(reg, sources[..|sources| - 1], |sources| - 1); }
    } else {
      var init := sources[..|sources| - 1];
      SelectedPrefix(reg, init, k);
      assert sources[..k] == init[..k];
    }
  }

  lemma SelectedOneMore(entries: seq<Entry>, reg: Reg, sources: seq<(nat, nat)>, k: nat)
    requires k < |sources|
    ensures entries + SelectedReads(reg, sources[..k]) + [Entry(sources[k].0, reg, sources[k].1)] ==
            entries + SelectedReads(reg, sources[..k + 1])
  {
    assert sources[..k + 1][..k] == sources[..k];
  }

  lemma SelectedFails(entries: seq<Entry>, reg: Reg, sources: seq<(nat, nat)>, k: nat)
    requires k <= |sources| && !Unambiguous(entries + SelectedReads(reg, sources[..k]))
    ensures !Unambiguous(entries + SelectedReads(reg, sources))
  {
    SelectedPrefix(reg, sources, k);
    var done := entries + SelectedReads(reg, sources[..k]);
    LongerIsAmbiguous(done, SelectedReads(reg, sources)[k..]);
    assert done + SelectedReads(reg, sources)[k..] == entries + SelectedReads(reg, sources);
  }

  function RestOf(blocks: seq<BasicBlock>, i: nat): seq<Located>
    requires i <= |blocks|
    decreases |blocks| - i
  {
    if i == |blocks| then [] else InBlock(blocks[i].id, blocks[i].operations) + RestOf(blocks, i + 1)
  }

  lemma {:induction false} AllIsPrefixAndRest(blocks: seq<BasicBlock>, i: nat)
    requires i <= |blocks|
    ensures AllOperations(blocks) == AllOperations(blocks[..i]) + RestOf(blocks, i)
    decreases |blocks| - i
  {
    if i == |blocks| {
      assert blocks[..i] == blocks;
    } else {
      AllIsPrefixAndRest(blocks, i + 1);
      assert blocks[..i + 1][..i] == blocks[..i];
    }
  }
}
