/** What the operations of a function write into its FIFOs and read out of them, and which blocks they link. */
module FifoEntries {

  type Block = nat
  type Reg = nat

  /** A register written into, or read out of, a FIFO at a bit offset. */
  datatype Entry = Entry(fifo: nat, reg: Reg, offset: nat)

  datatype Link = Link(predecessor: Block, successor: Block, fifo: nat)

  datatype Operation =
    | Enqueue(successor: Block, sameFunction: bool, successorFifo: nat)
    | MovToFifo(reg: Reg, fifo: nat, offset: nat)
    | MovFromFifo(reg: Reg, fifo: nat, offset: nat)
    | ReadSelectedFifo(reg: Reg, sources: seq<(nat, nat)>)   // FIFO and offset
    | Other

  datatype BasicBlock = BasicBlock(id: Block, operations: seq<Operation>)

  // ---- What the operations say ----

  datatype Located = Located(block: Block, op: Operation)

  function InBlock(b: Block, ops: seq<Operation>): (r: seq<Located>)
    ensures |r| == |ops| && forall k :: 0 <= k < |ops| ==> r[k] == Located(b, ops[k])
  {
    seq(|ops|, k requires 0 <= k < |ops| => Located(b, ops[k]))
  }

  function AllOperations(blocks: seq<BasicBlock>): seq<Located> {
    if blocks == [] then []
    else AllOperations(blocks[..|blocks| - 1]) + InBlock(blocks[|blocks| - 1].id, blocks[|blocks| - 1].operations)
  }

  /** Block by block, the operations in their order. */
  ghost predicate IsListing(blocks: seq<BasicBlock>, ops: seq<Located>) {
    exists starts: seq<nat> :: IsListingFrom(blocks, ops, starts)
  }

  /** The operations of block i begin at starts[i]. */
  ghost predicate IsListingFrom(blocks: seq<BasicBlock>, ops: seq<Located>, starts: seq<nat>) {
    && |starts| == |blocks| + 1 && starts[0] == 0 && starts[|blocks|] == |ops|
    && forall i :: 0 <= i < |blocks| ==> IsPart(blocks[i], ops, starts[i], starts[i + 1])
  }

  ghost predicate IsPart(b: BasicBlock, ops: seq<Located>, start: nat, end: nat) {
    && start + |b.operations| == end <= |ops|
    && forall k :: 0 <= k < |b.operations| ==> ops[start + k] == Located(b.id, b.operations[k])
  }

  /** Block p enqueues to block s of the same function over the FIFO. */
  ghost predicate LinksBy(ops: seq<Located>, p: Block, s: Block, fifo: nat) {
    Located(p, Enqueue(s, true, fifo)) in ops
  }

  /** Some operation writes the register into the FIFO at the offset. */
  ghost predicate WritesAt(ops: seq<Located>, fifo: nat, reg: Reg, offset: nat) {
    exists l :: l in ops && l.op == MovToFifo(reg, fifo, offset)
  }

  /** Some operation reads the register out of the FIFO at the offset: out of it alone, or out of one of several. */
  ghost predicate ReadsAt(ops: seq<Located>, fifo: nat, reg: Reg, offset: nat) {
    exists l :: l in ops && (l.op == MovFromFifo(reg, fifo, offset) ||
                             (l.op.ReadSelectedFifo? && l.op.reg == reg && (fifo, offset) in l.op.sources))
  }

  // ---- Nothing occurs twice ----

  ghost predicate Clash(e: Entry, f: Entry) {
    e.fifo == f.fifo && (e.reg == f.reg || e.offset == f.offset)
  }

  /** Operation k reads e, as its source j if it selects among several. */
  ghost predicate ReadsThere(ops: seq<Located>, k: nat, j: nat, e: Entry) {
    k < |ops| &&
    match ops[k].op
    case MovFromFifo(reg, fifo, offset) => j == 0 && e == Entry(fifo, reg, offset)
    case ReadSelectedFifo(reg, sources) => j < |sources| && e == Entry(sources[j].0, reg, sources[j].1)
    case _ => false
  }

  /** Two different reads of one FIFO share the register or the offset. */
  ghost predicate ReadsClash(ops: seq<Located>) {
    exists k, j, e, k2, j2, f ::
      ReadsThere(ops, k, j, e) && ReadsThere(ops, k2, j2, f) && (k, j) != (k2, j2) && Clash(e, f)
  }

  ghost predicate WritesClash(ops: seq<Located>) {
    exists k, k2 ::
      && 0 <= k < k2 < |ops| && ops[k].op.MovToFifo? && ops[k2].op.MovToFifo?
      && ops[k].op.fifo == ops[k2].op.fifo && (ops[k].op.reg == ops[k2].op.reg || ops[k].op.offset == ops[k2].op.offset)
  }

  /** Two operations of one block enqueue to the same block of the function. */
  ghost predicate LinksClash(ops: seq<Located>) {
    exists k, k2 ::
      && 0 <= k < k2 < |ops| && ops[k].op.Enqueue? && ops[k2].op.Enqueue? && ops[k].op.sameFunction
      && ops[k2].op.sameFunction && ops[k].block == ops[k2].block && ops[k].op.successor == ops[k2].op.successor
  }

  ghost predicate Acceptable(ops: seq<Located>) {
    !ReadsClash(ops) && !WritesClash(ops) && !LinksClash(ops)
  }

  // ---- The same as lists ----

  function SelectedReads(reg: Reg, sources: seq<(nat, nat)>): seq<Entry> {
    if sources == [] then []
    else SelectedReads(reg, sources[..|sources| - 1])
         + [Entry(sources[|sources| - 1].0, reg, sources[|sources| - 1].1)]
  }

  function ReadsOf(op: Operation): seq<Entry> {
    match op
    case MovFromFifo(reg, fifo, offset) => [Entry(fifo, reg, offset)]
    case ReadSelectedFifo(reg, sources) => SelectedReads(reg, sources)
    case _ => []
  }

  function WritesOf(op: Operation): seq<Entry> {
    match op
    case MovToFifo(reg, fifo, offset) => [Entry(fifo, reg, offset)]
    case _ => []
  }

  function LinksOf(b: Block, op: Operation): seq<Link> {
    match op
    case Enqueue(successor, sameFunction, fifo) => if sameFunction then [Link(b, successor, fifo)] else []
    case _ => []
  }

  function Reads(ops: seq<Located>): seq<Entry> {
    if ops == [] then [] else Reads(ops[..|ops| - 1]) + ReadsOf(ops[|ops| - 1].op)
  }

  function Writes(ops: seq<Located>): seq<Entry> {
    if ops == [] then [] else Writes(ops[..|ops| - 1]) + WritesOf(ops[|ops| - 1].op)
  }

  function Links(ops: seq<Located>): seq<Link> {
    if ops == [] then [] else Links(ops[..|ops| - 1]) + LinksOf(ops[|ops| - 1].block, ops[|ops| - 1].op)
  }

  /** Within a FIFO every register and every offset occurs once. */
  ghost predicate Unambiguous(entries: seq<Entry>) {
    forall i, j :: 0 <= i < j < |entries| && entries[i].fifo == entries[j].fifo ==>
      entries[i].reg != entries[j].reg && entries[i].offset != entries[j].offset
  }

  /** At most one FIFO links two blocks. */
  ghost predicate LinkedOnce(links: seq<Link>) {
    forall i, j ::
      0 <= i < j < |links| ==> links[i].predecessor != links[j].predecessor || links[i].successor != links[j].successor
  }

  ghost predicate ListsAreAcceptable(ops: seq<Located>) {
    Unambiguous(Reads(ops)) && Unambiguous(Writes(ops)) && LinkedOnce(Links(ops))
  }

  lemma OneMoreOperation(before: seq<Located>, x: Located)
    ensures Reads(before + [x]) == Reads(before) + ReadsOf(x.op)
    ensures Writes(before + [x]) == Writes(before) + WritesOf(x.op)
    ensures Links(before + [x]) == Links(before) + LinksOf(x.block, x.op)
  {
    assert (before + [x])[..|before|] == before;
  }

  lemma {:induction false} SelectedReadsAre(reg: Reg, sources: seq<(nat, nat)>)
    ensures |SelectedReads(reg, sources)| == |sources|
    ensures forall j :: 0 <= j < |sources| ==>
      SelectedReads(reg, sources)[j] == Entry(sources[j].0, reg, sources[j].1)
  {
    if sources != [] { SelectedReadsAre(reg, sources[..|sources| - 1]); }
  }

  lemma ReadsOfThere(ops: seq<Located>, k: nat, j: nat, e: Entry)
    requires k < |ops|
    ensures ReadsThere(ops, k, j, e) <==> j < |ReadsOf(ops[k].op)| && ReadsOf(ops[k].op)[j] == e
  {
    if ops[k].op.ReadSelectedFifo? { SelectedReadsAre(ops[k].op.reg, ops[k].op.sources); }
  }

  // ---- Lists of lists ----

  ghost function Concat<T>(parts: seq<seq<T>>): seq<T> {
    if parts == [] then [] else Concat(parts[..|parts| - 1]) + parts[|parts| - 1]
  }

  /** Where element j of part k is. */
  ghost function IndexOf<T>(parts: seq<seq<T>>, k: nat, j: nat): nat
    requires k <= |parts|
  {
    |Concat(parts[..k])| + j
  }

  lemma {:induction false} ElementThere<T>(parts: seq<seq<T>>, k: nat, j: nat)
    requires k < |parts| && j < |parts[k]|
    ensures IndexOf(parts, k, j) < |Concat(parts)| && Concat(parts)[IndexOf(parts, k, j)] == parts[k][j]
    decreases |parts|
  {
    var n := |parts| - 1;
    assert parts[..n][..k] == parts[..k];
    if k < n { ElementThere(parts[..n], k, j); }
  }

  lemma {:induction false} PartThere<T>(parts: seq<seq<T>>, i: nat) returns (k: nat, j: nat)
    requires i < |Concat(parts)|
    ensures k < |parts| && j < |parts[k]| && IndexOf(parts, k, j) == i && Concat(parts)[i] == parts[k][j]
    decreases |parts|
  {
    var n := |parts| - 1;
    if i < |Concat(parts[..n])| {
      k, j := PartThere(parts[..n], i);
      assert parts[..n][..k] == parts[..k];
    } else {
      k, j := n, i - |Concat(parts[..n])|;
    }
  }

  lemma {:induction false} LaterStart<T>(parts: seq<seq<T>>, k: nat, k2: nat)
    requires k < k2 <= |parts|
    ensures |Concat(parts[..k])| + |parts[k]| <= |Concat(parts[..k2])|
    decreases k2
  {
    assert parts[..k2][..k2 - 1] == parts[..k2 - 1];
    if k < k2 - 1 { LaterStart(parts, k, k2 - 1); }
  }

  lemma IndexOnce<T>(parts: seq<seq<T>>, k: nat, j: nat, k2: nat, j2: nat)
    requires k < |parts| && j < |parts[k]| && k2 < |parts| && j2 < |parts[k2]|
    ensures IndexOf(parts, k, j) == IndexOf(parts, k2, j2) ==> k == k2 && j == j2
  {
    if k < k2 { LaterStart(parts, k, k2); }
    if k2 < k { LaterStart(parts, k2, k); }
  }

  // ---- Reads ----

  ghost function ReadParts(ops: seq<Located>): (r: seq<seq<Entry>>)
    ensures |r| == |ops| && forall k :: 0 <= k < |ops| ==> r[k] == ReadsOf(ops[k].op)
  {
    seq(|ops|, k requires 0 <= k < |ops| => ReadsOf(ops[k].op))
  }

  lemma {:induction false} ReadsAreParts(ops: seq<Located>)
    ensures Reads(ops) == Concat(ReadParts(ops))
  {
    if ops != [] {
      var n := |ops| - 1;
      ReadsAreParts(ops[..n]);
      assert ReadParts(ops)[..n] == ReadParts(ops[..n]);
    }
  }

  /** Exactly what some operation reads is in the list. */
  lemma ReadsAre(ops: seq<Located>, e: Entry)
    ensures e in Reads(ops) <==> ReadsAt(ops, e.fifo, e.reg, e.offset)
  {
    ReadsAreParts(ops);
    if e in Reads(ops) {
      var i :| 0 <= i < |Reads(ops)| && Reads(ops)[i] == e;
      var k, j := PartThere(ReadParts(ops), i);
      ReadsOfThere(ops, k, j, e);
      assert ops[k] in ops;
    }
    if ReadsAt(ops, e.fifo, e.reg, e.offset) {
      var k, j := ReadIsThere(ops, e);
      ReadsOfThere(ops, k, j, e);
      ElementThere(ReadParts(ops), k, j);
    }
  }

  lemma ReadIsThere(ops: seq<Located>, e: Entry) returns (k: nat, j: nat)
    requires ReadsAt(ops, e.fifo, e.reg, e.offset)
    ensures ReadsThere(ops, k, j, e)
  {
    var l :| l in ops && (l.op == MovFromFifo(e.reg, e.fifo, e.offset) ||
                          (l.op.ReadSelectedFifo? && l.op.reg == e.reg && (e.fifo, e.offset) in l.op.sources));
    k :| 0 <= k < |ops| && ops[k] == l;
    j := 0;
    if l.op.ReadSelectedFifo? {
      j :| 0 <= j < |l.op.sources| && l.op.sources[j] == (e.fifo, e.offset);
    }
  }

  lemma ReadsClashListed(ops: seq<Located>)
    ensures ReadsClash(ops) ==> !Unambiguous(Reads(ops))
  {
    if ReadsClash(ops) {
      var k, j, e, k2, j2, f :|
        ReadsThere(ops, k, j, e) && ReadsThere(ops, k2, j2, f) && (k, j) != (k2, j2) && Clash(e, f);
      var parts := ReadParts(ops);
      ReadsAreParts(ops);
      ReadsOfThere(ops, k, j, e);
      ReadsOfThere(ops, k2, j2, f);
      ElementThere(parts, k, j);
      ElementThere(parts, k2, j2);
      IndexOnce(parts, k, j, k2, j2);
      ClashIsAmbiguous(Reads(ops), IndexOf(parts, k, j), IndexOf(parts, k2, j2));
    }
  }

  lemma ClashIsAmbiguous(entries: seq<Entry>, i: nat, j: nat)
    requires i < |entries| && j < |entries| && i != j && Clash(entries[i], entries[j])
    ensures !Unambiguous(entries)
  {
    if i > j { assert Clash(entries[j], entries[i]); }
  }

  lemma ReadsListedClash(ops: seq<Located>)
    ensures !Unambiguous(Reads(ops)) ==> ReadsClash(ops)
  {
    if !Unambiguous(Reads(ops)) {
      var all := Reads(ops);
      var i, i2 :| 0 <= i < i2 < |all| && Clash(all[i], all[i2]);
      ReadsAreParts(ops);
      var k, j := PartThere(ReadParts(ops), i);
      var k2, j2 := PartThere(ReadParts(ops), i2);
      ReadsOfThere(ops, k, j, all[i]);
      ReadsOfThere(ops, k2, j2, all[i2]);
      assert (k, j) != (k2, j2);
    }
  }

  // ---- Writes and links ----

  /** Exactly what some operation writes is in the list. */
  lemma {:induction false} WritesAre(ops: seq<Located>, e: Entry)
    ensures e in Writes(ops) <==> WritesAt(ops, e.fifo, e.reg, e.offset)
  {
    if ops != [] {
      var n := |ops| - 1;
      WritesAre(ops[..n], e);
      assert ops == ops[..n] + [ops[n]];
    }
  }

  /** Exactly the enqueues within the function are in the list. */
  lemma {:induction false} LinksAre(ops: seq<Located>, p: Block, s: Block, fifo: nat)
    ensures Link(p, s, fifo) in Links(ops) <==> LinksBy(ops, p, s, fifo)
  {
    if ops != [] {
      var n := |ops| - 1;
      LinksAre(ops[..n], p, s, fifo);
      assert ops == ops[..n] + [ops[n]];
    }
  }

  ghost predicate WritesSame(x: Located, y: Located) {
    && x.op.MovToFifo? && y.op.MovToFifo?
    && Clash(Entry(x.op.fifo, x.op.reg, x.op.offset), Entry(y.op.fifo, y.op.reg, y.op.offset))
  }

  lemma OneMoreWriteClash(ops: seq<Located>, x: Located)
    ensures WritesClash(ops + [x]) <==> WritesClash(ops) || exists k :: 0 <= k < |ops| && WritesSame(ops[k], x)
  {
    var all := ops + [x];
    assert all[|ops|] == x && forall k :: 0 <= k < |ops| ==> all[k] == ops[k];
    if k :| 0 <= k < |ops| && WritesSame(ops[k], x) { assert WritesSame(all[k], all[|ops|]); }
  }

  lemma LongerIsAmbiguous(a: seq<Entry>, b: seq<Entry>)
    ensures Unambiguous(a + b) ==> Unambiguous(a)
  {
    if Unambiguous(a + b) {
      forall i, j | 0 <= i < j < |a| && a[i].fifo == a[j].fifo
        ensures a[i].reg != a[j].reg && a[i].offset != a[j].offset
      {
        assert (a + b)[i] == a[i] && (a + b)[j] == a[j];
      }
    }
  }

  lemma LongerIsLinkedTwice(a: seq<Link>, b: seq<Link>)
    ensures LinkedOnce(a + b) ==> LinkedOnce(a)
  {
    if LinkedOnce(a + b) {
      forall i, j | 0 <= i < j < |a|
        ensures a[i].predecessor != a[j].predecessor || a[i].successor != a[j].successor
      {
        assert (a + b)[i] == a[i] && (a + b)[j] == a[j];
      }
    }
  }

  lemma OneMoreIsAmbiguous(entries: seq<Entry>, e: Entry)
    ensures Unambiguous(entries + [e]) <==> Unambiguous(entries) && forall o :: o in entries ==> !Clash(o, e)
  {
    var more := entries + [e];
    assert more[|entries|] == e && forall i :: 0 <= i < |entries| ==> more[i] == entries[i] && more[i] in entries;
    LongerIsAmbiguous(entries, [e]);
    if Unambiguous(more) {
      forall o | o in entries
        ensures !Clash(o, e)
      {
        var i :| 0 <= i < |entries| && entries[i] == o;
        assert more[i] == o;
      }
    }
  }

  lemma {:induction false} WritesClashAre(ops: seq<Located>)
    ensures WritesClash(ops) <==> !Unambiguous(Writes(ops))
  {
    if ops != [] {
      var init, x := ops[..|ops| - 1], ops[|ops| - 1];
      assert ops == init + [x];
      WritesClashAre(init);
      OneMoreWriteClash(init, x);
      OneMoreOperation(init, x);
      if x.op.MovToFifo? {
        OneMoreIsAmbiguous(Writes(init), Entry(x.op.fifo, x.op.reg, x.op.offset));
        WrittenBefore(init, x);
      } else {
        assert Writes(ops) == Writes(init);
      }
    }
  }

  lemma WrittenBefore(ops: seq<Located>, x: Located)
    requires x.op.MovToFifo?
    ensures (exists o :: o in Writes(ops) && Clash(o, Entry(x.op.fifo, x.op.reg, x.op.offset))) <==>
            exists k :: 0 <= k < |ops| && WritesSame(ops[k], x)
  {
    if o :| o in Writes(ops) && Clash(o, Entry(x.op.fifo, x.op.reg, x.op.offset)) {
      WritesAre(ops, o);
      var l :| l in ops && l.op == MovToFifo(o.reg, o.fifo, o.offset);
      var k :| 0 <= k < |ops| && ops[k] == l;
      assert WritesSame(ops[k], x);
    }
    if k :| 0 <= k < |ops| && WritesSame(ops[k], x) {
      assert ops[k] in ops;
      WritesAre(ops, Entry(ops[k].op.fifo, ops[k].op.reg, ops[k].op.offset));
    }
  }

  ghost predicate SamePair(l: Link, m: Link) { l.predecessor == m.predecessor && l.successor == m.successor }

  ghost predicate LinksSame(x: Located, y: Located) {
    && x.op.Enqueue? && y.op.Enqueue? && x.op.sameFunction && y.op.sameFunction && x.block == y.block
    && x.op.successor == y.op.successor
  }

  lemma OneMoreLinkClash(ops: seq<Located>, x: Located)
    ensures LinksClash(ops + [x]) <==> LinksClash(ops) || exists k :: 0 <= k < |ops| && LinksSame(ops[k], x)
  {
    var all := ops + [x];
    assert all[|ops|] == x && forall k :: 0 <= k < |ops| ==> all[k] == ops[k];
    if k :| 0 <= k < |ops| && LinksSame(ops[k], x) { assert LinksSame(all[k], all[|ops|]); }
  }

  lemma OneMoreIsLinkedTwice(links: seq<Link>, l: Link)
    ensures LinkedOnce(links + [l]) <==> LinkedOnce(links) && forall o :: o in links ==> !SamePair(o, l)
  {
    var more := links + [l];
    assert more[|links|] == l && forall i :: 0 <= i < |links| ==> more[i] == links[i] && more[i] in links;
    LongerIsLinkedTwice(links, [l]);
    if LinkedOnce(more) {
      forall o | o in links
        ensures !SamePair(o, l)
      {
        var i :| 0 <= i < |links| && links[i] == o;
        assert more[i] == o;
      }
    }
  }

  lemma LinkedBefore(ops: seq<Located>, x: Located)
    requires x.op.Enqueue? && x.op.sameFunction
    ensures (exists o :: o in Links(ops) && SamePair(o, Link(x.block, x.op.successor, x.op.successorFifo))) <==>
            exists k :: 0 <= k < |ops| && LinksSame(ops[k], x)
  {
    if o :| o in Links(ops) && SamePair(o, Link(x.block, x.op.successor, x.op.successorFifo)) {
      LinksAre(ops, o.predecessor, o.successor, o.fifo);
      var k :| 0 <= k < |ops| && ops[k] == Located(o.predecessor, Enqueue(o.successor, true, o.fifo));
      assert LinksSame(ops[k], x);
    }
    if k :| 0 <= k < |ops| && LinksSame(ops[k], x) {
      LinksAre(ops, x.block, x.op.successor, ops[k].op.successorFifo);
      assert ops[k] in ops;
    }
  }

  lemma {:induction false} LinksClashAre(ops: seq<Located>)
    ensures LinksClash(ops) <==> !LinkedOnce(Links(ops))
  {
    if ops != [] {
      var init, x := ops[..|ops| - 1], ops[|ops| - 1];
      assert ops == init + [x];
      LinksClashAre(init);
      OneMoreLinkClash(init, x);
      OneMoreOperation(init, x);
      if x.op.Enqueue? && x.op.sameFunction {
        OneMoreIsLinkedTwice(Links(init), Link(x.block, x.op.successor, x.op.successorFifo));
        LinkedBefore(init, x);
      } else {
        assert Links(ops) == Links(init);
      }
    }
  }

  /** Operations are acceptable exactly if no list has a duplicate. */
  lemma AcceptableAsLists(ops: seq<Located>)
    ensures Acceptable(ops) <==> ListsAreAcceptable(ops)
  {
    ReadsClashListed(ops);
    ReadsListedClash(ops);
    WritesClashAre(ops);
    LinksClashAre(ops);
  }

  // ---- The listing of all blocks ----

  lemma ListingGrows(blocks: seq<BasicBlock>, before: seq<Located>, starts: seq<nat>)
    requires blocks != [] && IsListingFrom(blocks[..|blocks| - 1], before, starts)
    ensures var b := blocks[|blocks| - 1];
      IsListingFrom(blocks, before + InBlock(b.id, b.operations), starts + [|before| + |b.operations|])
  {
    var n, b := |blocks| - 1, blocks[|blocks| - 1];
    var ops, all := before + InBlock(b.id, b.operations), starts + [|before| + |b.operations|];
    forall i | 0 <= i < |blocks|
      ensures IsPart(blocks[i], ops, all[i], all[i + 1])
    {
      if i < n { assert IsPart(blocks[..n][i], before, starts[i], starts[i + 1]); }
    }
  }

  lemma {:induction false} AllOperationsListed(blocks: seq<BasicBlock>)
    ensures IsListing(blocks, AllOperations(blocks))
  {
    var ops := AllOperations(blocks);
    if blocks == [] {
      var starts: seq<nat> := [0];
      assert IsListingFrom(blocks, ops, starts);
    } else {
      var n := |blocks| - 1;
      AllOperationsListed(blocks[..n]);
      var before := AllOperations(blocks[..n]);
      var starts: seq<nat> :| IsListingFrom(blocks[..n], before, starts);
      ListingGrows(blocks, before, starts);
    }
  }
}
