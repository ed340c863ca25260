/** Which memories and FIFOs go to LUT RAM, block RAM and deep RAM. */
module RamAllocator {
  import opened Collections
  import opened MemoryComposition
  import opened RamPasses

  /** A RAM that somebody asks for. Routers are the FIFOs of synchronous external calls. */
  datatype Register =
    | Memory(width: nat, depth: nat, replicaCount: nat, hasInitialData: bool, hasOutputRegister: bool, ecc: bool,
             writePortCount: nat)
    | Fifo(physicalWidth: nat, depth: nat, isDualClock: bool)
    | Router(width: nat, depth: nat)

  datatype Device = Device(lutRamConfigs: seq<Config>, blockRamConfigs: seq<Config>, deepRamConfigs: seq<Config>)

  ghost predicate ValidDevice(d: Device) {
    ValidConfigs(d.lutRamConfigs) && ValidConfigs(d.blockRamConfigs) && ValidConfigs(d.deepRamConfigs)
  }

  predicate LutRamAllowed(r: Register) {
    match r
    case Memory(_, _, _, _, hasOutputRegister, ecc, _) => hasOutputRegister && !ecc
    case Fifo(_, _, isDualClock) => !isDualClock
    case Router(_, _) => false
  }

  predicate DeepRamAllowed(r: Register) {
    r.Memory? && !r.hasInitialData && r.hasOutputRegister
  }

  function Width(r: Register): nat {
    match r
    case Memory(width, _, _, _, _, _, _) => width
    case Fifo(width, _, _) => width
    case Router(width, _) => width
  }

  function Replicas(r: Register): nat { if r.Memory? then r.replicaCount else 1 }

  /** True dual port halves the replicas of a memory that is never written. */
  function BlockReplicas(r: Register): nat {
    if r.Memory? && r.writePortCount == 0 then (r.replicaCount + 1) / 2 else Replicas(r)
  }

  /** Count and utilisation of the best composition if the kind is allowed, else zero. */
  ghost predicate Usage(allowed: bool, configs: seq<Config>, width: nat, depth: nat, replicaCount: nat, count: nat,
                        utilization: nat)
    requires ValidConfigs(configs)
  {
    if allowed
    then exists m ::
           IsBest(configs, width, depth, replicaCount, m) && count == m.atomCount && utilization == m.utilization
    else count == 0 && utilization == 0
  }

  /** The count alone. */
  ghost predicate Count(allowed: bool, configs: seq<Config>, width: nat, depth: nat, replicaCount: nat, count: nat)
    requires ValidConfigs(configs)
  {
    if allowed
    then exists m :: IsBest(configs, width, depth, replicaCount, m) && count == m.atomCount
    else count == 0
  }

  /** What a register needs of each kind: LUT RAM needs an output register and has no ECC; block RAM can read a memory
      that is never written through two ports; deep RAM holds no initial data and no FIFOs. */
  ghost predicate NeededFor(r: Register, device: Device, c: Candidate)
    requires ValidDevice(device)
  {
    match r
    case Memory(width, depth, replicas, initial, output, ecc, writePorts) =>
      && Count(output && !ecc, device.lutRamConfigs, width, depth, replicas, c.lutRamsNeeded)
      && Usage(true, device.blockRamConfigs, width, depth, if writePorts == 0 then (replicas + 1) / 2 else replicas,
               c.blockRamsNeeded, c.blockRamUtilization)
      && Usage(output && !initial, device.deepRamConfigs, width, depth, replicas, c.deepRamsNeeded,
               c.deepRamUtilization)
    case Fifo(width, depth, isDualClock) =>
      && Count(!isDualClock, device.lutRamConfigs, width, depth, 1, c.lutRamsNeeded)
      && Usage(true, device.blockRamConfigs, width, depth, 1, c.blockRamsNeeded, c.blockRamUtilization)
      && c.deepRamsNeeded == 0 && c.deepRamUtilization == 0
    case Router(width, depth) =>
      && c.lutRamsNeeded == 0
      && Usage(true, device.blockRamConfigs, width, depth, 1, c.blockRamsNeeded, c.blockRamUtilization)
      && c.deepRamsNeeded == 0 && c.deepRamUtilization == 0
  }

  /** The floating point quotient of two counts. */
  type Division = (nat, nat) -> real

  /** The needs, and how many RAMs of one kind a RAM of the next kind saves. */
  ghost predicate CandidateFor(r: Register, device: Device, divide: Division, c: Candidate)
    requires ValidDevice(device)
  {
    && NeededFor(r, device, c) && c.lutRamsSavedPerBlock == divide(c.lutRamsNeeded, c.blockRamsNeeded)
    && (match r
        case Memory(_, _, _, initial, output, _, _) =>
          c.blockRamsSavedPerDeep == if output && !initial then divide(c.blockRamsNeeded, c.deepRamsNeeded) else 0.0
        case _ => c.blockRamsSavedPerDeep == 0.0)
  }

  method MemoryOrFifo(r: Register, device: Device, divide: Division) returns (c: Candidate)
    requires ValidDevice(device)
    ensures CandidateFor(r, device, divide, c)
    ensures c.lutRamsNeeded > 0 ==> LutRamAllowed(r)
    ensures c.deepRamsNeeded > 0 ==> DeepRamAllowed(r)
  {
    var lut := GetMemoryComposition(device.lutRamConfigs, Width(r), r.depth, Replicas(r));
    var block := GetMemoryComposition(device.blockRamConfigs, Width(r), r.depth, BlockReplicas(r));
    var deep := GetMemoryComposition(device.deepRamConfigs, Width(r), r.depth, Replicas(r));
    var lutRams := if LutRamAllowed(r) then lut.atomCount else 0;
    var deepRams := if DeepRamAllowed(r) then deep.atomCount else 0;
    c := Candidate(lutRams, block.atomCount, block.utilization, deepRams,
                   if DeepRamAllowed(r) then deep.utilization else 0, divide(lutRams, block.atomCount),
                   if DeepRamAllowed(r) then divide(block.atomCount, deepRams) else 0.0);
  }

  // ---- Accounts ----

  ghost function Need(c: Candidate, k: Kind): nat {
    match k
    case Lut => c.lutRamsNeeded
    case Block => c.blockRamsNeeded
    case Deep => c.deepRamsNeeded
  }

  /** The RAMs of kind k that the candidates placed there need. */
  ghost function Total(items: seq<Candidate>, placement: seq<Kind>, k: Kind): nat
    requires |items| == |placement|
  {
    if items == [] then 0
    else Total(items[..|items| - 1], placement[..|items| - 1], k)
         + if placement[|items| - 1] == k then Need(items[|items| - 1], k) else 0
  }

  /** What has to be in block RAM whatever the limits are. */
  ghost function Forced(items: seq<Candidate>): nat {
    if items == [] then 0
    else Forced(items[..|items| - 1])
         + if items[|items| - 1].lutRamsNeeded == 0 then items[|items| - 1].blockRamsNeeded else 0
  }

  lemma {:induction false} TotalMoves(items: seq<Candidate>, placement: seq<Kind>, i: nat, to: Kind, k: Kind)
    requires |items| == |placement| && i < |items| && placement[i] != to
    ensures Total(items, placement[i := to], k)
            == Total(items, placement, k)
              + (if k == to then Need(items[i], k) else 0) - (if k == placement[i] then Need(items[i], k) else 0)
    decreases |items|
  {
    var n := |items| - 1;
    if i == n {
      assert placement[i := to][..n] == placement[..n];
    } else {
      TotalMoves(items[..n], placement[..n], i, to, k);
      assert placement[i := to][..n] == placement[..n][i := to];
    }
  }

  lemma {:induction false} TotalCovers(items: seq<Candidate>, placement: seq<Kind>, i: nat)
    requires |items| == |placement| && i < |items|
    ensures Need(items[i], placement[i]) <= Total(items, placement, placement[i])
    decreases |items|
  {
    if i < |items| - 1 { TotalCovers(items[..|items| - 1], placement[..|items| - 1], i); }
  }

  lemma {:induction false} InitialTotals(items: seq<Candidate>, placement: seq<Kind>)
    requires |items| == |placement|
    requires forall i :: 0 <= i < |items| ==> placement[i] == if items[i].lutRamsNeeded > 0 then Lut else Block
    ensures Total(items, placement, Block) == Forced(items) && Total(items, placement, Deep) == 0
    decreases |items|
  {
    if items != [] { InitialTotals(items[..|items| - 1], placement[..|items| - 1]); }
  }

  // ---- The allocator ----

  ghost predicate Below(s: seq<nat>, n: nat) {
    forall j :: 0 <= j < |s| ==> s[j] < n
  }

  lemma MembersBelow(s: seq<nat>, n: nat)
    requires forall i: nat :: i in s ==> i < n
    ensures Below(s, n)
  {
    forall j | 0 <= j < |s|
      ensures s[j] < n
    {
      assert s[j] in s;
    }
  }

  class Allocation {
    const items: seq<Candidate>
    const limits: Limits
    var placement: seq<Kind>
    var lutRamsUsed: nat
    var blockRamsUsed: nat
    var deepRamsUsed: nat
    var potentialBlockRams: seq<nat>   // indices of items, in the order in which they are considered
    var potentialDeepRams: seq<nat>

    /** The used counts are the sums over what is placed, and no kind is over its limit or given to somebody it
        does not suit. */
    ghost predicate Accounts()
      reads this
    {
      && |placement| == |items|
      && lutRamsUsed == Total(items, placement, Lut)
      && blockRamsUsed == Total(items, placement, Block)
      && deepRamsUsed == Total(items, placement, Deep)
      && blockRamsUsed <= (if limits.maxBlockRam < Forced(items) then Forced(items) else limits.maxBlockRam)
      && deepRamsUsed <= limits.maxDeepRam
      && forall i :: 0 <= i < |items| ==> Suits(items[i], placement[i])
    }

    /** An item is where it may be; what was moved fills its RAMs well enough. */
    ghost predicate Suits(c: Candidate, k: Kind) {
      && (k == Lut ==> c.lutRamsNeeded > 0)
      && (k != Lut && c.lutRamsNeeded > 0 ==> c.blockRamUtilization >= limits.minBlockRamUtilization)
      && (k == Deep ==> c.deepRamsNeeded > 0 && c.deepRamUtilization >= limits.minDeepRamUtilization)
    }

    /** The lists hold, once each, what is in LUT RAM and what could go from block to deep RAM. */
    ghost predicate Lists()
      reads this
    {
      && |placement| == |items| && Distinct(potentialBlockRams) && Distinct(potentialDeepRams)
      && Below(potentialBlockRams, |items|) && Below(potentialDeepRams, |items|)
      && (forall i: nat :: i in potentialBlockRams <==> i < |items| && placement[i] == Lut)
      && (forall i: nat :: i in potentialDeepRams <==>
          i < |items| && placement[i] == Block && items[i].deepRamsNeeded > 0 && limits.maxDeepRam > 0)
    }

    ghost predicate Valid()
      reads this
    {
      Accounts() && Lists()
    }

    ghost function Now(): Snapshot
      reads this
    {
      Snapshot(placement, blockRamsUsed, deepRamsUsed, potentialBlockRams, potentialDeepRams)
    }

    /** Nothing that is left in LUT RAM could go to block RAM. */
    ghost predicate BlockStable()
      reads this
    {
      |placement| == |items|
      && forall i :: 0 <= i < |items| && placement[i] == Lut ==> !FitsBlock(limits, items[i], blockRamsUsed)
    }

    /** Nothing that is left in block RAM could go to deep RAM. */
    ghost predicate DeepStable()
      reads this
    {
      |placement| == |items| &&
      forall i :: 0 <= i < |items| && placement[i] == Block && items[i].deepRamsNeeded > 0 ==>
        !FitsDeep(limits, items[i], deepRamsUsed)
    }

    ghost function Left(): nat
      reads this
    {
      2 * |potentialBlockRams| + |potentialDeepRams|
    }

    /** Everything starts in LUT RAM if it may, else in block RAM. */
    constructor (items: seq<Candidate>, limits: Limits)
      ensures Valid() && this.items == items && this.limits == limits && IsInitial(items, limits, Now())
    {
      this.items, this.limits := items, limits;
      placement, lutRamsUsed, blockRamsUsed, deepRamsUsed := [], 0, 0, 0;
      potentialBlockRams, potentialDeepRams := [], [];
      new;
      ghost var all := [Now()];
      var i := 0;
      while i < |items|
        invariant 0 <= i <= |items| && this.items == items && this.limits == limits && Placed(i)
        invariant AddedOneByOne(items, limits, all) && |all| == i + 1 && all[i] == Now()
      {
        Place(i);
        OneMoreAdded(items, limits, all, Now());
        all := all + [Now()];
        i := i + 1;
      }
      assert items[..i] == items;
      InitialTotals(items, placement);
      MembersBelow(potentialBlockRams, |items|);
      MembersBelow(potentialDeepRams, |items|);
    }

    /** The first n items are in their initial places. */
    ghost predicate Placed(n: nat)
      reads this
    {
      && n <= |items| && |placement| == n
      && (forall k :: 0 <= k < n ==> placement[k] == if items[k].lutRamsNeeded > 0 then Lut else Block)
      && lutRamsUsed == Total(items[..n], placement, Lut) && blockRamsUsed == Total(items[..n], placement, Block)
      && deepRamsUsed == 0
      && Distinct(potentialBlockRams) && Distinct(potentialDeepRams)
      && Below(potentialBlockRams, |items|) && Below(potentialDeepRams, |items|)
      && (forall k: nat :: k in potentialBlockRams <==> k < n && placement[k] == Lut)
      && (forall k: nat :: k in potentialDeepRams <==>
          k < n && placement[k] == Block && items[k].deepRamsNeeded > 0 && limits.maxDeepRam > 0)
    }

    method Place(i: nat)
      requires i < |items| && Placed(i)
      modifies this
      ensures Placed(i + 1) && IsAdded(items, limits, i, old(Now()), Now())
    {
      if items[i].lutRamsNeeded > 0 { PlaceInLut(i); } else { PlaceInBlock(i); }
    }

    method PlaceInLut(i: nat)
      requires i < |items| && Placed(i) && items[i].lutRamsNeeded > 0
      modifies this
      ensures Placed(i + 1) && IsAdded(items, limits, i, old(Now()), Now())
    {
      ghost var before := placement;
      assert items[..i + 1][..i] == items[..i];
      placement := placement + [Lut];
      lutRamsUsed := lutRamsUsed + items[i].lutRamsNeeded;
      potentialBlockRams := Insert(items, LutRate, potentialBlockRams, i);
      assert placement[..i] == before;
    }

    method PlaceInBlock(i: nat)
      requires i < |items| && Placed(i) && items[i].lutRamsNeeded == 0
      modifies this
      ensures Placed(i + 1) && IsAdded(items, limits, i, old(Now()), Now())
    {
      ghost var before := placement;
      assert items[..i + 1][..i] == items[..i];
      placement := placement + [Block];
      blockRamsUsed := blockRamsUsed + items[i].blockRamsNeeded;
      if limits.maxDeepRam > 0 && items[i].deepRamsNeeded > 0 {
        potentialDeepRams := Insert(items, BlockRate, potentialDeepRams, i);
      }
      assert placement[..i] == before;
    }

    /** In the list, sorted by falling rate, i comes after everything that has its rate. */
    static method Insert(items: seq<Candidate>, rate: Candidate -> real, s: seq<nat>, i: nat) returns (t: seq<nat>)
      requires i < |items| && Below(s, |items|) && i !in s && Distinct(s)
      ensures IsInserted(items, rate, s, i, t)
      ensures Distinct(t) && Below(t, |items|) && |t| == |s| + 1 && forall k: nat :: k in t <==> k == i || k in s
    {
      var at: nat := 0;
      while at < |s| && rate(items[s[at]]) >= rate(items[i])
        invariant at <= |s| && forall k :: 0 <= k < at ==> rate(items[s[k]]) >= rate(items[i])
      {
        at := at + 1;
      }
      t := s[..at] + [i] + s[at..];
      InsertedMembers(s, i, at, |items|);
    }

    static lemma InsertedMembers(s: seq<nat>, i: nat, at: nat, n: nat)
      requires at <= |s| && i < n && Below(s, n) && i !in s && Distinct(s)
      ensures var t := s[..at] + [i] + s[at..];
        Distinct(t) && Below(t, n) && forall k: nat :: k in t <==> k == i || k in s
    {
      assert forall k: nat :: k in s <==> k in s[..at] || k in s[at..] by { assert s == s[..at] + s[at..]; }
    }

    /** Runs, round by round, until nothing can be moved any more. */
    method MapToRams() returns (ghost run: seq<Snapshot>)
      requires Valid()
      modifies this
      ensures Valid() && BlockStable() && DeepStable()
      ensures IsRun(items, limits, run) && run[0] == old(Now()) && run[|run| - 1] == Now()
    {
      var fixedPoint := false;
      run := [Now()];
      while !fixedPoint
        invariant Valid() && run != [] && run[0] == old(Now()) && run[|run| - 1] == Now()
        invariant AllRounds(items, limits, run, fixedPoint) && (fixedPoint ==> BlockStable() && DeepStable())
        decreases Left(), if fixedPoint then 0 else 1
      {
        fixedPoint := true;
        ghost var start := Now();
        var anyBlock := MoveToBlock();
        ghost var mid := Now();
        if anyBlock { fixedPoint := false; }
        var anyDeep := MoveToDeep();
        if anyDeep { fixedPoint := false; }
        assert Round(items, limits, start, Now());
        RunGoesOn(items, limits, run, Now(), fixedPoint);
        run := run + [Now()];
      }
    }

    /** Everybody in LUT RAM gets a turn, the best value for money first. */
    method MoveToBlock() returns (any: bool)
      requires Valid()
      modifies this
      ensures Valid() && BlockPass(items, limits, old(Now()), Now())
      ensures (any ==> Left() < old(Left())) && (!any ==> BlockStable() && Now() == old(Now()))
    {
      ghost var before := Now();
      ghost var k, used, deeps;
      any, k, used, deeps := TakeTurns();
      PassOver(items, limits, before, used, deeps, Now(), k);
      if !any { StableIfNoneFits(k); }
    }

    method TakeTurns() returns (any: bool, ghost k: nat, ghost used: seq<nat>, ghost deeps: seq<seq<nat>>)
      requires Valid()
      modifies this
      ensures Valid() && InTurns(old(Now()), used, deeps, k)
      ensures k == |potentialBlockRams| || blockRamsUsed >= limits.maxBlockRam
      ensures any ==> Left() < old(Left())
      ensures !any ==> Now() == old(Now()) && NoneFits(items, limits, potentialBlockRams, k, blockRamsUsed)
    {
      any := false;
      var at := 0;
      ghost var before := Now();
      used, deeps := [blockRamsUsed], [potentialDeepRams];
      PassBegins(items, limits, before);
      while at < |potentialBlockRams| && blockRamsUsed < limits.maxBlockRam
        invariant Valid() && InTurns(before, used, deeps, at) && (any ==> Left() < old(Left()))
        invariant !any ==> Now() == before && NoneFits(items, limits, potentialBlockRams, at, blockRamsUsed)
        decreases |potentialBlockRams| - at
      {
        var moved;
        moved, used, deeps := TakeTurn(at, before, used, deeps);
        if moved { any := true; } else { at := at + 1; }
      }
      k := at;
    }

    lemma StableIfNoneFits(k: nat)
      requires Lists() && NoneFits(items, limits, potentialBlockRams, k, blockRamsUsed)
      requires k == |potentialBlockRams| || blockRamsUsed >= limits.maxBlockRam
      ensures BlockStable()
    {
      forall i | 0 <= i < |items| && placement[i] == Lut
        ensures !FitsBlock(limits, items[i], blockRamsUsed)
      {
        assert i in potentialBlockRams;
      }
    }

    /** In a pass that began at s, k of those that had a turn stay. */
    ghost predicate InTurns(s: Snapshot, used: seq<nat>, deeps: seq<seq<nat>>, k: nat)
      reads this
    {
      && InPass(items, limits, s, used, deeps, Now()) && Distinct(s.toBlock) && k <= |potentialBlockRams|
      && k == |Staying(items, limits, s.toBlock, used, |used| - 1)|
    }

    method TakeTurn(k: nat, ghost s: Snapshot, ghost used: seq<nat>, ghost deeps: seq<seq<nat>>)
      returns (moved: bool, ghost used': seq<nat>, ghost deeps': seq<seq<nat>>)
      requires Valid() && InTurns(s, used, deeps, k)
      requires k < |potentialBlockRams| && blockRamsUsed < limits.maxBlockRam
      modifies this
      ensures Valid() && InTurns(s, used', deeps', if moved then k else k + 1)
      ensures moved ==> Left() < old(Left()) && |potentialBlockRams| == |old(potentialBlockRams)| - 1
      ensures !moved ==> Now() == old(Now())
      ensures !moved && NoneFits(items, limits, potentialBlockRams, k, blockRamsUsed) ==>
                NoneFits(items, limits, potentialBlockRams, k + 1, blockRamsUsed)
    {
      ghost var before := Now();
      var cheapest := items[potentialBlockRams[k]];
      var newBlockRamsUsed := blockRamsUsed + cheapest.blockRamsNeeded;
      moved :=
        newBlockRamsUsed <= limits.maxBlockRam && cheapest.blockRamUtilization >= limits.minBlockRamUtilization;
      if moved { LutToBlockRam(k); }
      TurnTaken(items, limits, s, used, deeps, before, Now(), k, moved);
      used', deeps' := used + [blockRamsUsed], deeps + [potentialDeepRams];
    }

    method LutToBlockRam(k: nat)
      requires Valid() && k < |potentialBlockRams|
      requires FitsBlock(limits, items[potentialBlockRams[k]], blockRamsUsed)
      modifies this
      ensures Valid() && Left() < old(Left()) && |potentialBlockRams| == |old(potentialBlockRams)| - 1
      ensures placement == old(placement)[old(potentialBlockRams)[k] := Block] && deepRamsUsed == old(deepRamsUsed)
      ensures potentialBlockRams == old(potentialBlockRams)[..k] + old(potentialBlockRams)[k + 1..]
      ensures BlockTurn(items, limits, old(potentialBlockRams)[k], old(blockRamsUsed), old(potentialDeepRams),
                        blockRamsUsed, potentialDeepRams)
    {
      var i := potentialBlockRams[k];
      var c := items[i];
      assert i in potentialBlockRams;
      TotalCovers(items, placement, i);
      TotalMoves(items, placement, i, Block, Lut);
      TotalMoves(items, placement, i, Block, Block);
      TotalMoves(items, placement, i, Block, Deep);
      lutRamsUsed := lutRamsUsed - c.lutRamsNeeded;
      blockRamsUsed := blockRamsUsed + c.blockRamsNeeded;
      potentialBlockRams := Without(potentialBlockRams, k);
      if limits.maxDeepRam > 0 && c.deepRamsNeeded > 0 {
        potentialDeepRams := Insert(items, BlockRate, potentialDeepRams, i);
      }
      placement := placement[i := Block];
      MembersBelow(potentialBlockRams, |items|);
      MembersBelow(potentialDeepRams, |items|);
    }

    /** The first that fits moves, the best value for money first; after that the LUT RAMs are looked at again. */
    method MoveToDeep() returns (any: bool)
      requires Valid()
      modifies this
      ensures Valid() && DeepMove(items, limits, old(Now()), Now())
      ensures (any ==> Left() < old(Left())) && (!any ==> DeepStable() && Now() == old(Now()))
    {
      var k := 0;
      while k < |potentialDeepRams| && deepRamsUsed < limits.maxDeepRam
        invariant Valid() && k <= |potentialDeepRams| && Now() == old(Now())
        invariant forall j :: 0 <= j < k ==> !FitsDeep(limits, items[potentialDeepRams[j]], deepRamsUsed)
      {
        var cheapest := items[potentialDeepRams[k]];
        var newDeepRamsUsed := deepRamsUsed + cheapest.deepRamsNeeded;
        if newDeepRamsUsed <= limits.maxDeepRam && cheapest.deepRamUtilization >= limits.minDeepRamUtilization {
          assert FirstToDeep(items, limits, Now(), k);
          BlockToDeepRam(k);
          return true;
        }
        k := k + 1;
      }
      any := false;
    }

    method BlockToDeepRam(k: nat)
      requires Valid() && k < |potentialDeepRams|
      requires FitsDeep(limits, items[potentialDeepRams[k]], deepRamsUsed)
      modifies this
      ensures Valid() && Left() < old(Left())
      ensures IsMovedDeep(items, old(Now()), Now(), k)
    {
      var i := potentialDeepRams[k];
      var c := items[i];
      assert i in potentialDeepRams;
      TotalCovers(items, placement, i);
      TotalMoves(items, placement, i, Deep, Lut);
      TotalMoves(items, placement, i, Deep, Block);
      TotalMoves(items, placement, i, Deep, Deep);
      blockRamsUsed := blockRamsUsed - c.blockRamsNeeded;
      deepRamsUsed := deepRamsUsed + c.deepRamsNeeded;
      potentialDeepRams := Without(potentialDeepRams, k);
      placement := placement[i := Deep];
      MembersBelow(potentialDeepRams, |items|);
    }

    static function Without(s: seq<nat>, k: nat): (t: seq<nat>)
      requires k < |s| && Distinct(s)
      ensures t == s[..k] + s[k + 1..]
      ensures |t| == |s| - 1 && Distinct(t) && forall i: nat :: i in t <==> i in s && i != s[k]
    {
      assert forall i: nat :: i in s && i != s[k] ==> i in s[..k] || i in s[k + 1..] by {
        assert s == s[..k] + [s[k]] + s[k + 1..];
      }
      s[..k] + s[k + 1..]
    }
  }

  /** Nothing is where it may not be. */
  ghost predicate Allowed(r: Register, k: Kind) {
    match r
    case Memory(_, _, _, initial, output, ecc, _) => (k == Lut ==> output && !ecc) && (k == Deep ==> output && !initial)
    case Fifo(_, _, isDualClock) => k != Deep && (k == Lut ==> !isDualClock)
    case Router(_, _) => k == Block
  }

  /** No room, or not well enough filled, for moving c on from kind k. */
  ghost predicate CannotMove(c: Candidate, k: Kind, limits: Limits, block: nat, deep: nat) {
    && (k == Lut ==>
          block >= limits.maxBlockRam || block + c.blockRamsNeeded > limits.maxBlockRam ||
          c.blockRamUtilization < limits.minBlockRamUtilization)
    && (k == Block && c.deepRamsNeeded > 0 ==>
          deep >= limits.maxDeepRam || deep + c.deepRamsNeeded > limits.maxDeepRam ||
          c.deepRamUtilization < limits.minDeepRamUtilization)
  }

  /** A candidate needs LUT or deep RAM only where its register may use it. */
  ghost predicate NeedsOnlyAllowed(r: Register, c: Candidate) {
    (c.lutRamsNeeded > 0 ==> LutRamAllowed(r)) && (c.deepRamsNeeded > 0 ==> DeepRamAllowed(r))
  }

  method Candidates(registers: seq<Register>, device: Device, divide: Division) returns (items: seq<Candidate>)
    requires ValidDevice(device)
    ensures |items| == |registers|
    ensures forall i :: 0 <= i < |registers| ==> CandidateFor(registers[i], device, divide, items[i])
    ensures forall i :: 0 <= i < |registers| ==> NeedsOnlyAllowed(registers[i], items[i])
  {
    items := [];
    while |items| < |registers|
      invariant |items| <= |registers|
      invariant forall i :: 0 <= i < |items| ==> CandidateFor(registers[i], device, divide, items[i])
      invariant forall i :: 0 <= i < |items| ==> NeedsOnlyAllowed(registers[i], items[i])
    {
      var c := MemoryOrFifo(registers[|items|], device, divide);
      items := items + [c];
    }
  }

  /** What a stable allocation says of one register. */
  lemma PlacedRightly(allocation: Allocation, r: Register, i: nat)
    requires allocation.Accounts() && allocation.BlockStable() && allocation.DeepStable()
    requires i < |allocation.items| && NeedsOnlyAllowed(r, allocation.items[i])
    ensures Allowed(r, allocation.placement[i])
    ensures CannotMove(allocation.items[i], allocation.placement[i], allocation.limits, allocation.blockRamsUsed,
                       allocation.deepRamsUsed)
  {
    assert allocation.Suits(allocation.items[i], allocation.placement[i]);
  }

  /** Maps everything that asks for RAM, within the limits as far as possible, until nothing else can be moved. */
  method MapMemoriesAndFifosToRams(registers: seq<Register>, device: Device, limits: Limits, divide: Division)
    returns (items: seq<Candidate>, placement: seq<Kind>, block: nat, deep: nat, ghost run: seq<Snapshot>)
    requires ValidDevice(device)
    ensures |items| == |registers| == |placement|
    ensures forall i :: 0 <= i < |registers| ==> CandidateFor(registers[i], device, divide, items[i])
    ensures block == Total(items, placement, Block) && deep == Total(items, placement, Deep) <= limits.maxDeepRam
    ensures block <= limits.maxBlockRam || block <= Forced(items)
    ensures forall i :: 0 <= i < |registers| ==> Allowed(registers[i], placement[i])
    ensures forall i :: 0 <= i < |registers| ==> CannotMove(items[i], placement[i], limits, block, deep)
    ensures IsRun(items, limits, run) && IsInitial(items, limits, run[0])
    ensures var last := run[|run| - 1]; last.placement == placement && last.block == block && last.deep == deep
  {
    items := Candidates(registers, device, divide);
    var allocation := new Allocation(items, limits);
    run := allocation.MapToRams();
    placement, block, deep := allocation.placement, allocation.blockRamsUsed, allocation.deepRamsUsed;
    forall i | 0 <= i < |registers|
      ensures Allowed(registers[i], placement[i]) && CannotMove(items[i], placement[i], limits, block, deep)
    {
      PlacedRightly(allocation, registers[i], i);
    }
  }
}
