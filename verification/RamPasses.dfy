/** What the RAM allocator does, pass by pass: candidates move from LUT to block RAM, and one at a time to deep RAM. */
module RamPasses {
  datatype Kind = Lut | Block | Deep

  /** What each kind would cost and save; 0 LUT RAMs or 0 deep RAMs means that the kind is not allowed. */
  datatype Candidate = Candidate(lutRamsNeeded: nat, blockRamsNeeded: nat, blockRamUtilization: nat,
                                 deepRamsNeeded: nat, deepRamUtilization: nat, lutRamsSavedPerBlock: real,
                                 blockRamsSavedPerDeep: real)

  datatype Limits = Limits(maxBlockRam: nat, maxDeepRam: nat, minBlockRamUtilization: nat, minDeepRamUtilization: nat)

  /** Where the candidates are, what is used, and who may move on, the best value for money first. */
  datatype Snapshot = Snapshot(placement: seq<Kind>, block: nat, deep: nat, toBlock: seq<nat>, toDeep: seq<nat>)

  /** What the queue for block RAM is sorted by. */
  function LutRate(c: Candidate): (rate: real)
    ensures rate == c.lutRamsSavedPerBlock
  {
    c.lutRamsSavedPerBlock
  }

  /** What the queue for deep RAM is sorted by. */
  function BlockRate(c: Candidate): (rate: real)
    ensures rate == c.blockRamsSavedPerDeep
  {
    c.blockRamsSavedPerDeep
  }

  ghost predicate Indices(items: seq<Candidate>, s: seq<nat>) {
    forall k :: 0 <= k < |s| ==> s[k] < |items|
  }

  /** Index i is put in front of the first one that saves less. */
  ghost predicate IsInserted(items: seq<Candidate>, rate: Candidate -> real, s: seq<nat>, i: nat, t: seq<nat>)
    requires Indices(items, s) && i < |items|
  {
    exists at: nat ::
      && at <= |s| && t == s[..at] + [i] + s[at..]
      && (forall k :: 0 <= k < at ==> rate(items[s[k]]) >= rate(items[i]))
      && (at < |s| ==> rate(items[s[at]]) < rate(items[i]))
  }

  /** There is room for c in block RAM, and it would fill it well enough. */
  ghost predicate FitsBlock(limits: Limits, c: Candidate, used: nat) {
    && used < limits.maxBlockRam && used + c.blockRamsNeeded <= limits.maxBlockRam
    && c.blockRamUtilization >= limits.minBlockRamUtilization
  }

  ghost predicate FitsDeep(limits: Limits, c: Candidate, used: nat) {
    && used < limits.maxDeepRam && used + c.deepRamsNeeded <= limits.maxDeepRam
    && c.deepRamUtilization >= limits.minDeepRamUtilization
  }

  /** What has moved to block RAM may move on to deep RAM. */
  ghost predicate MayGoDeep(limits: Limits, c: Candidate) { limits.maxDeepRam > 0 && c.deepRamsNeeded > 0 }

  /** Candidate number i is added to what s holds: in LUT RAM if it may be there, else in block RAM. */
  ghost predicate IsAdded(items: seq<Candidate>, limits: Limits, i: nat, s: Snapshot, t: Snapshot) {
    && i < |items| && Indices(items, s.toBlock) && Indices(items, s.toDeep) && t.deep == s.deep
    && var c := items[i];
       if c.lutRamsNeeded > 0 then
         && t.placement == s.placement + [Lut] && t.block == s.block && t.toDeep == s.toDeep
         && IsInserted(items, LutRate, s.toBlock, i, t.toBlock)
       else
         && t.placement == s.placement + [Block] && t.block == s.block + c.blockRamsNeeded && t.toBlock == s.toBlock
         && if MayGoDeep(limits, c) then IsInserted(items, BlockRate, s.toDeep, i, t.toDeep) else t.toDeep == s.toDeep
  }

  ghost predicate AddedOneByOne(items: seq<Candidate>, limits: Limits, all: seq<Snapshot>) {
    && all != [] && all[0] == Snapshot([], 0, 0, [], [])
    && forall i :: 0 <= i < |all| - 1 ==> IsAdded(items, limits, i, all[i], all[i + 1])
  }

  /** All candidates have been added, one by one. */
  ghost predicate IsInitial(items: seq<Candidate>, limits: Limits, s: Snapshot) {
    exists all :: AddedOneByOne(items, limits, all) && |all| == |items| + 1 && all[|items|] == s
  }

  /** The turn of one candidate: it moves if it fits. */
  ghost predicate BlockTurn(items: seq<Candidate>, limits: Limits, i: nat, used: nat, deeps: seq<nat>, used2: nat,
                            deeps2: seq<nat>)
    requires i < |items| && Indices(items, deeps)
  {
    var c := items[i];
    if !FitsBlock(limits, c, used) then used2 == used && deeps2 == deeps
    else
      && used2 == used + c.blockRamsNeeded
      && if MayGoDeep(limits, c) then IsInserted(items, BlockRate, deeps, i, deeps2) else deeps2 == deeps
  }

  /** The turns of the first candidates of `queue`: used[j] and deeps[j] are what holds before turn j. */
  ghost predicate BlockTurns(items: seq<Candidate>, limits: Limits, queue: seq<nat>, used: seq<nat>,
                             deeps: seq<seq<nat>>)
  {
    && |used| == |deeps| > 0 && |used| <= |queue| + 1 && Indices(items, queue)
    && (forall j :: 0 <= j < |deeps| ==> Indices(items, deeps[j]))
    && (forall j :: 0 <= j < |used| - 1 ==>
          BlockTurn(items, limits, queue[j], used[j], deeps[j], used[j + 1], deeps[j + 1]))
  }

  /** Whoever had a turn and fitted is in block RAM, the others are where they were. */
  ghost predicate PlacedAfter(items: seq<Candidate>, limits: Limits, queue: seq<nat>, used: seq<nat>, n: nat,
                              before: seq<Kind>, after: seq<Kind>)
    requires n <= |queue| && n <= |used| && Indices(items, queue)
  {
    && |before| == |after| == |items|
    && (forall j :: 0 <= j < n ==>
          after[queue[j]] == if FitsBlock(limits, items[queue[j]], used[j]) then Block else before[queue[j]])
    && (forall i: nat :: i < |items| && i !in queue[..n] ==> after[i] == before[i])
  }

  /** Whoever had a turn and did not fit stays in the queue, in the same order. */
  ghost function Staying(items: seq<Candidate>, limits: Limits, queue: seq<nat>, used: seq<nat>, n: nat): seq<nat>
    requires n <= |queue| && n <= |used| && Indices(items, queue)
  {
    if n == 0 then []
    else
      Staying(items, limits, queue, used, n - 1)
      + if FitsBlock(limits, items[queue[n - 1]], used[n - 1]) then [] else [queue[n - 1]]
  }

  /** Everybody in LUT RAM gets a turn, in order. */
  ghost predicate BlockPass(items: seq<Candidate>, limits: Limits, s: Snapshot, t: Snapshot) {
    exists used: seq<nat>, deeps: seq<seq<nat>> ::
      && BlockTurns(items, limits, s.toBlock, used, deeps) && |used| == |s.toBlock| + 1
      && used[0] == s.block && deeps[0] == s.toDeep
      && PlacedAfter(items, limits, s.toBlock, used, |s.toBlock|, s.placement, t.placement)
      && t == Snapshot(t.placement, used[|s.toBlock|], s.deep,
                       Staying(items, limits, s.toBlock, used, |s.toBlock|), deeps[|s.toBlock|])
  }

  /** Number k is the first that could go from block to deep RAM and fits. */
  ghost predicate FirstToDeep(items: seq<Candidate>, limits: Limits, s: Snapshot, k: nat) {
    && Indices(items, s.toDeep) && k < |s.toDeep| && FitsDeep(limits, items[s.toDeep[k]], s.deep)
    && forall j :: 0 <= j < k ==> !FitsDeep(limits, items[s.toDeep[j]], s.deep)
  }

  /** The first one that fits moves to deep RAM; if none does nothing changes. */
  ghost predicate DeepMove(items: seq<Candidate>, limits: Limits, s: Snapshot, t: Snapshot) {
    && Indices(items, s.toDeep)
    && if exists k: nat :: FirstToDeep(items, limits, s, k)
       then exists k: nat :: FirstToDeep(items, limits, s, k) && IsMovedDeep(items, s, t, k)
       else t == s
  }

  ghost predicate IsMovedDeep(items: seq<Candidate>, s: Snapshot, t: Snapshot, k: nat)
    requires Indices(items, s.toDeep) && k < |s.toDeep|
  {
    var i := s.toDeep[k];
    && i < |s.placement| && items[i].blockRamsNeeded <= s.block
    && t == Snapshot(s.placement[i := Deep], s.block - items[i].blockRamsNeeded, s.deep + items[i].deepRamsNeeded,
                     s.toBlock, s.toDeep[..k] + s.toDeep[k + 1..])
  }

  /** A round: a pass over those in LUT RAM, then at most one move to deep RAM. */
  ghost predicate Round(items: seq<Candidate>, limits: Limits, s: Snapshot, t: Snapshot) {
    exists mid :: BlockPass(items, limits, s, mid) && DeepMove(items, limits, mid, t)
  }

  /** Every snapshot is what a round makes of the one before; all rounds but perhaps the last changed something. */
  ghost predicate AllRounds(items: seq<Candidate>, limits: Limits, run: seq<Snapshot>, atEnd: bool) {
    && (forall k :: 0 <= k < |run| - 1 ==> Round(items, limits, run[k], run[k + 1]))
    && (forall k :: 0 <= k < (if atEnd then |run| - 2 else |run| - 1) ==> run[k] != run[k + 1])
    && (atEnd ==> |run| > 1 && run[|run| - 2] == run[|run| - 1])
  }

  /** Rounds are run as long as something moves, and one more. */
  ghost predicate IsRun(items: seq<Candidate>, limits: Limits, run: seq<Snapshot>) {
    run != [] && AllRounds(items, limits, run, true)
  }

  // ---- A pass, turn by turn ----

  /** t is where a pass that began at s is after the turns recorded in `used` and `deeps`. */
  ghost predicate InPass(items: seq<Candidate>, limits: Limits, s: Snapshot, used: seq<nat>, deeps: seq<seq<nat>>,
                         t: Snapshot)
  {
    && BlockTurns(items, limits, s.toBlock, used, deeps) && used[0] == s.block && deeps[0] == s.toDeep
    && PlacedAfter(items, limits, s.toBlock, used, |used| - 1, s.placement, t.placement)
    && t.block == used[|used| - 1] && t.deep == s.deep && t.toDeep == deeps[|used| - 1]
    && t.toBlock == Staying(items, limits, s.toBlock, used, |used| - 1) + s.toBlock[|used| - 1..]
  }

  lemma PassBegins(items: seq<Candidate>, limits: Limits, s: Snapshot)
    requires Indices(items, s.toBlock) && Indices(items, s.toDeep) && |s.placement| == |items|
    ensures InPass(items, limits, s, [s.block], [s.toDeep], s)
  {
    assert s.toBlock[0..] == s.toBlock == [] + s.toBlock;
  }

  lemma {:induction false} StayingSame(items: seq<Candidate>, limits: Limits, queue: seq<nat>, used: seq<nat>, x: nat,
                                       n: nat)
    requires n <= |queue| && n <= |used| && Indices(items, queue)
    ensures Staying(items, limits, queue, used + [x], n) == Staying(items, limits, queue, used, n)
  {
    if n > 0 { StayingSame(items, limits, queue, used, x, n - 1); }
  }

  lemma TurnsGrow(items: seq<Candidate>, limits: Limits, queue: seq<nat>, used: seq<nat>, deeps: seq<seq<nat>>,
                  used2: nat, deeps2: seq<nat>)
    requires BlockTurns(items, limits, queue, used, deeps) && |used| <= |queue| && Indices(items, deeps2)
    requires BlockTurn(items, limits, queue[|used| - 1], used[|used| - 1], deeps[|used| - 1], used2, deeps2)
    ensures BlockTurns(items, limits, queue, used + [used2], deeps + [deeps2])
  {
  }

  lemma PlacedOneMore(items: seq<Candidate>, limits: Limits, queue: seq<nat>, used: seq<nat>, x: nat, n: nat,
                      before: seq<Kind>, after: seq<Kind>, after2: seq<Kind>)
    requires n < |queue| && n < |used| && Indices(items, queue)
    requires forall j, k :: 0 <= j < k < |queue| ==> queue[j] != queue[k]
    requires PlacedAfter(items, limits, queue, used, n, before, after)
    requires after2 == if FitsBlock(limits, items[queue[n]], used[n]) then after[queue[n] := Block] else after
    ensures PlacedAfter(items, limits, queue, used + [x], n + 1, before, after2)
  {
    var i := queue[n];
    assert i !in queue[..n];
    assert queue[..n + 1] == queue[..n] + [i];
    assert after[i] == before[i];
  }

  lemma StayingNext(items: seq<Candidate>, limits: Limits, queue: seq<nat>, used: seq<nat>, x: nat, n: nat)
    requires n < |queue| && n < |used| && Indices(items, queue)
    ensures var staying := Staying(items, limits, queue, used, n);
      && Staying(items, limits, queue, used + [x], n + 1) ==
         (if FitsBlock(limits, items[queue[n]], used[n]) then staying else staying + [queue[n]])
      && (staying + queue[n..])[..|staying|] + (staying + queue[n..])[|staying| + 1..] == staying + queue[n + 1..]
      && (staying + [queue[n]]) + queue[n + 1..] == staying + queue[n..]
  {
    StayingSame(items, limits, queue, used, x, n);
    assert queue[n..] == [queue[n]] + queue[n + 1..];
  }

  ghost predicate NoneFits(items: seq<Candidate>, limits: Limits, queue: seq<nat>, n: nat, used: nat) {
    n <= |queue| && Indices(items, queue) && forall j :: 0 <= j < n ==> !FitsBlock(limits, items[queue[j]], used)
  }

  /** The next in the queue has its turn. */
  lemma PassGoesOn(items: seq<Candidate>, limits: Limits, s: Snapshot, used: seq<nat>, deeps: seq<seq<nat>>,
                   t: Snapshot, t2: Snapshot)
    requires InPass(items, limits, s, used, deeps, t) && |used| <= |s.toBlock| && Indices(items, t2.toDeep)
    requires forall j, k :: 0 <= j < k < |s.toBlock| ==> s.toBlock[j] != s.toBlock[k]
    requires BlockTurn(items, limits, s.toBlock[|used| - 1], t.block, t.toDeep, t2.block, t2.toDeep)
    requires var n := |Staying(items, limits, s.toBlock, used, |used| - 1)|;
      var fits := FitsBlock(limits, items[s.toBlock[|used| - 1]], t.block);
      && t2.placement == (if fits then t.placement[s.toBlock[|used| - 1] := Block] else t.placement)
      && t2.toBlock == (if fits then t.toBlock[..n] + t.toBlock[n + 1..] else t.toBlock) && t2.deep == t.deep
    ensures InPass(items, limits, s, used + [t2.block], deeps + [t2.toDeep], t2)
  {
    var n := |used| - 1;
    TurnsGrow(items, limits, s.toBlock, used, deeps, t2.block, t2.toDeep);
    PlacedOneMore(items, limits, s.toBlock, used, t2.block, n, s.placement, t.placement, t2.placement);
    StayingNext(items, limits, s.toBlock, used, t2.block, n);
  }

  /** The turn of number k in the shrinking queue. */
  lemma TurnTaken(items: seq<Candidate>, limits: Limits, s: Snapshot, used: seq<nat>, deeps: seq<seq<nat>>,
                  t: Snapshot, t2: Snapshot, k: nat, moved: bool)
    requires InPass(items, limits, s, used, deeps, t) && Indices(items, t2.toDeep) && Indices(items, t.toDeep)
    requires forall i, j :: 0 <= i < j < |s.toBlock| ==> s.toBlock[i] != s.toBlock[j]
    requires k == |Staying(items, limits, s.toBlock, used, |used| - 1)| < |t.toBlock| && Indices(items, t.toBlock)
    requires moved <==> FitsBlock(limits, items[t.toBlock[k]], t.block)
    requires !moved ==> t2 == t
    requires moved ==>
      && BlockTurn(items, limits, t.toBlock[k], t.block, t.toDeep, t2.block, t2.toDeep) && t2.deep == t.deep
      && t.toBlock[k] < |t.placement| && t2.placement == t.placement[t.toBlock[k] := Block]
      && t2.toBlock == t.toBlock[..k] + t.toBlock[k + 1..]
    ensures InPass(items, limits, s, used + [t2.block], deeps + [t2.toDeep], t2)
    ensures |Staying(items, limits, s.toBlock, used + [t2.block], |used|)| == if moved then k else k + 1
  {
    var n := |used| - 1;
    assert t.toBlock[k] == s.toBlock[n];
    PassGoesOn(items, limits, s, used, deeps, t, t2);
    StayingNext(items, limits, s.toBlock, used, t2.block, n);
  }

  lemma PassEnds(items: seq<Candidate>, limits: Limits, s: Snapshot, used: seq<nat>, deeps: seq<seq<nat>>, t: Snapshot)
    requires InPass(items, limits, s, used, deeps, t) && |used| == |s.toBlock| + 1
    ensures BlockPass(items, limits, s, t)
  {
    var n := |s.toBlock|;
    assert s.toBlock[n..] == [];
    assert t == Snapshot(t.placement, used[n], s.deep, Staying(items, limits, s.toBlock, used, n), deeps[n]);
  }

  /** Once the block RAMs are used up nobody else moves. */
  lemma {:induction false} PassIsFull(items: seq<Candidate>, limits: Limits, s: Snapshot, used: seq<nat>,
                                      deeps: seq<seq<nat>>, t: Snapshot)
    requires InPass(items, limits, s, used, deeps, t) && t.block >= limits.maxBlockRam
    requires forall j, k :: 0 <= j < k < |s.toBlock| ==> s.toBlock[j] != s.toBlock[k]
    ensures BlockPass(items, limits, s, t)
    decreases |s.toBlock| + 1 - |used|
  {
    if |used| == |s.toBlock| + 1 {
      PassEnds(items, limits, s, used, deeps, t);
    } else {
      PassGoesOn(items, limits, s, used, deeps, t, t);
      PassIsFull(items, limits, s, used + [t.block], deeps + [t.toDeep], t);
    }
  }

  // ---- Runs ----

  lemma OneMoreAdded(items: seq<Candidate>, limits: Limits, all: seq<Snapshot>, t: Snapshot)
    requires AddedOneByOne(items, limits, all) && IsAdded(items, limits, |all| - 1, all[|all| - 1], t)
    ensures AddedOneByOne(items, limits, all + [t])
  {
    forall i | 0 <= i < |all + [t]| - 1
      ensures IsAdded(items, limits, i, (all + [t])[i], (all + [t])[i + 1])
    {
      assert i < |all| - 1 ==> IsAdded(items, limits, i, all[i], all[i + 1]);
    }
  }

  lemma RunGoesOn(items: seq<Candidate>, limits: Limits, run: seq<Snapshot>, t: Snapshot, atEnd: bool)
    requires run != [] && AllRounds(items, limits, run, false) && Round(items, limits, run[|run| - 1], t)
    requires atEnd <==> t == run[|run| - 1]
    ensures AllRounds(items, limits, run + [t], atEnd)
  {
    var more := run + [t];
    forall k | 0 <= k < |more| - 1
      ensures Round(items, limits, more[k], more[k + 1])
    {
      assert k < |run| - 1 ==> Round(items, limits, run[k], run[k + 1]);
    }
  }

  /** The loop of a pass ends when everybody had a turn or nothing is left. */
  lemma PassOver(items: seq<Candidate>, limits: Limits, s: Snapshot, used: seq<nat>, deeps: seq<seq<nat>>, t: Snapshot,
                 k: nat)
    requires InPass(items, limits, s, used, deeps, t)
    requires k == |Staying(items, limits, s.toBlock, used, |used| - 1)|
    requires k >= |t.toBlock| || t.block >= limits.maxBlockRam
    requires forall i, j :: 0 <= i < j < |s.toBlock| ==> s.toBlock[i] != s.toBlock[j]
    ensures BlockPass(items, limits, s, t)
  {
    if t.block >= limits.maxBlockRam {
      PassIsFull(items, limits, s, used, deeps, t);
    } else {
      PassEnds(items, limits, s, used, deeps, t);
    }
  }
}
