/** How a memory of given width and depth is put together from RAM atoms. */
module MemoryComposition {
  const SIZE_MAX: nat := 0xFFFF_FFFF_FFFF_FFFF

  datatype Config = Config(width: nat, depth: nat, cost: nat)

  datatype Composition = Composition(atomCount: nat, atomWidth: nat, atomDepth: nat, atomCost: nat, numAtomsWide: nat,
                                     numAtomsDeep: nat, utilization: nat)

  function DivideUp(a: nat, b: nat): nat
    requires b > 0
  {
    (a + b - 1) / b
  }

  /** Enough, and not one too many. */
  lemma DivideUpCovers(a: nat, b: nat)
    requires b > 0
    ensures a <= b * DivideUp(a, b) < a + b
  {
    assert (a + b - 1) == b * ((a + b - 1) / b) + (a + b - 1) % b;
  }

  /** Atoms that have a width have a depth. */
  ghost predicate ValidConfigs(configs: seq<Config>) {
    forall i :: 0 <= i < |configs| && configs[i].width > 0 ==> configs[i].depth > 0
  }

  lemma TimesMonotone(a: nat, b: nat, c: nat, d: nat)
    requires a <= c && b <= d
    ensures a * b <= c * d
  {
  }

  lemma UtilizationFits(c: Config, width: nat, depth: nat)
    requires c.width > 0 && c.depth > 0 && c.width * c.depth * DivideUp(width, c.width) * DivideUp(depth, c.depth) > 0
    ensures (width * depth * 100) / (c.width * c.depth * DivideUp(width, c.width) * DivideUp(depth, c.depth)) <= 100
  {
    DivideUpCovers(width, c.width);
    DivideUpCovers(depth, c.depth);
    var w, d := DivideUp(width, c.width), DivideUp(depth, c.depth);
    TimesMonotone(width, depth, c.width * w, c.depth * d);
    assert c.width * w * (c.depth * d) == c.width * c.depth * w * d by { Regroup(c.width, w, c.depth, d); }
    QuotientFits(width * depth, c.width * c.depth * w * d);
  }

  lemma Regroup(a: nat, b: nat, c: nat, d: nat)
    ensures a * b * (c * d) == a * c * b * d
  {
    assert a * b * (c * d) == a * (b * c) * d;
  }

  lemma QuotientFits(a: nat, b: nat)
    requires 0 < b && a <= b
    ensures (a * 100) / b <= 100
  {
    if (a * 100) / b >= 101 {
      assert a * 100 == b * ((a * 100) / b) + (a * 100) % b;
      TimesMonotone(b, 101, b, (a * 100) / b);
    }
  }

  function Percent(used: nat, total: nat): nat {
    if total == 0 then 100 else (used * 100) / total
  }

  /** The composition out of atoms of configuration c. */
  function Compose(c: Config, width: nat, depth: nat, replicaCount: nat): Composition
    requires c.width > 0 && c.depth > 0
  {
    var numWide, numDeep := DivideUp(width, c.width), DivideUp(depth, c.depth);
    var atoms := numWide * numDeep * replicaCount;
    Composition(atoms, c.width, c.depth, c.cost, numWide, numDeep,
                if atoms == 0 then 100 else Percent(width * depth, c.width * c.depth * numWide * numDeep))
  }

  /** The atoms cover the memory and utilization is a percentage. */
  lemma UtilizationAtMostAll(c: Config, width: nat, depth: nat)
    requires c.width > 0 && c.depth > 0
    ensures Percent(width * depth, c.width * c.depth * DivideUp(width, c.width) * DivideUp(depth, c.depth)) <= 100
  {
    if c.width * c.depth * DivideUp(width, c.width) * DivideUp(depth, c.depth) > 0 { UtilizationFits(c, width, depth); }
  }

  lemma ComposeCovers(c: Config, width: nat, depth: nat, replicaCount: nat)
    requires c.width > 0 && c.depth > 0
    ensures var r := Compose(c, width, depth, replicaCount);
            && width <= r.numAtomsWide * r.atomWidth && depth <= r.numAtomsDeep * r.atomDepth
            && r.atomCount == r.numAtomsWide * r.numAtomsDeep * replicaCount && r.utilization <= 100
  {
    DivideUpCovers(width, c.width);
    DivideUpCovers(depth, c.depth);
    UtilizationAtMostAll(c, width, depth);
  }

  const NONE := Composition(SIZE_MAX, 0, 0, 0, 0, 0, 0)

  // ---- What a composition is ----

  /** n atoms of that size are enough, and one less is not. */
  ghost predicate LeastCover(size: nat, atom: nat, n: nat) {
    size <= n * atom && (n > 0 ==> (n - 1) * atom < size)
  }

  /** u is the share of used in total in percent, rounded down. */
  ghost predicate PercentOf(used: nat, total: nat, u: nat) {
    u * total <= used * 100 < (u + 1) * total
  }

  /** r says how the memory is made of atoms of configuration c. */
  ghost predicate IsComposition(c: Config, width: nat, depth: nat, replicaCount: nat, r: Composition) {
    && r.atomWidth == c.width && r.atomDepth == c.depth && r.atomCost == c.cost
    && LeastCover(width, c.width, r.numAtomsWide) && LeastCover(depth, c.depth, r.numAtomsDeep)
    && r.atomCount == r.numAtomsWide * r.numAtomsDeep * replicaCount
    && (if r.atomCount == 0 then r.utilization == 100
        else PercentOf(width * depth, r.atomWidth * r.atomDepth * r.numAtomsWide * r.numAtomsDeep, r.utilization))
  }

  lemma LeastIsDivideUp(size: nat, atom: nat, n: nat)
    requires atom > 0
    ensures LeastCover(size, atom, n) <==> n == DivideUp(size, atom)
  {
    var m := DivideUp(size, atom);
    DivideUpCovers(size, atom);
    if n < m {
      TimesMonotone(n, atom, m - 1, atom);
    } else if n > m {
      TimesMonotone(m, atom, n - 1, atom);
    }
  }

  lemma PercentIsFloor(used: nat, total: nat, u: nat)
    requires total > 0
    ensures PercentOf(used, total, u) <==> u == Percent(used, total)
  {
    var q := (used * 100) / total;
    assert used * 100 == total * q + (used * 100) % total;
    if u < q {
      TimesMonotone(u + 1, total, q, total);
    } else if u > q {
      TimesMonotone(q + 1, total, u, total);
    }
  }

  lemma NoFactorIsZero(a: nat, b: nat, c: nat, d: nat, r: nat)
    requires a > 0 && b > 0 && c * d * r > 0
    ensures a * b * c * d > 0
  {
  }

  /** There is exactly one. */
  lemma ComposeIsComposition(c: Config, width: nat, depth: nat, replicaCount: nat, r: Composition)
    requires c.width > 0 && c.depth > 0
    ensures IsComposition(c, width, depth, replicaCount, r) <==> r == Compose(c, width, depth, replicaCount)
  {
    LeastIsDivideUp(width, c.width, r.numAtomsWide);
    LeastIsDivideUp(depth, c.depth, r.numAtomsDeep);
    if r.numAtomsWide == DivideUp(width, c.width) && r.numAtomsDeep == DivideUp(depth, c.depth)
       && r.numAtomsWide * r.numAtomsDeep * replicaCount > 0 {
      NoFactorIsZero(c.width, c.depth, r.numAtomsWide, r.numAtomsDeep, replicaCount);
      PercentIsFloor(width * depth, c.width * c.depth * r.numAtomsWide * r.numAtomsDeep, r.utilization);
    }
  }

  // ---- The choice ----

  /** The list ends at the first configuration without width. */
  ghost predicate Listed(configs: seq<Config>, i: nat) {
    i < |configs| && forall j :: 0 <= j <= i ==> configs[j].width > 0
  }

  /** Every composition out of the first n listed configurations needs at least `count` atoms, and more if it comes
      before number `best`. */
  ghost predicate NoneNeedsLess(configs: seq<Config>, n: nat, width: nat, depth: nat, replicaCount: nat, count: nat,
                                best: nat) {
    forall i: nat, other :: i < n && Listed(configs, i)
                            && IsComposition(configs[i], width, depth, replicaCount, other) ==>
      count <= other.atomCount && (i < best ==> count < other.atomCount)
  }

  ghost predicate BestAt(configs: seq<Config>, width: nat, depth: nat, replicaCount: nat, r: Composition, best: nat) {
    && Listed(configs, best) && IsComposition(configs[best], width, depth, replicaCount, r) && r.atomCount < SIZE_MAX
    && NoneNeedsLess(configs, |configs|, width, depth, replicaCount, r.atomCount, best)
  }

  /** r is composed of the first listed configuration with the fewest atoms; it is NONE if every one needs too many. */
  ghost predicate IsBest(configs: seq<Config>, width: nat, depth: nat, replicaCount: nat, r: Composition) {
    || (exists best :: BestAt(configs, width, depth, replicaCount, r, best))
    || (r == NONE && NoneNeedsLess(configs, |configs|, width, depth, replicaCount, SIZE_MAX, 0))
  }

  /** What is known after the first n listed configurations. */
  ghost predicate BestSoFar(configs: seq<Config>, n: nat, width: nat, depth: nat, replicaCount: nat, r: Composition,
                            best: nat) {
    if r == NONE then NoneNeedsLess(configs, n, width, depth, replicaCount, SIZE_MAX, 0)
    else
      && best < n && Listed(configs, best) && IsComposition(configs[best], width, depth, replicaCount, r)
      && r.atomCount < SIZE_MAX && NoneNeedsLess(configs, n, width, depth, replicaCount, r.atomCount, best)
  }

  lemma OneMoreConfig(configs: seq<Config>, n: nat, width: nat, depth: nat, replicaCount: nat, r: Composition,
                      best: nat, candidate: Composition)
    requires ValidConfigs(configs) && Listed(configs, n) && BestSoFar(configs, n, width, depth, replicaCount, r, best)
    requires IsComposition(configs[n], width, depth, replicaCount, candidate)
    ensures if candidate.atomCount < r.atomCount
            then BestSoFar(configs, n + 1, width, depth, replicaCount, candidate, n)
            else BestSoFar(configs, n + 1, width, depth, replicaCount, r, best)
  {
    ComposeIsComposition(configs[n], width, depth, replicaCount, candidate);
    forall other | IsComposition(configs[n], width, depth, replicaCount, other)
      ensures other == candidate
    {
      ComposeIsComposition(configs[n], width, depth, replicaCount, other);
    }
  }

  lemma AllConfigs(configs: seq<Config>, n: nat, width: nat, depth: nat, replicaCount: nat, r: Composition, best: nat)
    requires n <= |configs| && (n < |configs| ==> configs[n].width == 0)
    requires BestSoFar(configs, n, width, depth, replicaCount, r, best)
    ensures IsBest(configs, width, depth, replicaCount, r)
  {
    assert forall i: nat :: Listed(configs, i) ==> i < n;
    if r != NONE { assert BestAt(configs, width, depth, replicaCount, r, best); }
  }

  /**
   * The first configuration that needs the fewest atoms is taken. If none needs fewer than the largest number, which
   * includes the case that there is none, that number is the count.
   */
  method GetMemoryComposition(configs: seq<Config>, width: nat, depth: nat, replicaCount: nat)
    returns (result: Composition)
    requires ValidConfigs(configs)
    ensures IsBest(configs, width, depth, replicaCount, result) && result.utilization <= 100
  {
    result := NONE;
    ghost var best: nat := 0;
    var i := 0;
    while i < |configs| && configs[i].width != 0
      invariant 0 <= i <= |configs| && (forall j :: 0 <= j < i ==> configs[j].width > 0)
      invariant BestSoFar(configs, i, width, depth, replicaCount, result, best) && result.utilization <= 100
    {
      var candidate := Compose(configs[i], width, depth, replicaCount);
      ComposeIsComposition(configs[i], width, depth, replicaCount, candidate);
      ComposeCovers(configs[i], width, depth, replicaCount);
      OneMoreConfig(configs, i, width, depth, replicaCount, result, best, candidate);
      if candidate.atomCount < result.atomCount {
        result := candidate;
        best := i;
      }
      i := i + 1;
    }
    AllConfigs(configs, i, width, depth, replicaCount, result, best);
  }
}
