/** Information per local register, ordered by how much it promises. */
module RegisterMaps {
  type Reg = nat

  type RegMap<T> = map<Reg, T>

  ghost predicate Commutes<T>(join: (T, T) -> T, a: T, b: T) { join(a, b) == join(b, a) }

  ghost predicate Associates<T>(join: (T, T) -> T, a: T, b: T, c: T) { join(join(a, b), c) == join(a, join(b, c)) }

  /** Joining is associative, commutative and idempotent, and whoever loses by a join loses height. */
  ghost predicate IsSemilattice<T(!new)>(join: (T, T) -> T, height: T -> nat) {
    && (forall a :: join(a, a) == a)
    && (forall a, b :: Commutes(join, a, b))
    && (forall a, b, c :: Associates(join, a, b, c))
    && (forall a, b :: join(a, b) == a && a != b ==> height(a) < height(b))
  }

  ghost predicate Below<T>(join: (T, T) -> T, a: T, b: T) { join(a, b) == a }

  /** a promises no more than b, on no more registers. The empty map is the least. */
  ghost predicate Leq<T>(join: (T, T) -> T, a: RegMap<T>, b: RegMap<T>) {
    forall r :: r in a ==> r in b && Below(join, a[r], b[r])
  }

  /** Registers must appear in both maps. */
  function Join<T>(join: (T, T) -> T, a: RegMap<T>, b: RegMap<T>): RegMap<T> {
    map r | r in a && r in b :: join(a[r], b[r])
  }

  lemma BelowTrans<T(!new)>(join: (T, T) -> T, height: T -> nat, a: T, b: T, c: T)
    requires IsSemilattice(join, height) && Below(join, a, b) && Below(join, b, c)
    ensures Below(join, a, c)
  {
    assert Associates(join, a, b, c);
  }

  lemma LeqTrans<T(!new)>(join: (T, T) -> T, height: T -> nat, a: RegMap<T>, b: RegMap<T>, c: RegMap<T>)
    requires IsSemilattice(join, height) && Leq(join, a, b) && Leq(join, b, c)
    ensures Leq(join, a, c)
  {
    forall r | r in a
      ensures r in c && Below(join, a[r], c[r])
    {
      BelowTrans(join, height, a[r], b[r], c[r]);
    }
  }

  lemma LeqRefl<T(!new)>(join: (T, T) -> T, height: T -> nat, a: RegMap<T>)
    requires IsSemilattice(join, height)
    ensures Leq(join, a, a)
  {
  }

  lemma LeqAntisymmetric<T(!new)>(join: (T, T) -> T, height: T -> nat, a: RegMap<T>, b: RegMap<T>)
    requires IsSemilattice(join, height) && Leq(join, a, b) && Leq(join, b, a)
    ensures a == b
  {
    forall r | r in a
      ensures a[r] == b[r]
    {
      assert Commutes(join, a[r], b[r]);
      assert Below(join, a[r], b[r]) && Below(join, b[r], a[r]);
    }
    assert a.Keys == b.Keys;
  }

  /** The join of two maps is their greatest lower bound. */
  lemma JoinIsGreatestLowerBound<T(!new)>(join: (T, T) -> T, height: T -> nat, a: RegMap<T>, b: RegMap<T>, m: RegMap<T>)
    requires IsSemilattice(join, height)
    ensures Leq(join, m, Join(join, a, b)) <==> Leq(join, m, a) && Leq(join, m, b)
  {
    forall r | r in m && r in a && r in b
      ensures Below(join, m[r], join(a[r], b[r])) <==> Below(join, m[r], a[r]) && Below(join, m[r], b[r])
    {
      ElementGlb(join, height, a[r], b[r], m[r]);
    }
    if Leq(join, m, Join(join, a, b)) {
      forall r | r in m
        ensures r in a && r in b
      {
        assert r in Join(join, a, b);
      }
    }
  }

  lemma ElementGlb<T(!new)>(join: (T, T) -> T, height: T -> nat, a: T, b: T, m: T)
    requires IsSemilattice(join, height)
    ensures Below(join, m, join(a, b)) <==> Below(join, m, a) && Below(join, m, b)
  {
    var g := join(a, b);
    assert join(g, a) == g by {
      assert Commutes(join, a, b) && Associates(join, b, a, a);
    }
    assert join(g, b) == g by {
      assert Associates(join, a, b, b);
    }
    if Below(join, m, g) {
      BelowTrans(join, height, m, g, a);
      BelowTrans(join, height, m, g, b);
    }
    if Below(join, m, a) && Below(join, m, b) {
      assert Associates(join, m, a, b);
    }
  }

  // ---- How often a map can still weaken ----

  ghost function Rank<T(!new)>(height: T -> nat, m: RegMap<T>): nat
    decreases |m|
  {
    if m == map[] then 0
    else
      var r :| r in m;
      1 + height(m[r]) + Rank(height, m - {r})
  }

  lemma {:induction false} RankRemove<T(!new)>(height: T -> nat, m: RegMap<T>, r: Reg)
    requires r in m
    ensures Rank(height, m) == 1 + height(m[r]) + Rank(height, m - {r})
    decreases |m|
  {
    var q :| q in m && Rank(height, m) == 1 + height(m[q]) + Rank(height, m - {q});
    if q != r {
      RankRemove(height, m - {q}, r);
      RankRemove(height, m - {r}, q);
      assert m - {q} - {r} == m - {r} - {q};
    }
  }

  /** Weakening a map strictly lowers its rank. */
  lemma {:induction false} RankDrops<T(!new)>(join: (T, T) -> T, height: T -> nat, a: RegMap<T>, b: RegMap<T>)
    requires IsSemilattice(join, height) && Leq(join, a, b)
    ensures Rank(height, a) <= Rank(height, b)
    ensures a != b ==> Rank(height, a) < Rank(height, b)
    decreases |b|
  {
    if b == map[] {
      assert a == map[];
    } else {
      var r :| r in b;
      RankRemove(height, b, r);
      var rest := b - {r};
      if r in a {
        RankRemove(height, a, r);
        RankDrops(join, height, a - {r}, rest);
        assert Below(join, a[r], b[r]);
        if a - {r} == rest && a[r] == b[r] {
          assert a == (a - {r})[r := a[r]] && b == rest[r := b[r]];
        }
      } else {
        RankDrops(join, height, a, rest);
      }
    }
  }
}
