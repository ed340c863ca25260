// Why the enumeration ends although inline calls always make new instances. Pending instances are tokens; the
// level of a token is the number of ancestors stored for its key. Processing a token on a level adds tokens on the
// next level, and overwriting the ancestors of a key moves its tokens there, possibly down from higher levels.
module EnumerationTermination {
  import opened Collections
  import opened CallGraphs
  import opened EnumerationInvariants
  import opened Countdown

  ghost function Level(s: State, k: Key): nat {
    if k in s.parents then |s.parents[k]| else 0
  }

  ghost function TokensAt(s: State, e: nat): set<Instance> {
    set x | x in s.workList && Level(s, x.key) == e
  }

  ghost function LevelCounts(s: State, n: nat): (v: seq<nat>)
    ensures |v| == n && forall e :: 0 <= e < n ==> v[e] == |TokensAt(s, e)|
  {
    seq(n, e requires 0 <= e < n => |TokensAt(s, e)|)
  }

  /** The most calls any instance makes. */
  ghost function MostCalls(g: CallGraph, keys: set<Key>): (m: nat)
    ensures forall k :: k in keys ==> |g.calls(k)| <= m
    decreases |keys|
  {
    if keys == {} then 0
    else
      var k :| k in keys;
      var rest := MostCalls(g, keys - {k});
      assert keys == keys - {k} + {k};
      if |g.calls(k)| <= rest then rest else |g.calls(k)|
  }

  /** At most this many instances are still to be processed. */
  ghost function StepsLeft(g: CallGraph, s: State): nat {
    Measure(LevelCounts(s, |g.keys| + 1), MostCalls(g, g.keys), |s.workList|)
  }

  ghost predicate SameParents(s: State, t: State, k: Key) {
    (k in s.parents <==> k in t.parents) && (k in s.parents ==> s.parents[k] == t.parents[k])
  }

  ghost predicate Has(t: State, k: Key, P: set<Key>) {
    k in t.parents && t.parents[k] == P
  }

  /** From s to t, ancestor sets were only overwritten with P, and only instances with ancestors P were added. */
  ghost predicate Spread(s: State, t: State, P: set<Key>) {
    && (forall k :: SameParents(s, t, k) || Has(t, k, P))
    && (forall y :: y in t.workList ==> y in s.workList || Has(t, y.key, P))
  }

  lemma {:induction false} CallsSpread(g: CallGraph, s: State, P: set<Key>, cs: seq<Key>)
    requires Calls(g, s, P, cs).Some?
    ensures Spread(s, Calls(g, s, P, cs).value, P)
    ensures |Calls(g, s, P, cs).value.workList| <= |s.workList| + |cs|
    decreases |cs|
  {
    if cs != [] {
      var init, c := cs[..|cs| - 1], cs[|cs| - 1];
      var t := Calls(g, s, P, init);
      CallsSpread(g, s, P, init);
      CallSpreads(g, s, t.value, P, c);
    }
  }

  lemma CallSpreads(g: CallGraph, s: State, t: State, P: set<Key>, c: Key)
    requires Spread(s, t, P) && Call(g, t, P, c).Some?
    ensures Spread(s, Call(g, t, P, c).value, P)
    ensures |Call(g, t, P, c).value.workList| <= |t.workList| + 1
  {
    var u := Call(g, t, P, c).value;
    forall k
      ensures SameParents(s, u, k) || Has(u, k, P)
    {
      assert SameParents(s, t, k) || Has(t, k, P);
    }
    var y := Callee(g, t, c);
    if y !in t.visited {
      if y in t.workList { assert t.workList + {y} == t.workList; }
      assert u.workList == t.workList + {y};
    }
  }

  /** Below the new ancestors' level no tokens appear. */
  lemma LowLevelsOnlyLose(s: State, x: Instance, t: State, P: set<Key>, e: nat)
    requires Spread(Taken(s, x), t, P) && e < |P|
    ensures TokensAt(t, e) <= TokensAt(s, e) - {x}
  {
    forall y | y in TokensAt(t, e)
      ensures y in TokensAt(s, e) - {x}
    {
      assert SameParents(Taken(s, x), t, y.key) || Has(t, y.key, P);
      assert y in Taken(s, x).workList;
    }
  }

  lemma {:induction false} FirstDrop(v: seq<nat>, w: seq<nat>, d: nat) returns (e: nat)
    requires |v| == |w| && d < |v| && w[d] < v[d] && forall i :: 0 <= i < d ==> w[i] <= v[i]
    ensures DropsAt(v, w, e)
    decreases d
  {
    if i: nat :| i < d && w[i] < v[i] {
      e := FirstDrop(v, w, i);
    } else {
      e := d;
      assert forall i :: 0 <= i < d ==> w[i] == v[i];
    }
  }

  lemma LevelBounded(g: CallGraph, s: State, k: Key)
    requires TrueAncestors(g, s)
    ensures Level(s, k) <= |g.keys|
  {
    if k in s.parents {
      assert AncestorsOf(g, s.parents[k], k);
      SubsetSize(s.parents[k], g.keys);
    }
  }

  lemma AncestorsAreOneMore(g: CallGraph, s: State, k: Key)
    requires TrueAncestors(g, s)
    ensures |Ancestors(s, k)| == Level(s, k) + 1
  {
    if k in s.parents { assert AncestorsOf(g, s.parents[k], k); }
  }

  lemma TokensFit(s: State, n: nat)
    ensures forall e :: 0 <= e < n ==> LevelCounts(s, n)[e] <= |s.workList|
  {
    forall e | 0 <= e < n
      ensures LevelCounts(s, n)[e] <= |s.workList|
    {
      SubsetSize(TokensAt(s, e), s.workList);
    }
  }

  lemma CountsDrop(s: State, x: Instance, t: State, P: set<Key>, n: nat) returns (e: nat)
    requires Spread(Taken(s, x), t, P) && x in s.workList && |P| == Level(s, x.key) + 1 && Level(s, x.key) < n
    ensures DropsAt(LevelCounts(s, n), LevelCounts(t, n), e)
  {
    var d := Level(s, x.key);
    forall i: nat | i <= d
      ensures |TokensAt(t, i)| <= |TokensAt(s, i)|
    {
      LowLevelsOnlyLose(s, x, t, P, i);
      SubsetSize(TokensAt(t, i), TokensAt(s, i));
    }
    LowLevelsOnlyLose(s, x, t, P, d);
    SubsetSize(TokensAt(t, d), TokensAt(s, d) - {x});
    assert x in TokensAt(s, d);
    e := FirstDrop(LevelCounts(s, n), LevelCounts(t, n), d);
  }

  /** Every processed instance brings the end closer. */
  lemma ProcessComesCloser(g: CallGraph, roots: set<Key>, s: State, x: Instance)
    requires Closed(g) && Invariant(g, roots, s) && x in s.workList && Process(g, s, x).Some?
    ensures StepsLeft(g, Process(g, s, x).value) < StepsLeft(g, s)
  {
    var t := Process(g, s, x).value;
    var n, P, grow := |g.keys| + 1, Ancestors(s, x.key), MostCalls(g, g.keys);
    assert KnownInstance(g, roots, s, x);
    CallsSpread(g, Taken(s, x), P, g.calls(x.key));
    LevelBounded(g, s, x.key);
    AncestorsAreOneMore(g, s, x.key);
    var e := CountsDrop(s, x, t, P, n);
    TokensFit(t, n);
    assert |Taken(s, x).workList| <= |s.workList|;
    MeasureDrops(LevelCounts(s, n), LevelCounts(t, n), e, grow, |s.workList|, |t.workList|);
  }
}
