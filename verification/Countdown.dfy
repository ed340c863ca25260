// A measure for tokens on levels: a step removes a token from a level and may add up to a bounded number of
// tokens, but only on higher levels. However large the higher levels get, such steps come to an end.
module Countdown {
  /** At most this many steps are left for k levels holding at most c tokens, with up to grow new tokens a step. */
  ghost function Worst(k: nat, grow: nat, c: nat): nat
    decreases k, 0, 0
  {
    if k == 0 then 0
    else
      var rest := Worst(k - 1, grow, c);
      rest + After(c, k - 1, grow, c + grow * rest)
  }

  /** Steps left when the lowest level holds x tokens, everything above (k levels) is used up and c tokens were
      ever added. */
  ghost function After(x: nat, k: nat, grow: nat, c: nat): nat
    decreases k, 1, x
  {
    if x == 0 then 0
    else
      var rest := Worst(k, grow, c + grow);
      1 + rest + After(x - 1, k, grow, c + grow + grow * rest)
  }

  /** The measure of level counts v with c tokens in all. */
  ghost function Measure(v: seq<nat>, grow: nat, c: nat): nat
    decreases |v|
  {
    if v == [] then 0
    else
      var rest := Measure(v[1..], grow, c);
      rest + After(v[0], |v| - 1, grow, c + grow * rest)
  }

  lemma TimesMonotone(g: nat, a: nat, b: nat)
    requires a <= b
    ensures g * a <= g * b
  {
  }

  lemma {:induction false} WorstMonotone(k: nat, grow: nat, c: nat, d: nat)
    requires c <= d
    ensures Worst(k, grow, c) <= Worst(k, grow, d)
    decreases k, 0, 0
  {
    if k > 0 {
      WorstMonotone(k - 1, grow, c, d);
      var p, q := Worst(k - 1, grow, c), Worst(k - 1, grow, d);
      TimesMonotone(grow, p, q);
      AfterMonotone(c, d, k - 1, grow, c + grow * p, d + grow * q);
    }
  }

  lemma AfterUnfolds(x: nat, k: nat, grow: nat, c: nat, more: nat)
    requires x > 0 && more == c + grow + grow * Worst(k, grow, c + grow)
    ensures After(x, k, grow, c) == 1 + Worst(k, grow, c + grow) + After(x - 1, k, grow, more)
  {
  }

  lemma {:induction false} AfterMonotone(x: nat, y: nat, k: nat, grow: nat, c: nat, d: nat)
    requires x <= y && c <= d
    ensures After(x, k, grow, c) <= After(y, k, grow, d)
    decreases k, 1, x
  {
    if x > 0 {
      WorstMonotone(k, grow, c + grow, d + grow);
      var p, q := Worst(k, grow, c + grow), Worst(k, grow, d + grow);
      TimesMonotone(grow, p, q);
      var cp: nat, dq: nat := c + grow + grow * p, d + grow + grow * q;
      AfterUnfolds(x, k, grow, c, cp);
      AfterUnfolds(y, k, grow, d, dq);
      AfterMonotone(x - 1, y - 1, k, grow, cp, dq);
    }
  }

  lemma {:induction false} MeasureBounded(v: seq<nat>, grow: nat, c: nat)
    requires forall i :: 0 <= i < |v| ==> v[i] <= c
    ensures Measure(v, grow, c) <= Worst(|v|, grow, c)
    decreases |v|
  {
    if v != [] {
      MeasureBounded(v[1..], grow, c);
      var p, q := Measure(v[1..], grow, c), Worst(|v| - 1, grow, c);
      TimesMonotone(grow, p, q);
      var cp: nat, cq: nat := c + grow * p, c + grow * q;
      AfterMonotone(v[0], c, |v| - 1, grow, cp, cq);
    }
  }

  /** w has fewer tokens than v on level e and the same below. */
  ghost predicate DropsAt(v: seq<nat>, w: seq<nat>, e: nat) {
    |v| == |w| && e < |v| && w[e] < v[e] && w[..e] == v[..e]
  }

  /** A step to w lowers the measure. */
  lemma {:induction false} MeasureDrops(v: seq<nat>, w: seq<nat>, e: nat, grow: nat, c: nat, d: nat)
    requires DropsAt(v, w, e) && d <= c + grow
    requires forall i :: 0 <= i < |w| ==> w[i] <= d
    ensures Measure(w, grow, d) < Measure(v, grow, c)
    decreases |v|
  {
    var k := |v| - 1;
    var m, n := Measure(v[1..], grow, c), Measure(w[1..], grow, d);
    if e == 0 {
      MeasureBounded(w[1..], grow, d);
      HeadDrops(v[0], w[0], k, grow, c, d, m, n);
    } else {
      assert v[0] == w[0] by { assert v[..e][0] == w[..e][0]; }
      assert DropsAt(v[1..], w[1..], e - 1) by {
        assert v[1..][..e - 1] == v[..e][1..] && w[1..][..e - 1] == w[..e][1..];
      }
      MeasureDrops(v[1..], w[1..], e - 1, grow, c, d);
      TailDrops(v[0], k, grow, c, d, m, n);
    }
  }

  lemma TailDrops(x: nat, k: nat, grow: nat, c: nat, d: nat, m: nat, n: nat)
    requires n < m && d <= c + grow
    ensures n + After(x, k, grow, d + grow * n) < m + After(x, k, grow, c + grow * m)
  {
    assert grow * n + grow <= grow * m by {
      TimesMonotone(grow, n + 1, m);
    }
    AfterMonotone(x, x, k, grow, d + grow * n, c + grow * m);
  }

  lemma HeadBound(x: nat, y: nat, k: nat, grow: nat, c: nat, d: nat, n: nat)
    requires y < x && d <= c + grow && n <= Worst(k, grow, d)
    ensures n + After(y, k, grow, d + grow * n) < After(x, k, grow, c)
  {
    var q := Worst(k, grow, c + grow);
    WorstMonotone(k, grow, d, c + grow);
    TimesMonotone(grow, n, q);
    AfterMonotone(y, x - 1, k, grow, d + grow * n, c + grow + grow * q);
  }

  lemma HeadDrops(x: nat, y: nat, k: nat, grow: nat, c: nat, d: nat, m: nat, n: nat)
    requires y < x && d <= c + grow && n <= Worst(k, grow, d)
    ensures n + After(y, k, grow, d + grow * n) < m + After(x, k, grow, c + grow * m)
  {
    HeadBound(x, y, k, grow, c, d, n);
    AfterMonotone(x, x, k, grow, c, c + grow * m);
  }
}
