/** How many instances the calls lead to, and how they are numbered. */
module InstanceNumbers {
  import opened Wrappers
  import opened CallGraphs
  import opened PossibleReports

  ghost function Occurrences(calls: seq<Key>, c: Key): nat {
    if calls == [] then 0
    else Occurrences(calls[..|calls| - 1], c) + if calls[|calls| - 1] == c then 1 else 0
  }

  /** How many calls to c the processed instances have made. */
  ghost function CallsMade(g: CallGraph, processed: seq<Instance>, c: Key): nat {
    if processed == [] then 0
    else
      CallsMade(g, processed[..|processed| - 1], c) + Occurrences(g.calls(processed[|processed| - 1].key), c)
  }

  ghost function InstancesOf(called: set<Instance>, c: Key): set<Instance> { set y | y in called && y.key == c }

  /** n calls have led to as many instances of an inline function, but to at most one of another function. */
  ghost predicate RightlyMany(g: CallGraph, called: set<Instance>, c: Key, n: nat) {
    |InstancesOf(called, c)| == if g.isInline(c.func) then n else if n > 0 then 1 else 0
  }

  ghost predicate HasNumber(called: set<Instance>, f: nat, i: nat) {
    exists y :: y in called && y.key.func == f && y.index == i
  }

  /** Among the called instances of f, each number below n occurs once and no other does. */
  ghost predicate NumberedTo(called: set<Instance>, f: nat, n: nat) {
    && (forall i: nat :: HasNumber(called, f, i) <==> i < n)
    && (forall y, z ::
          y in called && z in called && y.key.func == f && z.key.func == f && y.index == z.index ==> y == z)
  }

  /** Each call of an inline function has an instance of its own, and they are numbered from zero. */
  ghost predicate InstancesAreRight(g: CallGraph, processed: seq<Instance>, called: set<Instance>) {
    && (forall c :: RightlyMany(g, called, c, CallsMade(g, processed, c)))
    && (forall f: nat :: g.isInline(f) ==> exists n: nat :: NumberedTo(called, f, n))
    && (forall y :: y in called && !g.isInline(y.key.func) ==> y.index == 0)
  }

  // ---- While an instance is being processed ----

  /** So far the instances in `before` have made all their calls, and the next one has made `calls`. */
  ghost predicate RightSoFar(g: CallGraph, s: State, before: seq<Instance>, calls: seq<Key>) {
    && (forall c :: RightlyMany(g, s.visited, c, CallsMade(g, before, c) + Occurrences(calls, c)))
    && (forall f: nat :: g.isInline(f) ==> NumberedTo(s.visited, f, Count(s, f)))
    && (forall y :: y in s.visited && !g.isInline(y.key.func) ==> y.index == 0)
  }

  lemma OneMoreCall(calls: seq<Key>, c: Key, d: Key)
    ensures Occurrences(calls + [c], d) == Occurrences(calls, d) + if c == d then 1 else 0
  {
    assert (calls + [c])[..|calls|] == calls;
  }

  lemma OneMoreInstance(called: set<Instance>, y: Instance, c: Key)
    requires y !in called
    ensures |InstancesOf(called + {y}, c)| == |InstancesOf(called, c)| + if y.key == c then 1 else 0
  {
    assert InstancesOf(called + {y}, c) ==
           if y.key == c then InstancesOf(called, c) + {y} else InstancesOf(called, c);
  }

  lemma InlineNumbers(called: set<Instance>, c: Key, n: nat, f: nat, m: nat)
    requires NumberedTo(called, f, m) && (f == c.func ==> n == m)
    ensures NumberedTo(called + {Instance(c, n)}, f, if f == c.func then m + 1 else m)
  {
    NumbersOfMore(called, Instance(c, n), f);
    if f == c.func { assert !HasNumber(called, f, n); }
  }

  lemma NumbersOfMore(called: set<Instance>, y: Instance, f: nat)
    ensures forall i: nat ::
      HasNumber(called + {y}, f, i) <==> HasNumber(called, f, i) || (y.key.func == f && y.index == i)
  {
    forall i: nat
      ensures HasNumber(called + {y}, f, i) <==> HasNumber(called, f, i) || (y.key.func == f && y.index == i)
    {
      if HasNumber(called, f, i) {
        var z :| z in called && z.key.func == f && z.index == i;
        assert z in called + {y};
      }
      if y.key.func == f && y.index == i { assert y in called + {y}; }
    }
  }

  lemma InlineCall(g: CallGraph, s: State, ancestors: set<Key>, c: Key, before: seq<Instance>, calls: seq<Key>)
    requires RightSoFar(g, s, before, calls) && g.isInline(c.func) && c !in ancestors
    ensures Call(g, s, ancestors, c).Some? && RightSoFar(g, Call(g, s, ancestors, c).value, before, calls + [c])
  {
    var y := Instance(c, Count(s, c.func));
    assert NumberedTo(s.visited, c.func, Count(s, c.func));
    assert !HasNumber(s.visited, c.func, y.index);
    assert y !in s.visited;
    var t := Call(g, s, ancestors, c).value;
    assert t.visited == s.visited + {y};
    forall d
      ensures RightlyMany(g, t.visited, d, CallsMade(g, before, d) + Occurrences(calls + [c], d))
    {
      assert RightlyMany(g, s.visited, d, CallsMade(g, before, d) + Occurrences(calls, d));
      OneMoreInstance(s.visited, y, d);
      OneMoreCall(calls, c, d);
    }
    forall f: nat | g.isInline(f)
      ensures NumberedTo(t.visited, f, Count(t, f))
    {
      InlineNumbers(s.visited, c, Count(s, c.func), f, Count(s, f));
    }
  }

  lemma OnlyOne(called: set<Instance>, c: Key)
    requires forall y :: y in called && y.key == c ==> y.index == 0
    ensures |InstancesOf(called, c)| == if Instance(c, 0) in called then 1 else 0
  {
    assert InstancesOf(called, c) == if Instance(c, 0) in called then {Instance(c, 0)} else {};
  }

  lemma OrdinaryCall(g: CallGraph, s: State, ancestors: set<Key>, c: Key, before: seq<Instance>, calls: seq<Key>)
    requires RightSoFar(g, s, before, calls) && !g.isInline(c.func) && c !in ancestors
    ensures Call(g, s, ancestors, c).Some? && RightSoFar(g, Call(g, s, ancestors, c).value, before, calls + [c])
  {
    var y := Instance(c, 0);
    var t := Call(g, s, ancestors, c).value;
    assert t.visited == s.visited + {y};
    forall d
      ensures RightlyMany(g, t.visited, d, CallsMade(g, before, d) + Occurrences(calls + [c], d))
    {
      assert RightlyMany(g, s.visited, d, CallsMade(g, before, d) + Occurrences(calls, d));
      OneMoreCall(calls, c, d);
      if d == c { OnlyOne(t.visited, c); } else { assert InstancesOf(t.visited, d) == InstancesOf(s.visited, d); }
    }
    forall f: nat | g.isInline(f)
      ensures NumberedTo(t.visited, f, Count(t, f))
    {
      assert NumberedTo(s.visited, f, Count(s, f));
      OrdinaryNumbers(s.visited, y, f, Count(s, f));
    }
  }

  lemma OrdinaryNumbers(called: set<Instance>, y: Instance, f: nat, n: nat)
    requires NumberedTo(called, f, n) && y.key.func != f
    ensures NumberedTo(called + {y}, f, n)
  {
    NumbersOfMore(called, y, f);
  }

  lemma {:induction false} CallsAreRight(g: CallGraph, s: State, ancestors: set<Key>, cs: seq<Key>,
                                         before: seq<Instance>)
    requires RightSoFar(g, s, before, []) && Calls(g, s, ancestors, cs).Some?
    ensures RightSoFar(g, Calls(g, s, ancestors, cs).value, before, cs)
  {
    if cs != [] {
      var init, c := cs[..|cs| - 1], cs[|cs| - 1];
      assert cs == init + [c];
      CallsAreRight(g, s, ancestors, init, before);
      var t := Calls(g, s, ancestors, init).value;
      if g.isInline(c.func) {
        InlineCall(g, t, ancestors, c, before, init);
      } else {
        OrdinaryCall(g, t, ancestors, c, before, init);
      }
    }
  }

  lemma ProcessIsRight(g: CallGraph, s: State, x: Instance)
    requires RightSoFar(g, s, s.processed, []) && Process(g, s, x).Some?
    ensures RightSoFar(g, Process(g, s, x).value, Process(g, s, x).value.processed, [])
  {
    var taken, t := Taken(s, x), Process(g, s, x).value;
    CallsAreRight(g, taken, Ancestors(taken, x.key), g.calls(x.key), s.processed);
    CallsKeepProcessed(g, taken, Ancestors(taken, x.key), g.calls(x.key));
    forall c
      ensures RightlyMany(g, t.visited, c, CallsMade(g, t.processed, c) + Occurrences([], c))
    {
      assert t.processed[..|s.processed|] == s.processed;
      assert RightlyMany(g, t.visited, c, CallsMade(g, s.processed, c) + Occurrences(g.calls(x.key), c));
    }
  }

  lemma {:induction false} CallsKeepProcessed(g: CallGraph, s: State, ancestors: set<Key>, cs: seq<Key>)
    requires Calls(g, s, ancestors, cs).Some?
    ensures Calls(g, s, ancestors, cs).value.processed == s.processed
  {
    if cs != [] { CallsKeepProcessed(g, s, ancestors, cs[..|cs| - 1]); }
  }

  lemma {:induction false} RunIsRight(g: CallGraph, s: State, order: seq<Instance>, t: State)
    requires RightSoFar(g, s, s.processed, []) && Runs(g, s, order, t)
    ensures RightSoFar(g, t, t.processed, [])
    decreases |order|
  {
    if order != [] {
      ProcessIsRight(g, s, order[0]);
      RunIsRight(g, Process(g, s, order[0]).value, order[1..], t);
    }
  }

  /** On every run, after every step, the instances are right. */
  lemma ReachedAreRight(g: CallGraph, roots: set<Key>, s: State)
    requires Reaches(g, Initial(roots), s)
    ensures InstancesAreRight(g, s.processed, s.visited)
  {
    var start := Initial(roots);
    forall c
      ensures RightlyMany(g, start.visited, c, 0)
    {
      assert InstancesOf(start.visited, c) == {};
    }
    var order :| Runs(g, start, order, s);
    RunIsRight(g, start, order, s);
    forall c
      ensures RightlyMany(g, s.visited, c, CallsMade(g, s.processed, c))
    {
      assert RightlyMany(g, s.visited, c, CallsMade(g, s.processed, c) + Occurrences([], c));
    }
    forall f: nat | g.isInline(f)
      ensures exists n: nat :: NumberedTo(s.visited, f, n)
    {
      assert NumberedTo(s.visited, f, Count(s, f));
    }
  }
}
