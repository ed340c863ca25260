/** Function instances and what visiting one of them does to the state of the enumeration. */
module CallGraphs {
  import opened Wrappers

  /** What recursion detection sees of an instance. For an inline function, place is the object; otherwise object
      and references. */
  datatype Key = Key(func: nat, place: nat)

  datatype Instance = Instance(key: Key, index: nat)

  /** calls(k) lists the calls met while traversing an instance with key k. */
  datatype CallGraph = CallGraph(keys: set<Key>, isInline: nat -> bool, calls: Key -> seq<Key>)

  ghost predicate Closed(g: CallGraph) {
    forall k, c :: k in g.keys && c in g.calls(k) ==> c in g.keys
  }

  function Inline(g: CallGraph, k: Key): bool { g.isInline(k.func) }

  datatype State = State(
    workList: set<Instance>,
    visited: set<Instance>,
    parents: map<Key, set<Key>>,     // shared by all instances with the same key
    inlineCounts: map<nat, nat>,
    processed: seq<Instance>)

  function Count(s: State, f: nat): nat {
    if f in s.inlineCounts then s.inlineCounts[f] else 0
  }

  /** Each call of an inline function makes a new instance. */
  function Callee(g: CallGraph, s: State, c: Key): Instance {
    if Inline(g, c) then Instance(c, Count(s, c.func)) else Instance(c, 0)
  }

  function Counted(g: CallGraph, s: State, c: Key): State {
    if Inline(g, c) then s.(inlineCounts := s.inlineCounts[c.func := Count(s, c.func) + 1]) else s
  }

  function Ancestors(s: State, k: Key): set<Key> {
    (if k in s.parents then s.parents[k] else {}) + {k}
  }

  function AddToWorkList(s: State, y: Instance, ancestors: set<Key>): State {
    s.(workList := s.workList + {y}, visited := s.visited + {y}, parents := s.parents[y.key := ancestors])
  }

  /** One call to c from an instance with these ancestors, itself included. None is the recursion error. */
  function Call(g: CallGraph, s: State, ancestors: set<Key>, c: Key): Option<State> {
    if c in ancestors then None
    else
      var y, t := Callee(g, s, c), Counted(g, s, c);
      if y in s.visited then Some(t) else Some(AddToWorkList(t, y, ancestors))
  }

  function Calls(g: CallGraph, s: State, ancestors: set<Key>, cs: seq<Key>): Option<State> {
    if cs == [] then Some(s)
    else
      match Calls(g, s, ancestors, cs[..|cs| - 1])
      case None => None
      case Some(t) => Call(g, t, ancestors, cs[|cs| - 1])
  }

  function Taken(s: State, x: Instance): State {
    s.(workList := s.workList - {x}, processed := s.processed + [x])
  }

  /** Taking x off the work list and making its calls. */
  function Process(g: CallGraph, s: State, x: Instance): Option<State> {
    Calls(g, Taken(s, x), Ancestors(s, x.key), g.calls(x.key))
  }

  function Initial(roots: set<Key>): State {
    State(set k | k in roots :: Instance(k, 0), {}, map k | k in roots :: {}, map[], [])
  }

  // ---- Chains of calls ----

  ghost predicate IsChain(g: CallGraph, chain: seq<Key>) {
    chain != [] && forall i :: 0 <= i < |chain| - 1 ==> chain[i + 1] in g.calls(chain[i])
  }

  /** a calls b, through at least one call. */
  ghost predicate LeadsTo(g: CallGraph, a: Key, b: Key) {
    exists chain :: IsChain(g, chain) && |chain| > 1 && chain[0] == a && chain[|chain| - 1] == b
  }

  ghost predicate Reachable(g: CallGraph, roots: set<Key>, k: Key) {
    k in roots || exists r :: r in roots && LeadsTo(g, r, k)
  }

  lemma CallLeads(g: CallGraph, a: Key, b: Key)
    requires b in g.calls(a)
    ensures LeadsTo(g, a, b)
  {
    assert IsChain(g, [a, b]);
  }

  lemma LeadsThrough(g: CallGraph, a: Key, b: Key, c: Key)
    requires LeadsTo(g, a, b) && c in g.calls(b)
    ensures LeadsTo(g, a, c)
  {
    var chain :| IsChain(g, chain) && |chain| > 1 && chain[0] == a && chain[|chain| - 1] == b;
    assert IsChain(g, chain + [c]);
  }

  lemma ReachableStep(g: CallGraph, roots: set<Key>, b: Key, c: Key)
    requires Reachable(g, roots, b) && c in g.calls(b)
    ensures Reachable(g, roots, c)
  {
    if b in roots {
      CallLeads(g, b, c);
    } else {
      var r :| r in roots && LeadsTo(g, r, b);
      LeadsThrough(g, r, b, c);
    }
  }
}
