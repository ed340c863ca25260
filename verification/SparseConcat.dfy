/** Assembling a wide value from fields at given offsets. */
module SparseConcatenation {
  import opened BitVectors

  datatype QueuedValue = QueuedValue(offset: nat, value: Bits)

  function End(q: QueuedValue): nat { q.offset + |q.value| }

  /** Fields have bits, do not overlap and fit. */
  ghost predicate Compatible(values: seq<QueuedValue>, width: nat) {
    && (forall i :: 0 <= i < |values| ==> values[i].value != [] && End(values[i]) <= width)
    && (forall i, j ::
        0 <= i < j < |values| ==> End(values[i]) <= values[j].offset || End(values[j]) <= values[i].offset)
  }

  ghost predicate SortedByOffset(values: seq<QueuedValue>) {
    forall i, j :: 0 <= i < j < |values| ==> values[i].offset <= values[j].offset
  }

  function InsertByOffset(values: seq<QueuedValue>, q: QueuedValue): seq<QueuedValue> {
    if values == [] || values[|values| - 1].offset <= q.offset then values + [q]
    else InsertByOffset(values[..|values| - 1], q) + [values[|values| - 1]]
  }

  function Sort(values: seq<QueuedValue>): seq<QueuedValue> {
    if values == [] then [] else InsertByOffset(Sort(values[..|values| - 1]), values[|values| - 1])
  }

  lemma {:induction false} InsertedKeepsMembers(values: seq<QueuedValue>, q: QueuedValue)
    ensures multiset(InsertByOffset(values, q)) == multiset(values) + multiset{q}
    decreases |values|
  {
    if values != [] && values[|values| - 1].offset > q.offset {
      var init, last := values[..|values| - 1], values[|values| - 1];
      InsertedKeepsMembers(init, q);
      assert values == init + [last];
    }
  }

  lemma {:induction false} InsertedByOffset(values: seq<QueuedValue>, q: QueuedValue)
    requires SortedByOffset(values)
    ensures SortedByOffset(InsertByOffset(values, q))
    decreases |values|
  {
    if values != [] && values[|values| - 1].offset > q.offset {
      var init, last := values[..|values| - 1], values[|values| - 1];
      InsertedByOffset(init, q);
      var r := InsertByOffset(init, q);
      forall i | 0 <= i < |r|
        ensures r[i].offset <= last.offset
      {
        InsertedMember(init, q, r[i]);
      }
    }
  }

  lemma InsertedMember(values: seq<QueuedValue>, q: QueuedValue, x: QueuedValue)
    requires x in InsertByOffset(values, q)
    ensures x in values || x == q
  {
    InsertedKeepsMembers(values, q);
    assert x in multiset(InsertByOffset(values, q));
  }

  lemma {:induction false} Sorted(values: seq<QueuedValue>)
    ensures SortedByOffset(Sort(values)) && multiset(Sort(values)) == multiset(values)
    decreases |values|
  {
    if values != [] {
      Sorted(values[..|values| - 1]);
      assert values == values[..|values| - 1] + [values[|values| - 1]];
      InsertedByOffset(Sort(values[..|values| - 1]), values[|values| - 1]);
      InsertedKeepsMembers(Sort(values[..|values| - 1]), values[|values| - 1]);
    }
  }

  /** Compatibility does not depend on the order. */
  ghost predicate PairwiseApart(m: multiset<QueuedValue>, width: nat) {
    && (forall q :: q in m ==> q.value != [] && End(q) <= width && m[q] == 1)
    && (forall q, r :: q in m && r in m && q != r ==> End(q) <= r.offset || End(r) <= q.offset)
  }

  lemma CompatibleIsApart(values: seq<QueuedValue>, width: nat)
    ensures Compatible(values, width) <==> PairwiseApart(multiset(values), width)
  {
    if Compatible(values, width) {
      forall q | q in multiset(values)
        ensures q.value != [] && End(q) <= width && multiset(values)[q] == 1
      {
        var i :| 0 <= i < |values| && values[i] == q;
        OnlyOnce(values, i, width);
      }
    } else if PairwiseApart(multiset(values), width) {
      forall i | 0 <= i < |values|
        ensures values[i].value != [] && End(values[i]) <= width
      {
        assert values[i] in multiset(values);
      }
      forall i, j | 0 <= i < j < |values|
        ensures End(values[i]) <= values[j].offset || End(values[j]) <= values[i].offset
      {
        assert values[i] in multiset(values) && values[j] in multiset(values);
        if values[i] == values[j] { Repeated(values, i, j); }
      }
    }
  }

  lemma OnlyOnce(values: seq<QueuedValue>, i: nat, width: nat)
    requires Compatible(values, width) && i < |values|
    ensures multiset(values)[values[i]] == 1
  {
    var q := values[i];
    assert values == values[..i] + [q] + values[i + 1..];
    assert q !in values[..i] && q !in values[i + 1..];
    assert multiset(values)[q] == multiset(values[..i])[q] + 1 + multiset(values[i + 1..])[q];
  }

  lemma Repeated(values: seq<QueuedValue>, i: nat, j: nat)
    requires i < j < |values| && values[i] == values[j]
    ensures multiset(values)[values[i]] >= 2
  {
    assert values == values[..j] + values[j..] && values[i] in values[..j] && values[j] in values[j..];
    assert multiset(values)[values[i]] == multiset(values[..j])[values[i]] + multiset(values[j..])[values[i]];
  }

  ghost predicate FieldAt(result: Bits, q: QueuedValue) {
    End(q) <= |result| && result[q.offset..End(q)] == q.value
  }

  ghost predicate Covered(values: seq<QueuedValue>, k: nat) {
    exists q :: q in values && q.offset <= k < End(q)
  }

  /** Every field lies at its offset, and the bits of no field are zero. */
  ghost predicate Assembles(values: seq<QueuedValue>, result: Bits) {
    && (forall q :: q in values ==> FieldAt(result, q))
    && (forall k: nat :: k < |result| && result[k] ==> Covered(values, k))
  }

  lemma SortedIsCompatible(values: seq<QueuedValue>, width: nat)
    requires Compatible(values, width)
    ensures Compatible(Sort(values), width) && SortedByOffset(Sort(values))
    ensures multiset(Sort(values)) == multiset(values)
  {
    Sorted(values);
    CompatibleIsApart(values, width);
    CompatibleIsApart(Sort(values), width);
  }

  class SparseConcat {
    const width: nat
    var values: seq<QueuedValue>

    constructor (width: nat)
      ensures this.width == width && values == []
    {
      this.width, values := width, [];
    }

    method Insert(offset: nat, value: Bits)
      modifies this
      ensures values == old(values) + [QueuedValue(offset, value)]
    {
      values := values + [QueuedValue(offset, value)];
    }

    method Flush() returns (result: Bits)
      requires Compatible(values, width)
      modifies this
      ensures |result| == width && Assembles(old(values), result)
      ensures values == Sort(old(values))
    {
      ghost var before := values;
      values := Sort(values);
      var sorted := values;
      SortedIsCompatible(before, width);
      result := [];
      var i := 0;
      ghost var done: seq<QueuedValue> := [];
      while i < |sorted|
        invariant values == sorted && 0 <= i <= |sorted| && done == sorted[..i]
        invariant |result| <= width && Assembles(done, result)
        invariant forall j :: i <= j < |sorted| ==> |result| <= sorted[j].offset
      {
        var q := sorted[i];
        NextBegins(sorted, width, i);
        OneMoreTaken(sorted, i);
        FieldStep(done, result, q);
        done := done + [q];
        result := result + Repeat(false, q.offset - |result|) + q.value;
        i := i + 1;
      }
      assert done == sorted;
      Padded(sorted, result, width - |result|);
      result := result + Repeat(false, width - |result|);
      AssemblesAnyOrder(sorted, before, result);
    }
  }

  lemma FieldStays(result: Bits, more: Bits, q: QueuedValue)
    requires FieldAt(result, q)
    ensures FieldAt(result + more, q)
  {
    assert (result + more)[q.offset..End(q)] == result[q.offset..End(q)];
  }

  lemma CoveredStays(values: seq<QueuedValue>, q: QueuedValue, k: nat)
    requires Covered(values, k)
    ensures Covered(values + [q], k)
  {
    var r :| r in values && r.offset <= k < End(r);
    assert r in values + [q];
  }

  /** A field that begins where the result ends. */
  lemma NextField(values: seq<QueuedValue>, result: Bits, q: QueuedValue)
    requires Assembles(values, result) && |result| == q.offset
    ensures Assembles(values + [q], result + q.value)
  {
    forall r | r in values + [q]
      ensures FieldAt(result + q.value, r)
    {
      if r in values { FieldStays(result, q.value, r); }
    }
    forall k: nat | k < |result + q.value| && (result + q.value)[k]
      ensures Covered(values + [q], k)
    {
      NextCovers(values, result, q, k);
    }
  }

  lemma NextCovers(values: seq<QueuedValue>, result: Bits, q: QueuedValue, k: nat)
    requires Assembles(values, result) && |result| == q.offset && k < End(q) && (result + q.value)[k]
    ensures Covered(values + [q], k)
  {
    if k < |result| { CoveredStays(values, q, k); } else { assert q in values + [q]; }
  }

  lemma Padded(values: seq<QueuedValue>, result: Bits, n: nat)
    requires Assembles(values, result)
    ensures Assembles(values, result + Repeat(false, n))
  {
    forall r | r in values
      ensures FieldAt(result + Repeat(false, n), r)
    {
      FieldStays(result, Repeat(false, n), r);
    }
  }

  lemma AssemblesAnyOrder(a: seq<QueuedValue>, b: seq<QueuedValue>, result: Bits)
    requires multiset(a) == multiset(b) && Assembles(a, result)
    ensures Assembles(b, result)
  {
    forall q
      ensures q in a <==> q in b
    {
      assert q in multiset(a) <==> q in multiset(b);
    }
  }

  lemma FieldStep(values: seq<QueuedValue>, result: Bits, q: QueuedValue)
    requires |result| <= q.offset && Assembles(values, result)
    ensures Assembles(values + [q], result + Repeat(false, q.offset - |result|) + q.value)
  {
    Padded(values, result, q.offset - |result|);
    NextField(values, result + Repeat(false, q.offset - |result|), q);
  }

  lemma OneMoreTaken(values: seq<QueuedValue>, i: nat)
    requires i < |values|
    ensures values[..i] + [values[i]] == values[..i + 1]
  {
  }

  /** Sorted and compatible fields begin after the one before has ended. */
  lemma NextBegins(values: seq<QueuedValue>, width: nat, i: nat)
    requires Compatible(values, width) && SortedByOffset(values) && i < |values|
    ensures End(values[i]) <= width && forall j :: i < j < |values| ==> End(values[i]) <= values[j].offset
  {
    forall j | i < j < |values|
      ensures End(values[i]) <= values[j].offset
    {
      assert values[j].value != [];
    }
  }
}
