/** Lowering of comparisons, selections and sparse concatenations to wires. */
module Lowering {
  import opened BitVectors

  /** Extends or truncates. Only a value with a sign bit can be sign extended. */
  function AdjustValueWidth(b: Bits, desiredWidth: nat, signExtend: bool): Bits
    requires signExtend && |b| < desiredWidth ==> |b| > 0
  {
    if |b| < desiredWidth then
      if signExtend then b + Repeat(b[|b| - 1], desiredWidth - |b|) else b + Repeat(false, desiredWidth - |b|)
    else if |b| > desiredWidth then b[..desiredWidth]
    else b
  }

  /** Extending keeps the number; truncating keeps it modulo a power of two. */
  lemma AdjustedValue(b: Bits, desiredWidth: nat, signExtend: bool)
    requires signExtend && |b| < desiredWidth ==> |b| > 0
    ensures |AdjustValueWidth(b, desiredWidth, signExtend)| == desiredWidth
    ensures |b| <= desiredWidth ==>
            Value(AdjustValueWidth(b, desiredWidth, signExtend), signExtend) == Value(b, signExtend)
    ensures |b| < desiredWidth && !signExtend ==> Signed(AdjustValueWidth(b, desiredWidth, signExtend)) == Unsigned(b)
    ensures |b| > desiredWidth ==>
            exists q: nat ::
              Unsigned(b) == Unsigned(AdjustValueWidth(b, desiredWidth, signExtend)) + Pow2(desiredWidth) * q
  {
    if |b| < desiredWidth {
      if signExtend { SignExtended(b, desiredWidth - |b|); } else { ZeroExtended(b, desiredWidth - |b|); }
    } else if |b| > desiredWidth {
      Truncated(b, desiredWidth);
    }
  }

  // ---- Comparisons ----

  datatype Operator = EQ | NE | GT | GE | LT | LE

  /** The wider of the two, and one bit more if the signs differ. */
  function CalculateComparisonWidth(lhsWidth: nat, rhsWidth: nat, lhsSigned: bool, rhsSigned: bool): (width: nat)
    ensures var widest := width - if lhsSigned != rhsSigned then 1 else 0;
      lhsWidth <= widest && rhsWidth <= widest && (widest == lhsWidth || widest == rhsWidth)
  {
    (if lhsWidth < rhsWidth then rhsWidth else lhsWidth) + if lhsSigned != rhsSigned then 1 else 0
  }

  /** What a comparator does with two vectors of the same width. */
  predicate Comparator(op: Operator, signed: bool, a: Bits, b: Bits) {
    match op
    case EQ => a == b
    case NE => a != b
    case GT => Value(a, signed) > Value(b, signed)
    case GE => Value(a, signed) >= Value(b, signed)
    case LT => Value(a, signed) < Value(b, signed)
    case LE => Value(a, signed) <= Value(b, signed)
  }

  predicate Holds(op: Operator, x: int, y: int) {
    match op
    case EQ => x == y
    case NE => x != y
    case GT => x > y
    case GE => x >= y
    case LT => x < y
    case LE => x <= y
  }

  /** The comparison after both operands are brought to one width. */
  predicate CompareAt(width: nat, op: Operator, lhs: Bits, lhsSigned: bool, rhs: Bits, rhsSigned: bool)
    requires (lhsSigned ==> lhs != []) && (rhsSigned ==> rhs != [])
  {
    Comparator(op, lhsSigned || rhsSigned,
               AdjustValueWidth(lhs, width, lhsSigned), AdjustValueWidth(rhs, width, rhsSigned))
  }

  predicate CompareInHardware(op: Operator, lhs: Bits, lhsSigned: bool, rhs: Bits, rhsSigned: bool)
    requires (lhsSigned ==> lhs != []) && (rhsSigned ==> rhs != [])
  {
    CompareAt(CalculateComparisonWidth(|lhs|, |rhs|, lhsSigned, rhsSigned), op, lhs, lhsSigned, rhs, rhsSigned)
  }

  lemma OperandKeepsValue(b: Bits, width: nat, signed: bool, eitherSigned: bool)
    requires (signed ==> b != []) && (signed ==> eitherSigned) && |b| <= width
    requires (eitherSigned && !signed ==> |b| < width)
    ensures |AdjustValueWidth(b, width, signed)| == width
    ensures Value(AdjustValueWidth(b, width, signed), eitherSigned) == Value(b, signed)
  {
    AdjustedValue(b, width, signed);
  }

  /** From the calculated width on, the comparison is that of the numbers. */
  lemma WideComparison(width: nat, op: Operator, lhs: Bits, lhsSigned: bool, rhs: Bits, rhsSigned: bool)
    requires (lhsSigned ==> lhs != []) && (rhsSigned ==> rhs != [])
    requires width >= CalculateComparisonWidth(|lhs|, |rhs|, lhsSigned, rhsSigned)
    ensures CompareAt(width, op, lhs, lhsSigned, rhs, rhsSigned) <==>
            Holds(op, Value(lhs, lhsSigned), Value(rhs, rhsSigned))
  {
    OperandKeepsValue(lhs, width, lhsSigned, lhsSigned || rhsSigned);
    OperandKeepsValue(rhs, width, rhsSigned, lhsSigned || rhsSigned);
    SameNumberSameBits(AdjustValueWidth(lhs, width, lhsSigned), AdjustValueWidth(rhs, width, rhsSigned));
  }

  /** For all widths and signs, the hardware compares the numbers. */
  lemma ComparisonIsExact(op: Operator, lhs: Bits, lhsSigned: bool, rhs: Bits, rhsSigned: bool)
    requires (lhsSigned ==> lhs != []) && (rhsSigned ==> rhs != [])
    ensures CompareInHardware(op, lhs, lhsSigned, rhs, rhsSigned) <==>
            Holds(op, Value(lhs, lhsSigned), Value(rhs, rhsSigned))
  {
    WideComparison(CalculateComparisonWidth(|lhs|, |rhs|, lhsSigned, rhsSigned), op, lhs, lhsSigned, rhs, rhsSigned);
  }

  /** Every comparison of operands of n bits is right at this width. */
  ghost predicate IsExactWidth(width: nat, n: nat, lhsSigned: bool, rhsSigned: bool)
    requires n > 0
  {
    forall op, lhs: Bits, rhs: Bits :: |lhs| == n && |rhs| == n ==>
      (CompareAt(width, op, lhs, lhsSigned, rhs, rhsSigned) <==>
       Holds(op, Value(lhs, lhsSigned), Value(rhs, rhsSigned)))
  }

  /** Below its own width a vector with only the top bit set is taken for zero. */
  lemma TooNarrow(width: nat, n: nat, lhsSigned: bool, rhsSigned: bool)
    requires width < n
    ensures !IsExactWidth(width, n, lhsSigned, rhsSigned)
  {
    var top, zero := Repeat(false, n - 1) + [true], Repeat(false, n);
    assert top[..width] == zero[..width];
    assert CompareAt(width, EQ, top, lhsSigned, zero, rhsSigned);
    TopBitCounts(n - 1);
    ZerosAreNothing(n);
    ZerosAreNothingSigned(n);
  }

  lemma {:induction false} TopBitCounts(n: nat)
    ensures Unsigned(Repeat(false, n) + [true]) > 0 && Signed(Repeat(false, n) + [true]) < 0
  {
    var top := Repeat(false, n) + [true];
    if n > 0 {
      assert top[1..] == Repeat(false, n - 1) + [true];
      TopBitCounts(n - 1);
    } else {
      assert top == [true];
    }
  }

  /** With different signs, and no bit more than the operands have, all ones are equal to all ones. */
  lemma ExtraBitIsNeeded(n: nat, lhsSigned: bool)
    requires n > 0
    ensures !IsExactWidth(n, n, lhsSigned, !lhsSigned)
  {
    var ones := Repeat(true, n);
    assert CompareAt(n, EQ, ones, lhsSigned, ones, !lhsSigned);
    OnesAreMinusOne(n);
  }

  /** For operands of equal width the calculated width is the least at which all comparisons are right. */
  lemma LeastExactWidth(width: nat, n: nat, lhsSigned: bool, rhsSigned: bool)
    requires n > 0
    ensures IsExactWidth(width, n, lhsSigned, rhsSigned) <==>
            width >= CalculateComparisonWidth(n, n, lhsSigned, rhsSigned)
  {
    if width >= CalculateComparisonWidth(n, n, lhsSigned, rhsSigned) {
      forall op, lhs: Bits, rhs: Bits | |lhs| == n && |rhs| == n
        ensures CompareAt(width, op, lhs, lhsSigned, rhs, rhsSigned) <==>
                Holds(op, Value(lhs, lhsSigned), Value(rhs, rhsSigned))
      {
        WideComparison(width, op, lhs, lhsSigned, rhs, rhsSigned);
      }
    } else if width < n {
      TooNarrow(width, n, lhsSigned, rhsSigned);
    } else {
      ExtraBitIsNeeded(n, lhsSigned);
    }
  }

  // ---- Selection ----

  /** Position i of the row after k bits holds the choice whose low bits are those of the index. */
  ghost predicate Halved<T>(choices: seq<T>, index: Bits, k: nat, row: seq<T>)
    requires k <= |index|
  {
    |row| * Pow2(k) == |choices| && forall i :: 0 <= i < |row| ==> Picked(choices, index, k, i, row[i])
  }

  ghost predicate Picked<T>(choices: seq<T>, index: Bits, k: nat, i: nat, x: T)
    requires k <= |index|
  {
    i * Pow2(k) + Unsigned(index[..k]) < |choices| && x == choices[i * Pow2(k) + Unsigned(index[..k])]
  }

  lemma PairPicks<T>(choices: seq<T>, index: Bits, k: nat, i: nat, low: T, high: T)
    requires k < |index| && Picked(choices, index, k, 2 * i, low) && Picked(choices, index, k, 2 * i + 1, high)
    ensures Picked(choices, index, k + 1, i, if index[k] then high else low)
  {
    OneMoreBit(index, k);
    assert i * Pow2(k + 1) == 2 * i * Pow2(k) by { Twice(i, Pow2(k)); }
    assert (2 * i + 1) * Pow2(k) == 2 * i * Pow2(k) + Pow2(k) by { PlusOne(2 * i, Pow2(k)); }
  }

  lemma Twice(i: nat, p: nat)
    ensures i * (2 * p) == 2 * i * p
  {
  }

  lemma PlusOne(i: nat, p: nat)
    ensures (i + 1) * p == i * p + p
  {
  }

  lemma HalfOf(n: nat, p: nat, rest: nat)
    requires n * p == 2 * p * rest && p > 0
    ensures n == 2 * rest
  {
    assert n * p == (2 * rest) * p;
    if n < 2 * rest { Strictly(n, 2 * rest, p); }
    if n > 2 * rest { Strictly(2 * rest, n, p); }
  }

  lemma Strictly(a: nat, b: nat, p: nat)
    requires a < b && p > 0
    ensures a * p < b * p
  {
    assert (b - a) * p > 0;
  }

  lemma {:induction false} Pow2Splits(m: nat, k: nat)
    requires k <= m
    ensures Pow2(m) == Pow2(k) * Pow2(m - k) && Pow2(k) > 0
    decreases k
  {
    if k > 0 {
      Pow2Splits(m - 1, k - 1);
      Double(Pow2(k - 1), Pow2(m - k));
    }
  }

  /** One level of two-way selections. */
  method SelectPairs<T>(row: seq<T>, bit: bool) returns (next: seq<T>)
    requires |row| % 2 == 0
    ensures |next| == |row| / 2
    ensures forall i :: 0 <= i < |next| ==> next[i] == if bit then row[i * 2 + 1] else row[i * 2 + 0]
  {
    next := [];
    var i := 0;
    while i < |row| / 2
      invariant 0 <= i == |next| <= |row| / 2
      invariant forall j :: 0 <= j < i ==> next[j] == if bit then row[j * 2 + 1] else row[j * 2 + 0]
    {
      next := next + [if bit then row[i * 2 + 1] else row[i * 2 + 0]];
      i := i + 1;
    }
  }

  lemma HalvedOnce<T>(choices: seq<T>, index: Bits, k: nat, row: seq<T>, next: seq<T>)
    requires k < |index| && Halved(choices, index, k, row) && |row| == 2 * |next|
    requires forall i :: 0 <= i < |next| ==> next[i] == if index[k] then row[i * 2 + 1] else row[i * 2 + 0]
    ensures Halved(choices, index, k + 1, next)
  {
    forall i | 0 <= i < |next|
      ensures Picked(choices, index, k + 1, i, next[i])
    {
      assert Picked(choices, index, k, 2 * i, row[2 * i]) && Picked(choices, index, k, 2 * i + 1, row[2 * i + 1]);
      PairPicks(choices, index, k, i, row[2 * i], row[2 * i + 1]);
    }
    Twice(|next|, Pow2(k));
  }

  lemma RowIsEven<T>(choices: seq<T>, index: Bits, k: nat, row: seq<T>)
    requires k < |index| && Halved(choices, index, k, row) && |choices| == Pow2(|index|)
    ensures |row| == 2 * Pow2(|index| - k - 1)
  {
    Pow2Splits(|index|, k);
    assert |row| * Pow2(k) == 2 * Pow2(k) * Pow2(|index| - k - 1) by {
      Double(Pow2(k), Pow2(|index| - k - 1));
      Commute(Pow2(k), Pow2(|index| - k - 1));
    }
    HalfOf(|row|, Pow2(k), Pow2(|index| - k - 1));
  }

  lemma Commute(p: nat, q: nat)
    ensures p * (2 * q) == 2 * (p * q)
  {
  }

  /** A tree of two-way selections, one level for each bit of the index, picks exactly the indexed choice. */
  method MuxTree<T>(index: Bits, choices: seq<T>) returns (result: T)
    requires |choices| == Pow2(|index|)
    ensures Unsigned(index) < |choices| && result == choices[Unsigned(index)]
  {
    UnsignedBound(index);
    var row := choices;
    var bitIndex := 0;
    StartRow(choices, index);
    while bitIndex < |index|
      invariant 0 <= bitIndex <= |index| && Halved(choices, index, bitIndex, row)
    {
      RowIsEven(choices, index, bitIndex, row);
      var next := SelectPairs(row, index[bitIndex]);
      HalvedOnce(choices, index, bitIndex, row, next);
      row := next;
      bitIndex := bitIndex + 1;
    }
    LastRow(choices, index, row);
    result := row[0];
  }

  lemma StartRow<T>(choices: seq<T>, index: Bits)
    ensures Halved(choices, index, 0, choices)
  {
    forall i | 0 <= i < |choices|
      ensures Picked(choices, index, 0, i, choices[i])
    {
    }
  }

  lemma LastRow<T>(choices: seq<T>, index: Bits, row: seq<T>)
    requires |choices| == Pow2(|index|) && Halved(choices, index, |index|, row)
    ensures |row| == 1 && Unsigned(index) < |choices| && row[0] == choices[Unsigned(index)]
  {
    Pow2Splits(|index|, |index|);
    if |row| != 1 { if |row| == 0 { assert false; } else { Strictly(1, |row|, Pow2(|index|)); } }
    assert Picked(choices, index, |index|, 0, row[0]);
    assert index[..|index|] == index;
  }
}
