/** Bit vectors, least significant bit first, and the numbers they stand for. */
module BitVectors {
  type Bits = seq<bool>

  function Bit(b: bool): nat { if b then 1 else 0 }

  function Unsigned(b: Bits): nat {
    if b == [] then 0 else Bit(b[0]) + 2 * Unsigned(b[1..])
  }

  /** Two's complement. */
  function Signed(b: Bits): int {
    if b == [] then 0
    else if |b| == 1 then (if b[0] then -1 else 0)
    else Bit(b[0]) + 2 * Signed(b[1..])
  }

  function Value(b: Bits, signed: bool): int { if signed then Signed(b) else Unsigned(b) }

  function Repeat(v: bool, n: nat): (r: Bits)
    ensures |r| == n && forall i :: 0 <= i < n ==> r[i] == v
  {
    if n == 0 then [] else [v] + Repeat(v, n - 1)
  }

  function Pow2(n: nat): (p: nat)
    ensures p > 0
  {
    if n == 0 then 1 else 2 * Pow2(n - 1)
  }

  lemma {:induction false} UnsignedBound(b: Bits)
    ensures Unsigned(b) < Pow2(|b|)
  {
    if b != [] { UnsignedBound(b[1..]); }
  }

  lemma {:induction false} ZerosAreNothing(n: nat)
    ensures Unsigned(Repeat(false, n)) == 0
  {
    if n > 0 {
      ZerosAreNothing(n - 1);
      assert Repeat(false, n)[1..] == Repeat(false, n - 1);
    }
  }

  lemma {:induction false} ZerosAreNothingSigned(n: nat)
    ensures Signed(Repeat(false, n)) == 0
  {
    if n > 0 {
      ZerosAreNothingSigned(n - 1);
      assert Repeat(false, n)[1..] == Repeat(false, n - 1);
    }
  }

  lemma {:induction false} OnesAreMinusOne(n: nat)
    requires n > 0
    ensures Signed(Repeat(true, n)) == -1
  {
    if n > 1 {
      OnesAreMinusOne(n - 1);
      assert Repeat(true, n)[1..] == Repeat(true, n - 1);
    }
  }

  /** Zeros above change nothing, and make the number non-negative. */
  lemma {:induction false} ZeroExtended(b: Bits, n: nat)
    ensures Unsigned(b + Repeat(false, n)) == Unsigned(b)
    ensures n > 0 ==> Signed(b + Repeat(false, n)) == Unsigned(b)
    decreases |b|
  {
    if b == [] {
      assert b + Repeat(false, n) == Repeat(false, n);
      ZerosAreNothing(n);
      ZerosAreNothingSigned(n);
    } else {
      ZeroExtended(b[1..], n);
      assert (b + Repeat(false, n))[1..] == b[1..] + Repeat(false, n);
    }
  }

  /** Copies of the sign bit above change nothing. */
  lemma {:induction false} SignExtended(b: Bits, n: nat)
    requires b != []
    ensures Signed(b + Repeat(b[|b| - 1], n)) == Signed(b)
    decreases |b|
  {
    var s := b[|b| - 1];
    if n == 0 {
      assert b + Repeat(s, 0) == b;
    } else if |b| == 1 {
      assert (b + Repeat(s, n))[1..] == Repeat(s, n);
      if s { OnesAreMinusOne(n); } else { ZerosAreNothingSigned(n); }
    } else {
      SignExtended(b[1..], n);
      assert (b + Repeat(s, n))[1..] == b[1..] + Repeat(s, n);
    }
  }

  /** Different vectors of one width stand for different numbers. */
  lemma {:induction false} SameNumberSameBits(a: Bits, b: Bits)
    requires |a| == |b|
    ensures Unsigned(a) == Unsigned(b) <==> a == b
    ensures Signed(a) == Signed(b) <==> a == b
    decreases |a|
  {
    if a != [] {
      SameNumberSameBits(a[1..], b[1..]);
      assert a == [a[0]] + a[1..] && b == [b[0]] + b[1..];
    }
  }

  /** The low bits are the number modulo a power of two. */
  lemma {:induction false} Truncated(b: Bits, n: nat)
    requires n <= |b|
    ensures Unsigned(b) == Unsigned(b[..n]) + Pow2(n) * Unsigned(b[n..])
    decreases n
  {
    if n == 0 {
      assert b[0..] == b;
    } else {
      Truncated(b[1..], n - 1);
      assert b[..n][1..] == b[1..][..n - 1] && b[1..][n - 1..] == b[n..];
      Double(Pow2(n - 1), Unsigned(b[n..]));
    }
  }

  lemma Double(p: nat, u: nat)
    ensures 2 * p * u == 2 * (p * u)
  {
  }

  /** One more bit on top. */
  lemma OneMoreBit(b: Bits, k: nat)
    requires k < |b|
    ensures Unsigned(b[..k + 1]) == Unsigned(b[..k]) + Pow2(k) * Bit(b[k])
  {
    Truncated(b[..k + 1], k);
    assert b[..k + 1][..k] == b[..k] && b[..k + 1][k..] == [b[k]];
  }
}
