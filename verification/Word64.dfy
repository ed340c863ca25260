/** Words of 64 bits, least significant bit first, with the C++ operators the code book uses. */
module Word64 {
  import opened BitVectors

  const WORD_BITS: nat := 64

  type Word = w: seq<bool> | |w| == WORD_BITS witness seq(WORD_BITS, _ => false)

  function Zero(): Word { seq(WORD_BITS, _ => false) }

  /** The low n bits of v. */
  function ToBits(v: nat, n: nat): (w: seq<bool>)
    ensures |w| == n
  {
    if n == 0 then [] else [v % 2 == 1] + ToBits(v / 2, n - 1)
  }

  function And(a: Word, b: Word): Word { seq(WORD_BITS, i requires 0 <= i < WORD_BITS => a[i] && b[i]) }

  function Or(a: Word, b: Word): Word { seq(WORD_BITS, i requires 0 <= i < WORD_BITS => a[i] || b[i]) }

  function Not(a: Word): Word { seq(WORD_BITS, i requires 0 <= i < WORD_BITS => !a[i]) }

  function Shl(a: Word, s: nat): Word {
    seq(WORD_BITS, i requires 0 <= i < WORD_BITS => if i < s then false else a[i - s])
  }

  function Shr(a: Word, s: nat): Word {
    seq(WORD_BITS, i requires 0 <= i < WORD_BITS => if i + s < WORD_BITS then a[i + s] else false)
  }

  lemma {:induction false} FromToBits(v: nat, n: nat)
    requires v < Pow2(n)
    ensures Unsigned(ToBits(v, n)) == v
  {
    if n > 0 {
      FromToBits(v / 2, n - 1);
      assert ToBits(v, n)[1..] == ToBits(v / 2, n - 1);
    }
  }

  /** A value below 2^b has no bit at or above position b. */
  lemma {:induction false} SmallHasNoHighBits(v: nat, b: nat, n: nat, i: nat)
    requires v < Pow2(b) && b <= i < n
    ensures !ToBits(v, n)[i]
  {
    if b == 0 {
      if i > 0 { SmallHasNoHighBits(0, 0, n - 1, i - 1); }
    } else {
      SmallHasNoHighBits(v / 2, b - 1, n - 1, i - 1);
    }
  }

  /** 2^b - 1 is b ones. */
  lemma {:induction false} OnesBits(b: nat, n: nat, i: nat)
    requires i < n
    ensures ToBits(Pow2(b) - 1, n)[i] == (i < b)
  {
    if b == 0 {
      SmallHasNoHighBits(0, 0, n, i);
    } else if i > 0 {
      assert (Pow2(b) - 1) / 2 == Pow2(b - 1) - 1;
      OnesBits(b - 1, n - 1, i - 1);
    }
  }

  lemma {:induction false} Pow2Monotone(a: nat, b: nat)
    requires a <= b
    ensures Pow2(a) <= Pow2(b)
    decreases b
  {
    if a < b { Pow2Monotone(a, b - 1); }
  }
}
