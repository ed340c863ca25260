/** CompressedIntegerVector and IntegerParameterVector: a vector of bounded integers packed into 64-bit words. */
module CompressedVector {
  import opened Wrappers
  import opened BitVectors
  import opened Word64

  datatype CodeBookEntry = CodeBookEntry(wordIndex: nat, shift: nat, mask: Word, upperBound: nat, isConstantZero: bool)

  datatype CodeBook = CodeBook(numWords: nat, entries: seq<CodeBookEntry>)

  /** Bits needed for a value in [0, range): the least b with range <= 2^b. */
  function Log2RoundUp(range: nat): (b: nat)
    requires range > 0
    ensures range <= Pow2(b)
    ensures b > 0 ==> Pow2(b - 1) < range
  {
    if range == 1 then 0 else 1 + Log2RoundUp((range + 1) / 2)
  }

  lemma {:induction false} Log2RoundUpIsLeast(range: nat, b: nat)
    requires range > 0
    ensures Log2RoundUp(range) <= b <==> range <= Pow2(b)
  {
    var l := Log2RoundUp(range);
    if l <= b {
      Pow2Monotone(l, b);
    } else {
      Pow2Monotone(b, l - 1);
    }
  }

  /** Ranges for which "1ull << bitCount" is defined. */
  predicate ValidRange(range: nat) { range > 0 && Log2RoundUp(range) < WORD_BITS }

  predicate ValidRanges(ranges: seq<nat>) { forall i :: 0 <= i < |ranges| ==> ValidRange(ranges[i]) }

  /** Those are the ranges from 1 to 2^63. */
  lemma ValidRangeExactly(range: nat)
    ensures ValidRange(range) <==> 0 < range <= Pow2(WORD_BITS - 1)
  {
    if range > 0 { Log2RoundUpIsLeast(range, WORD_BITS - 1); }
  }

  ghost function Bits(ranges: seq<nat>, i: nat): nat
    requires i < |ranges| && ranges[i] > 0
  {
    Log2RoundUp(ranges[i])
  }

  /** The bit positions an entry occupies within its word. */
  function FieldMask(bits: nat, shift: nat): Word {
    Shl(ToBits(Pow2(bits) - 1, WORD_BITS), shift)
  }

  ghost predicate EntryFits(ranges: seq<nat>, cb: CodeBook, i: nat)
    requires ValidRanges(ranges) && i < |ranges| == |cb.entries|
  {
    && cb.entries[i].upperBound == ranges[i]
    && (cb.entries[i].isConstantZero <==> ranges[i] == 1)
    && (!cb.entries[i].isConstantZero ==>
          && cb.entries[i].wordIndex < cb.numWords
          && cb.entries[i].shift + Bits(ranges, i) <= WORD_BITS
          && cb.entries[i].mask == FieldMask(Bits(ranges, i), cb.entries[i].shift))
  }

  /** i comes before j: j's field lies in a later word, or above i's field in the same word. */
  ghost predicate Ordered(ranges: seq<nat>, cb: CodeBook, i: nat, j: nat)
    requires ValidRanges(ranges) && i < |ranges| == |cb.entries| && j < |ranges|
  {
    !cb.entries[i].isConstantZero && !cb.entries[j].isConstantZero ==>
      || cb.entries[i].wordIndex < cb.entries[j].wordIndex
      || (cb.entries[i].wordIndex == cb.entries[j].wordIndex
          && cb.entries[i].shift + Bits(ranges, i) <= cb.entries[j].shift)
  }

  ghost predicate IsCodeBook(ranges: seq<nat>, cb: CodeBook) {
    && ValidRanges(ranges)
    && |cb.entries| == |ranges|
    && (forall i :: 0 <= i < |ranges| ==> EntryFits(ranges, cb, i))
    && (forall i, j :: 0 <= i < j < |ranges| ==> Ordered(ranges, cb, i, j))
  }

  ghost function TotalBits(ranges: seq<nat>): nat
    requires ValidRanges(ranges)
  {
    if ranges == [] then 0 else TotalBits(ranges[..|ranges| - 1]) + Bits(ranges, |ranges| - 1)
  }

  /** The state of the packing loop: the book so far and the free bits of its last word. */
  datatype Packer = Packer(cb: CodeBook, bitsRemaining: nat)

  ghost function PackEntry(numWords: nat, free: nat, range: nat): CodeBookEntry
    requires ValidRange(range) && free <= WORD_BITS
  {
    if Log2RoundUp(range) == 0 || numWords == 0 then CodeBookEntry(0, 0, Zero(), range, true)
    else CodeBookEntry(numWords - 1, WORD_BITS - free, FieldMask(Log2RoundUp(range), WORD_BITS - free), range, false)
  }

  ghost function PackOne(p: Packer, range: nat): (q: Packer)
    requires ValidRange(range) && p.bitsRemaining <= WORD_BITS
    ensures q.bitsRemaining <= WORD_BITS
  {
    if Log2RoundUp(range) <= p.bitsRemaining then
      Packer(CodeBook(p.cb.numWords, p.cb.entries + [PackEntry(p.cb.numWords, p.bitsRemaining, range)]),
             p.bitsRemaining - Log2RoundUp(range))
    else
      Packer(CodeBook(p.cb.numWords + 1, p.cb.entries + [PackEntry(p.cb.numWords + 1, WORD_BITS, range)]),
             WORD_BITS - Log2RoundUp(range))
  }

  ghost function Pack(ranges: seq<nat>): (p: Packer)
    requires ValidRanges(ranges)
    ensures p.bitsRemaining <= WORD_BITS
  {
    if ranges == [] then Packer(CodeBook(0, []), 0)
    else PackOne(Pack(ranges[..|ranges| - 1]), ranges[|ranges| - 1])
  }

  /** All fields of the last word lie below its free bits. */
  ghost predicate BelowFree(ranges: seq<nat>, p: Packer)
    requires ValidRanges(ranges) && |ranges| == |p.cb.entries|
  {
    forall i {:trigger p.cb.entries[i]} :: 0 <= i < |ranges| && !p.cb.entries[i].isConstantZero
                                           && p.cb.entries[i].wordIndex == p.cb.numWords - 1 ==>
                                             p.cb.entries[i].shift + Bits(ranges, i) <= WORD_BITS - p.bitsRemaining
  }

  lemma PackOneFits(ranges: seq<nat>, p: Packer, range: nat)
    requires ValidRange(range) && p.bitsRemaining <= WORD_BITS && (p.cb.numWords == 0 ==> p.bitsRemaining == 0)
    requires IsCodeBook(ranges, p.cb)
    ensures forall i :: 0 <= i <= |ranges| ==> EntryFits(ranges + [range], PackOne(p, range).cb, i)
  {
    var cb, rs := PackOne(p, range).cb, ranges + [range];
    forall i {:trigger EntryFits(rs, cb, i)} | 0 <= i < |ranges|
      ensures EntryFits(rs, cb, i)
    {
      assert EntryFits(ranges, p.cb, i);
      assert cb.entries[i] == p.cb.entries[i] && rs[i] == ranges[i];
    }
    assert rs[|ranges|] == range && Bits(rs, |ranges|) == Log2RoundUp(range);
    assert EntryFits(rs, cb, |ranges|);
  }

  lemma PackOneBelowFree(ranges: seq<nat>, p: Packer, range: nat)
    requires ValidRange(range) && p.bitsRemaining <= WORD_BITS && (p.cb.numWords == 0 ==> p.bitsRemaining == 0)
    requires IsCodeBook(ranges, p.cb) && BelowFree(ranges, p) && ValidRanges(ranges + [range])
    ensures BelowFree(ranges + [range], PackOne(p, range))
  {
    var q, rs := PackOne(p, range), ranges + [range];
    forall i {:trigger q.cb.entries[i]} | 0 <= i < |ranges| && !q.cb.entries[i].isConstantZero
                                          && q.cb.entries[i].wordIndex == q.cb.numWords - 1
      ensures q.cb.entries[i].shift + Bits(rs, i) <= WORD_BITS - q.bitsRemaining
    {
      assert EntryFits(ranges, p.cb, i);
      assert q.cb.entries[i] == p.cb.entries[i] && rs[i] == ranges[i];
    }
    assert rs[|ranges|] == range && Bits(rs, |ranges|) == Log2RoundUp(range);
  }

  lemma PackOneOrdered(ranges: seq<nat>, p: Packer, range: nat)
    requires ValidRange(range) && p.bitsRemaining <= WORD_BITS && (p.cb.numWords == 0 ==> p.bitsRemaining == 0)
    requires IsCodeBook(ranges, p.cb) && BelowFree(ranges, p)
    requires ValidRanges(ranges + [range])
    ensures var cb := PackOne(p, range).cb;
      forall i, j :: 0 <= i < j < |ranges| + 1 ==> Ordered(ranges + [range], cb, i, j)
  {
    var cb, rs := PackOne(p, range).cb, ranges + [range];
    forall i, j {:trigger Ordered(rs, cb, i, j)} | 0 <= i < j < |rs|
      ensures Ordered(rs, cb, i, j)
    {
      assert EntryFits(ranges, p.cb, i);
      assert cb.entries[i] == p.cb.entries[i] && rs[i] == ranges[i];
      if j < |ranges| {
        assert cb.entries[j] == p.cb.entries[j] && rs[j] == ranges[j];
        assert Ordered(ranges, p.cb, i, j);
      }
    }
  }

  /** Every field lies within one word, and fields that share a word do not overlap. */
  lemma {:induction false} PackIsCodeBook(ranges: seq<nat>)
    requires ValidRanges(ranges)
    ensures IsCodeBook(ranges, Pack(ranges).cb)
    ensures Pack(ranges).cb.numWords == 0 ==> Pack(ranges).bitsRemaining == 0
    ensures BelowFree(ranges, Pack(ranges))
  {
    if ranges != [] {
      var k := |ranges| - 1;
      PackIsCodeBook(ranges[..k]);
      assert ranges == ranges[..k] + [ranges[k]];
      PackOneFits(ranges[..k], Pack(ranges[..k]), ranges[k]);
      PackOneBelowFree(ranges[..k], Pack(ranges[..k]), ranges[k]);
      PackOneOrdered(ranges[..k], Pack(ranges[..k]), ranges[k]);
    }
  }

  /** Any two consecutive words together hold more than 64 bits. `full` counts the bits in all words
      but the last and `previous` those in the last but one. */
  lemma {:induction false} PackFill(ranges: seq<nat>) returns (full: int, previous: int)
    requires ValidRanges(ranges)
    ensures var p := Pack(ranges); var last := WORD_BITS - p.bitsRemaining;
      && (p.cb.numWords == 0 ==> TotalBits(ranges) == 0 && p.bitsRemaining == 0)
      && (p.cb.numWords > 0 ==> TotalBits(ranges) == full + last && last > 0)
      && (p.cb.numWords <= 1 ==> full == 0)
      && (p.cb.numWords >= 2 ==>
            && 0 < previous <= full && previous + last > WORD_BITS
            && 2 * full - previous >= (WORD_BITS + 1) * (p.cb.numWords - 2))
  {
    if ranges == [] {
      full, previous := 0, 0;
    } else {
      var k := |ranges| - 1;
      full, previous := PackFill(ranges[..k]);
      var p := Pack(ranges[..k]);
      var bits := Log2RoundUp(ranges[k]);
      if p.bitsRemaining < bits && p.cb.numWords > 0 {
        previous := WORD_BITS - p.bitsRemaining;
        full := full + previous;
      }
    }
  }

  /** Greedy packing stays within a factor of two: 65 bits of data pay for every two words but one. */
  lemma PackingBound(ranges: seq<nat>)
    requires ValidRanges(ranges)
    ensures (WORD_BITS + 1) * (Pack(ranges).cb.numWords - 1) <= 2 * TotalBits(ranges)
  {
    var full, previous := PackFill(ranges);
  }

  lemma PackStep(ranges: seq<nat>, k: nat)
    requires ValidRanges(ranges) && k < |ranges|
    ensures Pack(ranges[..k + 1]) == PackOne(Pack(ranges[..k]), ranges[k])
  {
    assert ranges[..k + 1][..k] == ranges[..k];
  }

  method AddEntry(codeBook: CodeBook, free: nat, range: nat) returns (cb: CodeBook, bitsRemaining: nat)
    requires ValidRange(range) && free <= WORD_BITS && (codeBook.numWords == 0 ==> free == 0)
    ensures Packer(cb, bitsRemaining) == PackOne(Packer(codeBook, free), range)
    ensures cb.numWords == 0 ==> bitsRemaining == 0
  {
    cb, bitsRemaining := codeBook, free;
    var bitCount := Log2RoundUp(range);
    if bitsRemaining < bitCount {
      cb := cb.(numWords := cb.numWords + 1);
      bitsRemaining := WORD_BITS;
    }
    var entry := CodeBookEntry(0, 0, Zero(), range, true);
    if bitCount != 0 {
      var shift := WORD_BITS - bitsRemaining;
      entry := CodeBookEntry(cb.numWords - 1, shift, FieldMask(bitCount, shift), range, false);
    }
    cb := cb.(entries := cb.entries + [entry]);
    bitsRemaining := bitsRemaining - bitCount;
  }

  method CreateCodeBook(ranges: seq<nat>) returns (cb: CodeBook)
    requires ValidRanges(ranges)
    ensures IsCodeBook(ranges, cb)
    ensures (WORD_BITS + 1) * (cb.numWords - 1) <= 2 * TotalBits(ranges)
    ensures cb == Pack(ranges).cb
  {
    cb := CodeBook(0, []);
    var bitsRemaining: nat := 0;
    for k := 0 to |ranges|
      invariant bitsRemaining <= WORD_BITS
      invariant Packer(cb, bitsRemaining) == Pack(ranges[..k])
      invariant cb.numWords == 0 ==> bitsRemaining == 0
    {
      PackStep(ranges, k);
      cb, bitsRemaining := AddEntry(cb, bitsRemaining, ranges[k]);
    }
    assert ranges[..|ranges|] == ranges;
    PackIsCodeBook(ranges);
    PackingBound(ranges);
  }

  /** What Get computes from the words. */
  function LoadField(words: seq<Word>, e: CodeBookEntry): nat
    requires !e.isConstantZero ==> e.wordIndex < |words|
  {
    if e.isConstantZero then 0 else Unsigned(Shr(And(words[e.wordIndex], e.mask), e.shift))
  }

  function StoreBits(w: Word, e: CodeBookEntry, value: nat): Word {
    Or(And(w, Not(e.mask)), Shl(ToBits(value, WORD_BITS), e.shift))
  }

  /** What Set leaves in the words. */
  function StoreField(words: seq<Word>, e: CodeBookEntry, value: nat): (r: seq<Word>)
    requires !e.isConstantZero ==> e.wordIndex < |words|
    ensures |r| == |words|
  {
    if e.isConstantZero then words else words[e.wordIndex := StoreBits(words[e.wordIndex], e, value)]
  }

  /** The mask covers exactly the positions from shift to shift + bits. */
  lemma MaskBits(bits: nat, shift: nat, k: nat)
    requires shift + bits <= WORD_BITS && k < WORD_BITS
    ensures FieldMask(bits, shift)[k] == (shift <= k < shift + bits)
  {
    if shift <= k { OnesBits(bits, WORD_BITS, k - shift); }
  }

  /** Storing replaces the bits of its own field and leaves all others alone. */
  lemma StoreOne(w: Word, e: CodeBookEntry, value: nat, k: nat)
    requires k < WORD_BITS
    ensures StoreBits(w, e, value)[k] ==
            ((w[k] && !e.mask[k]) || (e.shift <= k && ToBits(value, WORD_BITS)[k - e.shift]))
  {
  }

  lemma StoredBit(w: Word, e: CodeBookEntry, bits: nat, value: nat, k: nat)
    requires e.shift + bits <= WORD_BITS && e.mask == FieldMask(bits, e.shift) && value < Pow2(bits) && k < WORD_BITS
    ensures StoreBits(w, e, value)[k] ==
            if e.shift <= k < e.shift + bits then ToBits(value, WORD_BITS)[k - e.shift] else w[k]
  {
    MaskBits(bits, e.shift, k);
    StoreOne(w, e, value, k);
    if e.shift + bits <= k { SmallHasNoHighBits(value, bits, WORD_BITS, k - e.shift); }
  }

  lemma LoadStored(w: Word, e: CodeBookEntry, bits: nat, value: nat)
    requires e.shift + bits <= WORD_BITS && e.mask == FieldMask(bits, e.shift) && value < Pow2(bits)
    ensures Unsigned(Shr(And(StoreBits(w, e, value), e.mask), e.shift)) == value
  {
    var r := Shr(And(StoreBits(w, e, value), e.mask), e.shift);
    forall k | 0 <= k < WORD_BITS
      ensures r[k] == ToBits(value, WORD_BITS)[k]
    {
      if k + e.shift < WORD_BITS {
        StoredBit(w, e, bits, value, k + e.shift);
        MaskBits(bits, e.shift, k + e.shift);
      }
      if bits <= k { SmallHasNoHighBits(value, bits, WORD_BITS, k); }
    }
    assert r == ToBits(value, WORD_BITS);
    Pow2Monotone(bits, WORD_BITS);
    FromToBits(value, WORD_BITS);
  }

  lemma LoadOther(w: Word, e: CodeBookEntry, bits: nat, value: nat, f: CodeBookEntry, otherBits: nat)
    requires e.shift + bits <= WORD_BITS && e.mask == FieldMask(bits, e.shift) && value < Pow2(bits)
    requires f.shift + otherBits <= WORD_BITS && f.mask == FieldMask(otherBits, f.shift)
    requires e.shift + bits <= f.shift || f.shift + otherBits <= e.shift
    ensures And(StoreBits(w, e, value), f.mask) == And(w, f.mask)
  {
    forall k | 0 <= k < WORD_BITS
      ensures And(StoreBits(w, e, value), f.mask)[k] == And(w, f.mask)[k]
    {
      StoredBit(w, e, bits, value, k);
      MaskBits(otherBits, f.shift, k);
    }
  }

  ghost predicate Fits(ranges: seq<nat>, cb: CodeBook, words: seq<Word>) {
    IsCodeBook(ranges, cb) && |words| == cb.numWords
  }

  /** A packed vector read as the plain vector it stands for. */
  ghost function Unpack(ranges: seq<nat>, cb: CodeBook, words: seq<Word>): (v: seq<nat>)
    requires Fits(ranges, cb, words)
    ensures |v| == |ranges|
  {
    seq(|ranges|, i requires 0 <= i < |ranges| && EntryFits(ranges, cb, i) => LoadField(words, cb.entries[i]))
  }

  /** Setting one index of the packed vector sets that index of the plain vector and no other. */
  lemma StoreRefinesUpdate(ranges: seq<nat>, cb: CodeBook, words: seq<Word>, i: nat, value: nat)
    requires Fits(ranges, cb, words) && i < |ranges| && value < ranges[i]
    requires EntryFits(ranges, cb, i)
    ensures Unpack(ranges, cb, StoreField(words, cb.entries[i], value)) == Unpack(ranges, cb, words)[i := value]
  {
    var e := cb.entries[i];
    var after := StoreField(words, e, value);
    forall j | 0 <= j < |ranges|
      ensures Unpack(ranges, cb, after)[j] == Unpack(ranges, cb, words)[i := value][j]
    {
      assert EntryFits(ranges, cb, j);
      var f := cb.entries[j];
      if !e.isConstantZero && !f.isConstantZero && f.wordIndex == e.wordIndex {
        if j == i {
          LoadStored(words[e.wordIndex], e, Bits(ranges, i), value);
        } else {
          assert Ordered(ranges, cb, if i < j then i else j, if i < j then j else i);
          LoadOther(words[e.wordIndex], e, Bits(ranges, i), value, f, Bits(ranges, j));
        }
      }
    }
  }

  lemma {:induction false} ZeroBits(n: nat)
    ensures Unsigned(seq(n, _ => false)) == 0
  {
    if n > 0 {
      assert seq(n, _ => false)[1..] == seq(n - 1, _ => false);
      ZeroBits(n - 1);
    }
  }

  lemma ZeroWords(ranges: seq<nat>, cb: CodeBook, words: seq<Word>)
    requires Fits(ranges, cb, words) && forall k :: 0 <= k < |words| ==> words[k] == Zero()
    ensures Unpack(ranges, cb, words) == seq(|ranges|, _ => 0)
  {
    forall i | 0 <= i < |ranges|
      ensures Unpack(ranges, cb, words)[i] == 0
    {
      assert EntryFits(ranges, cb, i);
      if !cb.entries[i].isConstantZero {
        assert Shr(And(Zero(), cb.entries[i].mask), cb.entries[i].shift) == seq(WORD_BITS, _ => false);
        ZeroBits(WORD_BITS);
      }
    }
  }

  ghost predicate InRangeSets(ranges: seq<nat>, sets: seq<(nat, nat)>) {
    forall k :: 0 <= k < |sets| ==> sets[k].0 < |ranges| && sets[k].1 < ranges[sets[k].0]
  }

  ghost function StoreAll(cb: CodeBook, words: seq<Word>, ranges: seq<nat>, sets: seq<(nat, nat)>): (r: seq<Word>)
    requires Fits(ranges, cb, words) && InRangeSets(ranges, sets)
    ensures |r| == |words|
    decreases |sets|
  {
    if sets == [] then words
    else
      assert EntryFits(ranges, cb, sets[0].0);
      StoreAll(cb, StoreField(words, cb.entries[sets[0].0], sets[0].1), ranges, sets[1..])
  }

  ghost function UpdateAll(v: seq<nat>, sets: seq<(nat, nat)>): (r: seq<nat>)
    requires forall k :: 0 <= k < |sets| ==> sets[k].0 < |v|
    ensures |r| == |v|
    decreases |sets|
  {
    if sets == [] then v else UpdateAll(v[sets[0].0 := sets[0].1], sets[1..])
  }

  /** After any run of in-range Sets the packed vector reads as the plain vector after the same updates. */
  lemma {:induction false} PackedRefinesPlain(cb: CodeBook, words: seq<Word>, ranges: seq<nat>, sets: seq<(nat, nat)>)
    requires Fits(ranges, cb, words) && InRangeSets(ranges, sets)
    ensures Unpack(ranges, cb, StoreAll(cb, words, ranges, sets)) == UpdateAll(Unpack(ranges, cb, words), sets)
    decreases |sets|
  {
    if sets != [] {
      assert EntryFits(ranges, cb, sets[0].0);
      StoreRefinesUpdate(ranges, cb, words, sets[0].0, sets[0].1);
      PackedRefinesPlain(cb, StoreField(words, cb.entries[sets[0].0], sets[0].1), ranges, sets[1..]);
    }
  }

  class CompressedIntegerVector {
    const codeBook: CodeBook
    const words: array<Word>
    ghost const ranges: seq<nat>

    ghost predicate Valid()
      reads words
    {
      Fits(ranges, codeBook, words[..])
    }

    /** The plain vector this object stands for. */
    ghost function Contents(): (v: seq<nat>)
      requires Valid()
      reads words
    {
      Unpack(ranges, codeBook, words[..])
    }

    constructor (cb: CodeBook, ghost rs: seq<nat>)
      requires IsCodeBook(rs, cb)
      ensures Valid() && fresh(words) && codeBook == cb && ranges == rs
      ensures Contents() == seq(|rs|, _ => 0)
    {
      codeBook, ranges := cb, rs;
      words := new Word[cb.numWords](_ => Zero());
      new;
      ZeroWords(rs, cb, words[..]);
    }

    method Set(index: nat, value: nat)
      requires Valid() && index < |ranges| && value < ranges[index]
      modifies words
      ensures Valid() && Contents() == old(Contents())[index := value]
    {
      assert EntryFits(ranges, codeBook, index);
      var cbe := codeBook.entries[index];
      ghost var before := words[..];
      if !cbe.isConstantZero {
        // clear old bits
        words[cbe.wordIndex] := And(words[cbe.wordIndex], Not(cbe.mask));
        // write new bits
        words[cbe.wordIndex] := Or(words[cbe.wordIndex], Shl(ToBits(value, WORD_BITS), cbe.shift));
      }
      assert words[..] == StoreField(before, cbe, value);
      StoreRefinesUpdate(ranges, codeBook, before, index, value);
    }

    method Get(index: nat) returns (value: nat)
      requires Valid() && index < |ranges|
      ensures value == Contents()[index]
    {
      assert EntryFits(ranges, codeBook, index);
      var cbe := codeBook.entries[index];
      if cbe.isConstantZero {
        value := 0;
      } else {
        var word := words[cbe.wordIndex];
        value := Unsigned(Shr(And(word, cbe.mask), cbe.shift));
      }
    }
  }

  /** A set of integer parameters, each defined or not. */
  class IntegerParameterVector {
    const data: CompressedIntegerVector
    const valid: array<bool>

    ghost predicate Valid()
      reads valid, data.words
    {
      data.Valid() && valid.Length == |data.ranges|
    }

    /** The partial vector this object stands for: Some(value) where defined, None elsewhere. */
    ghost function View(): (v: seq<Option<nat>>)
      requires Valid()
      reads valid, data.words
      ensures |v| == |data.ranges|
    {
      seq(|data.ranges|, i requires 0 <= i < |data.ranges| && Valid() reads valid, data.words =>
        if valid[i] then Some(data.Contents()[i]) else None)
    }

    constructor (cb: CodeBook, ghost ranges: seq<nat>)
      requires IsCodeBook(ranges, cb)
      ensures Valid() && fresh(valid) && fresh(data.words) && data.ranges == ranges
      ensures View() == seq(|ranges|, _ => None)
    {
      data := new CompressedIntegerVector(cb, ranges);
      valid := new bool[|cb.entries|](_ => false);
    }

    method SetParameter(paramIndex: nat, value: nat)
      requires Valid() && paramIndex < |data.ranges| && value < data.ranges[paramIndex]
      modifies valid, data.words
      ensures Valid() && View() == old(View())[paramIndex := Some(value)]
    {
      valid[paramIndex] := true;
      data.Set(paramIndex, value);
    }

    method GetParameter(paramIndex: nat) returns (value: nat)
      requires Valid() && paramIndex < |data.ranges|
      requires View()[paramIndex].Some?
      ensures View()[paramIndex] == Some(value)
    {
      value := data.Get(paramIndex);
    }

    method IsParameterDefined(paramIndex: nat) returns (defined: bool)
      requires Valid() && paramIndex < |data.ranges|
      ensures defined <==> View()[paramIndex].Some?
    {
      defined := valid[paramIndex];
    }

    method AllDefined() returns (result: bool)
      requires Valid()
      ensures result <==> forall i :: 0 <= i < |View()| ==> View()[i].Some?
    {
      result := true;
      for i := 0 to valid.Length
        invariant result && forall k :: 0 <= k < i ==> valid[k]
      {
        if !valid[i] {
          assert View()[i].None?;
          result := false;
          break;
        }
      }
    }
  }
}
