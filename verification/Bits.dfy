/** 64-bit words seen one bit at a time.
    The unsigned shifts by a variable amount are repeated one-place shifts, so that every
    bit-vector fact needed here has constant shift amounts; what the words look like bit by
    bit is then proved by induction on the amount. */
module Bits {

  const ONES: bv64 := 0xFFFF_FFFF_FFFF_FFFF

  function Twice(v: bv64): bv64 { v << 1 }

  function Half(v: bv64): bv64 { v >> 1 }

  function And(u: bv64, v: bv64): bv64 { u & v }

  predicate Meets(v: bv64, mask: bv64) { v & mask != 0 }

  /** v << k */
  function Shl(v: bv64, k: nat): bv64 {
    if k == 0 then v else Twice(Shl(v, k - 1))
  }

  /** v >> k */
  function Shr(v: bv64, k: nat): bv64 {
    if k == 0 then v else Half(Shr(v, k - 1))
  }

  /** v & (1 << k) != 0 */
  predicate Bit(v: bv64, k: nat) {
    Meets(v, Shl(1, k))
  }

  predicate Low(v: bv64) {
    Meets(v, 1)
  }

  // One-place facts, each about a single word operation

  lemma MeetsTwice(m: bv64, v: bv64)
    ensures Meets(v, Twice(m)) <==> Meets(Half(v), m)
  {
  }

  lemma MeetsOr(u: bv64, v: bv64, m: bv64)
    ensures Meets(u | v, m) <==> Meets(u, m) || Meets(v, m)
  {
    OrIsZero(u & m, v & m);
    assert (u | v) & m == (u & m) | (v & m);
  }

  lemma OrIsZero(a: bv64, b: bv64)
    ensures a | b == 0 <==> a == 0 && b == 0
  {
  }

  lemma HalfOfAnd(u: bv64, v: bv64)
    ensures Half(And(u, v)) == And(Half(u), Half(v))
  {
  }

  lemma HalfOfTwice(w: bv64)
    ensures Half(Twice(w)) == And(w, Half(ONES))
  {
  }

  lemma TwiceIsEven(w: bv64)
    ensures !Low(Twice(w))
  {
  }

  lemma LowOfAnd(u: bv64, v: bv64)
    ensures Low(And(u, v)) <==> Low(u) && Low(v)
  {
  }

  predicate AllOnesBelow(x: bv64) { x & (x + 1) == 0 }

  lemma HalfAllOnes(x: bv64)
    requires AllOnesBelow(x)
    ensures AllOnesBelow(Half(x))
  {
  }

  lemma AllOnesIsOdd(x: bv64)
    requires AllOnesBelow(x) && x != 0
    ensures Low(x)
  {
  }

  lemma Half16(v: bv64)
    ensures Half(Half(Half(Half(v)))) == v >> 4
    ensures (v >> 4) >> 4 == v >> 8 && (v >> 8) >> 8 == v >> 16 && (v >> 16) >> 16 == v >> 32
    ensures (v >> 32) >> 16 == v >> 48 && (v >> 48) >> 16 == 0
  {
  }

  // Shifts by a variable amount

  lemma {:induction false} ShrAdd(v: bv64, a: nat, b: nat)
    ensures Shr(Shr(v, a), b) == Shr(v, a + b)
  {
    if b > 0 {
      ShrAdd(v, a, b - 1);
    }
  }

  lemma ShrFirst(v: bv64, k: nat)
    requires k > 0
    ensures Shr(Half(v), k - 1) == Shr(v, k)
  {
    ShrAdd(v, 1, k - 1);
    assert Shr(v, 1) == Half(v);
  }

  /** Moving a mask up by k tests the same bits as moving the word down by k. */
  lemma {:induction false} MaskMeetsShift(m: bv64, v: bv64, k: nat)
    ensures Meets(v, Shl(m, k)) <==> Meets(Shr(v, k), m)
    decreases k
  {
    if k > 0 {
      MeetsTwice(Shl(m, k - 1), v);
      MaskMeetsShift(m, Half(v), k - 1);
      ShrFirst(v, k);
    }
  }

  lemma BitIsLow(v: bv64, k: nat)
    ensures Bit(v, k) <==> Low(Shr(v, k))
  {
    MaskMeetsShift(1, v, k);
  }

  lemma {:induction false} ShrAnd(u: bv64, v: bv64, k: nat)
    ensures Shr(And(u, v), k) == And(Shr(u, k), Shr(v, k))
  {
    if k > 0 {
      ShrAnd(u, v, k - 1);
      HalfOfAnd(Shr(u, k - 1), Shr(v, k - 1));
    }
  }

  lemma {:induction false} ShrZero(k: nat)
    ensures Shr(0, k) == 0
  {
    if k > 0 {
      ShrZero(k - 1);
    }
  }

  lemma Shr4(v: bv64)
    ensures Shr(v, 4) == v >> 4
  {
    assert Shr(v, 1) == Half(v);
    assert Shr(v, 2) == Half(Half(v));
    assert Shr(v, 3) == Half(Half(Half(v)));
    Half16(v);
  }

  lemma Shr8(v: bv64)
    ensures Shr(v, 8) == v >> 8
  {
    Shr4(v); Shr4(v >> 4); ShrAdd(v, 4, 4);
    Half16(v);
  }

  lemma Shr16(v: bv64)
    ensures Shr(v, 16) == v >> 16
  {
    Shr8(v); Shr8(v >> 8); ShrAdd(v, 8, 8);
    Half16(v);
  }

  lemma Shr32(v: bv64)
    ensures Shr(v, 32) == v >> 32
  {
    Shr16(v); Shr16(v >> 16); ShrAdd(v, 16, 16);
    Half16(v);
  }

  lemma Shr48(v: bv64)
    ensures Shr(v, 48) == v >> 48
  {
    Shr32(v); Shr16(v >> 32); ShrAdd(v, 32, 16);
    Half16(v);
  }

  /** Nothing survives a shift by the word width or more. */
  lemma ShrAll(v: bv64, k: nat)
    requires k >= 64
    ensures Shr(v, k) == 0
  {
    Shr48(v); Shr16(v >> 48); ShrAdd(v, 48, 16);
    Half16(v);
    ShrAdd(v, 64, k - 64);
    ShrZero(k - 64);
  }

  lemma OnesLast()
    ensures Shr(ONES, 63) == 1
  {
    Shr48(ONES);
    var b: bv64 := 0xFFFF;
    Shr4(b); ShrAdd(ONES, 48, 4);
    Shr4(b >> 4); ShrAdd(ONES, 52, 4);
    Shr4(b >> 8); ShrAdd(ONES, 56, 4);
    assert Shr(ONES, 60) == 15;
    assert Shr(ONES, 61) == Half(15) == 7;
    assert Shr(ONES, 62) == Half(7) == 3;
  }

  lemma {:induction false} OnesForm(k: nat)
    ensures AllOnesBelow(Shr(ONES, k))
  {
    if k > 0 {
      OnesForm(k - 1);
      HalfAllOnes(Shr(ONES, k - 1));
    }
  }

  lemma OnesOdd(k: nat)
    requires k < 64
    ensures Low(Shr(ONES, k))
  {
    OnesForm(k);
    OnesLast();
    ShrAdd(ONES, k, 63 - k);
    ShrZero(63 - k);
    AllOnesIsOdd(Shr(ONES, k));
  }

  /** Doubling moves every bit one place up. */
  lemma LowOfTwice(w: bv64, j: nat)
    requires 0 < j < 64
    ensures Low(Shr(Twice(w), j)) <==> Low(Shr(w, j - 1))
  {
    ShrFirst(Twice(w), j);
    HalfOfTwice(w);
    ShrAnd(w, Half(ONES), j - 1);
    ShrFirst(ONES, j);
    OnesOdd(j);
    LowOfAnd(Shr(w, j - 1), Shr(ONES, j));
  }

  // What the window operations do to single bits

  lemma BitOr(u: bv64, v: bv64, k: nat)
    ensures Bit(u | v, k) <==> Bit(u, k) || Bit(v, k)
  {
    MeetsOr(u, v, Shl(1, k));
  }

  lemma BitZero(k: nat)
    ensures !Bit(0, k)
  {
    BitIsLow(0, k);
    ShrZero(k);
  }

  lemma BitShr(v: bv64, d: nat, k: nat)
    ensures Bit(Shr(v, d), k) <==> d + k < 64 && Bit(v, d + k)
  {
    BitIsLow(Shr(v, d), k);
    ShrAdd(v, d, k);
    BitIsLow(v, d + k);
    if d + k >= 64 {
      ShrAll(v, d + k);
    }
  }

  lemma {:induction false} BitShl(v: bv64, s: nat, j: nat)
    requires j < 64
    ensures Bit(Shl(v, s), j) <==> s <= j && Bit(v, j - s)
  {
    if s > 0 {
      var w := Shl(v, s - 1);
      BitIsLow(Twice(w), j);
      if j > 0 {
        BitShl(v, s - 1, j - 1);
        BitIsLow(w, j - 1);
        LowOfTwice(w, j);
      } else {
        TwiceIsEven(w);
      }
    }
  }

  /** Two single-bit masks meet exactly when they name the same bit. */
  lemma BitMask(k: nat, j: nat)
    requires j < 64
    ensures Bit(Shl(1, k), j) <==> k == j
  {
    BitShl(1, k, j);
    if k <= j {
      BitIsLow(1, j - k);
      if k < j {
        ShrFirst(1, j - k);
        ShrZero(j - k - 1);
      }
    }
  }
}
