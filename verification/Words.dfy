/** Machine words as sets of bit positions. */
module Words {

  type Word = bv64

  const BITS: nat := 64

  predicate Odd(w: Word) {
    w & 1 == 1
  }

  function Half(w: Word): Word {
    w >> 1
  }

  function Twice(w: Word): Word {
    w << 1
  }

  function AndNot(a: Word, b: Word): Word {
    a & !b
  }

  function Or(a: Word, b: Word): Word {
    a | b
  }

  function WithoutLowest(w: Word): Word {
    w & (w - 1)
  }

  predicate Bit(w: Word, i: nat) {
    if i == 0 then Odd(w) else Bit(Half(w), i - 1)
  }

  function OneBit(i: nat): Word {
    if i == 0 then 1 else Twice(OneBit(i - 1))
  }

  lemma HalfAndNot(a: Word, b: Word)
    ensures Half(AndNot(a, b)) == AndNot(Half(a), Half(b)) && (Odd(AndNot(a, b)) <==> Odd(a) && !Odd(b))
  {
  }

  lemma HalfOr(a: Word, b: Word)
    ensures Half(Or(a, b)) == Or(Half(a), Half(b))
  {
  }

  lemma OddOr(a: Word, b: Word)
    ensures Odd(Or(a, b)) <==> Odd(a) || Odd(b)
  {
  }

  lemma LowestOfOdd(w: Word)
    requires Odd(w)
    ensures Half(WithoutLowest(w)) == Half(w) && !Odd(WithoutLowest(w))
  {
  }

  lemma LowestOfEven(w: Word)
    requires !Odd(w) && w != 0
    ensures Half(w) != 0 && Half(WithoutLowest(w)) == WithoutLowest(Half(w)) && !Odd(WithoutLowest(w))
  {
  }

  lemma Smaller(w: Word)
    requires w != 0
    ensures WithoutLowest(w) < w && Half(w) < w
  {
  }

  lemma ZeroOrNot(w: Word)
    ensures w == 0 <==> Half(w) == 0 && !Odd(w)
  {
  }

  lemma EightHalves(w: Word)
    ensures Half(Half(Half(Half(Half(Half(Half(Half(w)))))))) == w >> 8
  {
  }

  lemma SixtyFourHalves(w: Word)
    ensures w >> 8 >> 8 >> 8 >> 8 >> 8 >> 8 >> 8 >> 8 == 0
  {
  }

  /** Words that fit into n bits. */
  predicate Fits(w: Word, n: nat) {
    if n == 0 then w == 0 else Fits(Half(w), n - 1)
  }

  lemma EightMore(w: Word, n: nat)
    requires Fits(w >> 8, n)
    ensures Fits(w, n + 8)
  {
    EightHalves(w);
    hide Half;
    var w1 := Half(w);
    var w2 := Half(w1);
    var w3 := Half(w2);
    var w4 := Half(w3);
    var w5 := Half(w4);
    var w6 := Half(w5);
    var w7 := Half(w6);
    assert Fits(w7, n + 1) && Fits(w6, n + 2) && Fits(w5, n + 3) && Fits(w4, n + 4);
    assert Fits(w3, n + 5) && Fits(w2, n + 6) && Fits(w1, n + 7);
  }

  lemma EveryWordFits(w: Word)
    ensures Fits(w, 64)
  {
    var w1 := w >> 8;
    var w2 := w1 >> 8;
    var w3 := w2 >> 8;
    var w4 := w3 >> 8;
    var w5 := w4 >> 8;
    var w6 := w5 >> 8;
    var w7 := w6 >> 8;
    SixtyFourHalves(w);
    EightMore(w7, 0);
    EightMore(w6, 8);
    EightMore(w5, 16);
    EightMore(w4, 24);
    EightMore(w3, 32);
    EightMore(w2, 40);
    EightMore(w1, 48);
    EightMore(w, 56);
  }

  lemma {:induction false} NoBits(w: Word, n: nat)
    requires Fits(w, n) && forall i: nat :: i < n ==> !Bit(w, i)
    ensures w == 0
    decreases n
  {
    ZeroOrNot(w);
    hide Half, Odd;
    if n > 0 {
      assert !Bit(w, 0);
      forall i: nat | i < n - 1
        ensures !Bit(Half(w), i)
      {
        assert !Bit(w, i + 1);
      }
      NoBits(Half(w), n - 1);
    }
  }

  lemma {:induction false} ZeroHasNoBits(i: nat)
    ensures !Bit(0, i)
  {
    ZeroOrNot(0);
    hide Half, Odd;
    if i > 0 {
      ZeroHasNoBits(i - 1);
    }
  }

  lemma {:induction false} BitInRange(w: Word, n: nat, i: nat)
    requires Fits(w, n) && Bit(w, i)
    ensures i < n
    decreases n
  {
    hide Half, Odd;
    if n == 0 {
      ZeroHasNoBits(i);
    } else if i > 0 {
      BitInRange(Half(w), n - 1, i - 1);
    }
  }

  lemma {:induction false} BitOfOr(a: Word, b: Word, i: nat)
    ensures Bit(Or(a, b), i) <==> Bit(a, i) || Bit(b, i)
    decreases i
  {
    HalfOr(a, b);
    OddOr(a, b);
    hide Half, Odd, Or;
    if i > 0 {
      BitOfOr(Half(a), Half(b), i - 1);
    }
  }

  lemma {:induction false} BitOfAndNot(a: Word, b: Word, i: nat)
    ensures Bit(AndNot(a, b), i) <==> Bit(a, i) && !Bit(b, i)
    decreases i
  {
    HalfAndNot(a, b);
    hide Half, Odd, AndNot;
    if i > 0 {
      BitOfAndNot(Half(a), Half(b), i - 1);
    }
  }

  /** The position of the lowest one. */
  function CountrZero(w: Word): (r: nat)
    requires w != 0
    decreases w
  {
    Smaller(w);
    ZeroOrNot(w);
    if Odd(w) then 0 else 1 + CountrZero(Half(w))
  }

  lemma LowestOne(w: Word, j: nat)
    requires w != 0
    ensures CountrZero(w) < 64 && Bit(w, CountrZero(w)) && (Bit(w, j) ==> CountrZero(w) <= j)
  {
    LowestIsLeast(w, j);
    EveryWordFits(w);
    BitInRange(w, 64, CountrZero(w));
  }

  lemma {:induction false} LowestIsLeast(w: Word, j: nat)
    requires w != 0
    ensures Bit(w, CountrZero(w)) && (Bit(w, j) ==> CountrZero(w) <= j)
    decreases w
  {
    Smaller(w);
    ZeroOrNot(w);
    hide Half, Odd;
    if !Odd(w) {
      LowestIsLeast(Half(w), if j > 0 then j - 1 else 0);
    }
  }

  /** Subtracting one and masking takes away exactly the lowest one. */
  lemma {:induction false} ClearLowest(w: Word, i: nat)
    requires w != 0
    ensures Bit(WithoutLowest(w), i) <==> Bit(w, i) && i != CountrZero(w)
    decreases w
  {
    Smaller(w);
    if Odd(w) {
      LowestOfOdd(w);
    } else {
      LowestOfEven(w);
    }
    hide Half, Odd, WithoutLowest;
    if !Odd(w) && i > 0 {
      ClearLowest(Half(w), i - 1);
    }
  }

  lemma TwiceHalf(w: Word)
    requires !HighBit(w)
    ensures Half(Twice(w)) == w
    ensures !Odd(Twice(w))
  {
  }

  predicate HighBit(w: Word) {
    w & 0x8000_0000_0000_0000 != 0
  }

  lemma SevenHalves(w: Word)
    ensures Half(Half(Half(Half(Half(Half(Half(w))))))) == w >> 7
  {
  }

  lemma SixtyThreeHalves(w: Word)
    requires w >> 8 >> 8 >> 8 >> 8 >> 8 >> 8 >> 8 >> 7 == 0
    ensures !HighBit(w)
  {
  }

  lemma EightLess(w: Word, n: nat)
    requires Fits(w, n + 8)
    ensures Fits(w >> 8, n)
  {
    EightHalves(w);
    hide Half;
    assert Fits(Half(w), n + 7) && Fits(Half(Half(w)), n + 6) && Fits(Half(Half(Half(w))), n + 5);
    assert Fits(Half(Half(Half(Half(w)))), n + 4) && Fits(Half(Half(Half(Half(Half(w))))), n + 3);
    assert Fits(Half(Half(Half(Half(Half(Half(w)))))), n + 2) && Fits(Half(Half(Half(Half(Half(Half(Half(w))))))), n + 1);
  }

  lemma SevenBits(w: Word)
    requires Fits(w, 7)
    ensures w >> 7 == 0
  {
    SevenHalves(w);
    hide Half;
    assert Fits(Half(w), 6) && Fits(Half(Half(w)), 5) && Fits(Half(Half(Half(w))), 4) && Fits(Half(Half(Half(Half(w)))), 3);
    assert Fits(Half(Half(Half(Half(Half(w))))), 2) && Fits(Half(Half(Half(Half(Half(Half(w)))))), 1);
    assert Fits(Half(Half(Half(Half(Half(Half(Half(w))))))), 0);
  }

  lemma NoHighBit(w: Word)
    requires Fits(w, 63)
    ensures !HighBit(w)
  {
    var w1 := w >> 8;
    var w2 := w1 >> 8;
    var w3 := w2 >> 8;
    var w4 := w3 >> 8;
    var w5 := w4 >> 8;
    var w6 := w5 >> 8;
    var w7 := w6 >> 8;
    EightLess(w, 55);
    EightLess(w1, 47);
    EightLess(w2, 39);
    EightLess(w3, 31);
    EightLess(w4, 23);
    EightLess(w5, 15);
    EightLess(w6, 7);
    SevenBits(w7);
    SixtyThreeHalves(w);
  }

  lemma {:induction false} FitsMore(w: Word, m: nat, n: nat)
    requires m <= n && Fits(w, m)
    ensures Fits(w, n)
    decreases n
  {
    ZeroOrNot(0);
    hide Half, Odd;
    if m > 0 {
      FitsMore(Half(w), m - 1, n - 1);
    } else if n > 0 {
      FitsMore(0, 0, n - 1);
    }
  }

  lemma HalfOne()
    ensures Half(1) == 0 && Odd(1)
  {
  }

  lemma {:induction false} OneBitFits(i: nat)
    requires i < 64
    ensures Fits(OneBit(i), i + 1)
    ensures i > 0 ==> Half(OneBit(i)) == OneBit(i - 1) && !Odd(OneBit(i))
  {
    HalfOne();
    hide Half, Twice, HighBit, Odd;
    if i > 0 {
      OneBitFits(i - 1);
      FitsMore(OneBit(i - 1), i, 63);
      NoHighBit(OneBit(i - 1));
      TwiceHalf(OneBit(i - 1));
    }
  }

  lemma {:induction false} BitOfOne(i: nat, j: nat)
    requires i < 64
    ensures Bit(OneBit(i), j) <==> i == j
  {
    OneBitFits(i);
    HalfOne();
    hide Half, Twice, Odd;
    if j > 0 {
      if i == 0 {
        ZeroHasNoBits(j - 1);
      } else {
        BitOfOne(i - 1, j - 1);
      }
    }
  }

  ghost predicate BitsWithin(a: Word, b: Word) {
    forall i: nat :: i < 64 && Bit(a, i) ==> Bit(b, i)
  }

  lemma Subset(a: Word, b: Word)
    ensures AndNot(a, b) == 0 <==> BitsWithin(a, b)
  {
    hide AndNot;
    forall i: nat
      ensures Bit(AndNot(a, b), i) <==> Bit(a, i) && !Bit(b, i)
    {
      BitOfAndNot(a, b, i);
    }
    if AndNot(a, b) == 0 {
      forall i: nat | i < 64 && Bit(a, i)
        ensures Bit(b, i)
      {
        ZeroHasNoBits(i);
      }
    }
    if BitsWithin(a, b) {
      EveryWordFits(AndNot(a, b));
      NoBits(AndNot(a, b), 64);
    }
  }

  lemma NoDifference(a: Word, b: Word)
    requires AndNot(a, b) == 0 && AndNot(b, a) == 0
    ensures a == b
  {
  }

  lemma SameBits(a: Word, b: Word)
    ensures a == b <==> BitsWithin(a, b) && BitsWithin(b, a)
  {
    hide AndNot;
    Subset(a, b);
    Subset(b, a);
    if BitsWithin(a, b) && BitsWithin(b, a) {
      NoDifference(a, b);
    }
  }
}
