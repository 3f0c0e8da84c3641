/** GF(2^8) with the reduction polynomial 0x11D. */
module Gf256 {
  function Add(a: bv8, b: bv8): bv8 { a ^ b }
  predicate Odd(b: bv8) { b & 1 != 0 }
  predicate High(a: bv8) { a & 0x80 != 0 }
  function Double(a: bv8): bv8 { a << 1 }
  function Half(b: bv8): bv8 { b >> 1 }
  function XTime(a: bv8): bv8 { if High(a) then Add(Double(a), 0x1d) else Double(a) }
  function Pick(a: bv8, b: bv8): bv8 { if Odd(b) then a else 0 }
  function Mul(a: bv8, b: bv8): bv8
    decreases b
  {
    if b == 0 then 0 else Add(Pick(a, b), Mul(XTime(a), Half(b)))
  }
  lemma AddLaws(a: bv8, b: bv8, c: bv8)
    ensures Add(a, Add(b, c)) == Add(Add(a, b), c)
    ensures Add(a, b) == Add(b, a)
    ensures Add(a, 0) == a == Add(0, a)
    ensures Add(a, a) == 0
  {}
  lemma HighAdd(a: bv8, b: bv8)
    ensures High(Add(a, b)) == (High(a) != High(b))
  {}
  lemma ShiftAdd(a: bv8, b: bv8)
    ensures Double(Add(a, b)) == Add(Double(a), Double(b))
    ensures Half(Add(a, b)) == Add(Half(a), Half(b))
  {}
  lemma Shuffle(p: bv8, q: bv8, r: bv8, t: bv8)
    ensures Add(Add(p, q), Add(r, t)) == Add(Add(p, r), Add(q, t))
  {
    hide *;
    AddLaws(p, q, Add(r, t)); AddLaws(q, r, t); AddLaws(r, q, t); AddLaws(p, r, Add(q, t));
  }
  lemma XTimeAdd(a: bv8, b: bv8)
    ensures XTime(Add(a, b)) == Add(XTime(a), XTime(b))
  {
    hide Add, High, Double;
    HighAdd(a, b);
    ShiftAdd(a, b);
    AddLaws(Double(a), Double(b), 0x1d);
    AddLaws(Double(a), 0x1d, Double(b));
    AddLaws(0x1d, Double(b), Double(b));
    Shuffle(Double(a), Double(b), 0x1d, 0x1d); AddLaws(0x1d, 0, 0); AddLaws(Add(Double(a), Double(b)), 0, 0);
  }
  lemma PickAddLeft(a: bv8, b: bv8, c: bv8)
    ensures Pick(Add(a, b), c) == Add(Pick(a, c), Pick(b, c))
  {
    hide Add, Odd;
    AddLaws(0, 0, 0);
  }
  lemma MulStep(a: bv8, b: bv8)
    ensures Mul(a, b) == Add(Pick(a, b), Mul(XTime(a), Half(b)))
  {}
  lemma {:induction false} MulAddLeft(a: bv8, b: bv8, c: bv8)
    ensures Mul(Add(a, b), c) == Add(Mul(a, c), Mul(b, c))
    decreases c
  {
    if c == 0 {
    } else {
      assert Half(c) < c;
      MulAddLeft(XTime(a), XTime(b), Half(c));
      MulAddLeftStep(a, b, c);
    }
  }
  lemma MulAddLeftStep(a: bv8, b: bv8, c: bv8)
    requires Mul(Add(XTime(a), XTime(b)), Half(c)) == Add(Mul(XTime(a), Half(c)), Mul(XTime(b), Half(c)))
    ensures Mul(Add(a, b), c) == Add(Mul(a, c), Mul(b, c))
  {
    hide *;
    MulStep(a, c); MulStep(b, c); MulStep(Add(a, b), c);
    PickAddLeft(a, b, c);
    XTimeAdd(a, b);
    Shuffle(Pick(a, c), Pick(b, c), Mul(XTime(a), Half(c)), Mul(XTime(b), Half(c)));
  }
  lemma {:induction false} MulXTime(a: bv8, b: bv8)
    ensures Mul(XTime(a), b) == XTime(Mul(a, b))
    decreases b
  {
    if b == 0 {
      hide Mul;
    } else {
      assert Half(b) < b;
      MulXTime(XTime(a), Half(b));
      MulXTimeStep(a, b);
    }
  }
  lemma MulXTimeStep(a: bv8, b: bv8)
    requires Mul(XTime(XTime(a)), Half(b)) == XTime(Mul(XTime(a), Half(b)))
    ensures Mul(XTime(a), b) == XTime(Mul(a, b))
  {
    hide *;
    MulStep(a, b); MulStep(XTime(a), b);
    XTimeAdd(Pick(a, b), Mul(XTime(a), Half(b)));
    XTimePick(a, b);
  }
  lemma XTimePick(a: bv8, b: bv8)
    ensures XTime(Pick(a, b)) == Pick(XTime(a), b)
  {}

  // a = (low bit) + x * (the rest)
  lemma Split(a: bv8)
    ensures a == Add(Pick(1, a), XTime(Half(a)))
  {}
  lemma {:induction false} MulZeroLeft(a: bv8)
    ensures Mul(0, a) == 0
    decreases a
  { if a != 0 { assert Half(a) < a; assert XTime(0) == 0; MulZeroLeft(Half(a)); } }
  lemma {:induction false} MulOneLeft(b: bv8)
    ensures Mul(1, b) == b
    decreases b
  {
    if b != 0 {
      assert Half(b) < b;
      MulOneLeft(Half(b));
      MulOneLeftStep(b);
    }
  }
  lemma MulOneLeftStep(b: bv8)
    requires Mul(1, Half(b)) == Half(b)
    ensures Mul(1, b) == b
  {
    hide *;
    MulStep(1, b); MulXTime(1, Half(b)); Split(b);
  }
  lemma MulPickLeft(a: bv8, b: bv8)
    ensures Mul(Pick(1, b), a) == Pick(a, b)
  {
    hide Mul;
    if Odd(b) { MulOneLeft(a); } else { MulZeroLeft(a); }
  }
  lemma {:induction false} MulComm(a: bv8, b: bv8)
    ensures Mul(a, b) == Mul(b, a)
    decreases b
  {
    if b == 0 { MulZeroLeft(a); }
    else {
      assert Half(b) < b;
      MulComm(a, Half(b));
      MulCommStep(a, b);
    }
  }
  lemma MulCommStep(a: bv8, b: bv8)
    requires Mul(a, Half(b)) == Mul(Half(b), a)
    ensures Mul(a, b) == Mul(b, a)
  {
    hide *;
    MulStep(a, b); MulXTime(a, Half(b)); MulXTime(Half(b), a);
    Split(b); MulAddLeft(Pick(1, b), XTime(Half(b)), a); MulPickLeft(a, b);
  }
  lemma {:induction false} MulAssoc(a: bv8, b: bv8, c: bv8)
    ensures Mul(Mul(a, b), c) == Mul(a, Mul(b, c))
    decreases c
  {
    if c == 0 {
    } else {
      assert Half(c) < c;
      MulAssoc(a, b, Half(c));
      MulAssocStep(a, b, c);
    }
  }
  lemma MulPick(a: bv8, b: bv8, c: bv8)
    ensures Mul(a, Pick(b, c)) == Pick(Mul(a, b), c)
  { }
  lemma MulAssocStep(a: bv8, b: bv8, c: bv8)
    requires Mul(Mul(a, b), Half(c)) == Mul(a, Mul(b, Half(c)))
    ensures Mul(Mul(a, b), c) == Mul(a, Mul(b, c))
  {
    hide *;
    var r := Mul(b, Half(c));
    MulStep(Mul(a, b), c); MulXTime(Mul(a, b), Half(c));
    MulStep(b, c); MulXTime(b, Half(c));
    MulDistribute(a, Pick(b, c), XTime(r));
    MulPick(a, b, c);
    MulComm(a, XTime(r)); MulXTime(r, a); MulComm(a, r);
  }
  lemma MulDistribute(a: bv8, b: bv8, c: bv8)
    ensures Mul(a, Add(b, c)) == Add(Mul(a, b), Mul(a, c))
  {
    hide *;
    MulComm(a, Add(b, c)); MulComm(a, b); MulComm(a, c);
    MulAddLeft(b, c, a);
  }
  // Squaring is linear over GF(2)
  function SquareBits(e: bv8): bv8 {
    (e & 1) ^ ((e & 2) << 1) ^ ((e & 4) << 2) ^ ((e & 8) << 3)
    ^ (((e >> 4) & 1) * 0x1d) ^ (((e >> 5) & 1) * 0x74) ^ (((e >> 6) & 1) * 0xcd) ^ (((e >> 7) & 1) * 0x13)
  }
  lemma SquareBitsSplit(a: bv8)
    ensures SquareBits(a) == Add(Pick(1, a), XTime(XTime(SquareBits(Half(a)))))
  {}
  lemma SquareBitsIdempotent(a: bv8)
    requires SquareBits(a) == a
    ensures a == 0 || a == 1
  {}
  lemma SquareBitsEight(a: bv8)
    ensures SquareBits(SquareBits(SquareBits(SquareBits(SquareBits(SquareBits(SquareBits(SquareBits(a)))))))) == a
  {}

  lemma {:induction false} SquareIsLinear(a: bv8)
    ensures Mul(a, a) == SquareBits(a)
    decreases a
  {
    if a == 0 {
      assert SquareBits(0) == 0;
    } else {
      assert Half(a) < a;
      SquareIsLinear(Half(a));
      SquareStep(a);
    }
  }
  lemma SquareStep(a: bv8)
    requires Mul(Half(a), Half(a)) == SquareBits(Half(a))
    ensures Mul(a, a) == SquareBits(a)
  {
    hide *;
    SquareBitsSplit(a);
    SquareOfSum(Pick(1, a), XTime(Half(a)));
    Split(a);
    SquarePick(a);
    MulXTime(Half(a), XTime(Half(a)));
    MulComm(Half(a), XTime(Half(a)));
    MulXTime(Half(a), Half(a));
  }
  lemma SquarePick(a: bv8)
    ensures Mul(Pick(1, a), Pick(1, a)) == Pick(1, a)
  {
    hide Mul;
    MulPickLeft(Pick(1, a), a);
  }
  lemma SquareOfSum(a: bv8, b: bv8)
    ensures Mul(Add(a, b), Add(a, b)) == Add(Mul(a, a), Mul(b, b))
  {
    hide *;
    var s := Add(a, b);
    MulAddLeft(a, b, s);
    MulDistribute(a, a, b); MulDistribute(b, a, b); MulComm(a, b);
    var c := Mul(a, b);
    AddLaws(Mul(a, a), c, Add(c, Mul(b, b)));
    AddLaws(c, c, Mul(b, b));
    AddLaws(c, Mul(b, b), c);
    AddLaws(Mul(b, b), 0, 0);
  }
  function Pow(x: bv8, e: nat): bv8 { if e == 0 then 1 else Mul(x, Pow(x, e - 1)) }
  lemma {:induction false} PowAdd(x: bv8, d: nat, e: nat)
    ensures Pow(x, d + e) == Mul(Pow(x, d), Pow(x, e))
  {
    hide Mul;
    if d == 0 { MulOneLeft(Pow(x, e)); }
    else { PowAdd(x, d - 1, e); MulAssoc(x, Pow(x, d - 1), Pow(x, e)); }
  }
  lemma {:induction false} PowSquare(x: bv8, e: nat)
    ensures Pow(Mul(x, x), e) == Pow(x, 2 * e)
  {
    hide Mul;
    if e > 0 {
      PowSquare(x, e - 1);
      MulAssoc(x, x, Pow(x, 2 * (e - 1)));
      assert Pow(x, 2 * e) == Mul(x, Pow(x, 2 * e - 1));
    }
  }
  /** x^(2^n), by repeated squaring. */
  function Frobenius(x: bv8, n: nat): bv8 { if n == 0 then x else SquareBits(Frobenius(x, n - 1)) }
  function Exp2(n: nat): nat { if n == 0 then 1 else 2 * Exp2(n - 1) }
  lemma {:induction false} PowFrobenius(x: bv8, n: nat)
    ensures Pow(x, Exp2(n)) == Frobenius(x, n)
  {
    hide Mul, SquareBits;
    if n == 0 {
      assert Pow(x, 1) == Mul(x, Pow(x, 0));
      MulComm(x, 1); MulOneLeft(x);
    } else {
      PowFrobenius(x, n - 1);
      PowAdd(x, Exp2(n - 1), Exp2(n - 1));
      SquareIsLinear(Frobenius(x, n - 1));
    }
  }
  lemma FrobeniusZero(x: bv8) ensures Frobenius(x, 0) == x {}
  lemma FrobeniusStep(x: bv8, n: nat)
    ensures Frobenius(x, n + 1) == SquareBits(Frobenius(x, n))
  { hide SquareBits; }
  lemma FermatPower(x: bv8)
    ensures Pow(x, Exp2(8)) == x
  {
    PowFrobenius(x, 8);
    hide Pow, SquareBits, Frobenius;
    FrobeniusStep(x, 0); FrobeniusStep(x, 1); FrobeniusStep(x, 2); FrobeniusStep(x, 3);
    FrobeniusStep(x, 4); FrobeniusStep(x, 5); FrobeniusStep(x, 6); FrobeniusStep(x, 7);
    assert Frobenius(x, 0) == x by { FrobeniusZero(x); }
    SquareBitsEight(x);
  }
  function Inv(x: bv8): bv8 { Pow(x, 254) }
  /** Every non-zero element has an inverse: x^255 is a non-zero idempotent, hence 1. */
  lemma InverseLaw(x: bv8)
    requires x != 0
    ensures Mul(x, Inv(x)) == 1
  {
    InverseOf(x, 254);
  }
  lemma InverseOf(x: bv8, n: nat)
    requires x != 0 && n == 254
    ensures Mul(x, Pow(x, n)) == 1
  {
    hide Mul, Pow, SquareBits;
    assert Exp2(8) == n + 2;
    FermatPower(x);
    var e := Pow(x, n + 1);
    PowStep(x, n + 1);
    PowStep(x, n);
    PowAdd(x, n + 1, n + 1);
    PowAdd(x, n + 2, n);
    assert (n + 1) + (n + 1) == (n + 2) + n;
    SquareIsLinear(e);
    SquareBitsIdempotent(e);
    if e == 0 {
      MulComm(x, 0); MulZeroLeft(x);
    }
  }
  lemma PowStep(x: bv8, n: nat)
    ensures Pow(x, n + 1) == Mul(x, Pow(x, n))
  {}
}
