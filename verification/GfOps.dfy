/** The multiplication and inversion loops, and the field they make. */
module GfOps {
  import opened Gf256
  import opened Fields

  function BitLen(b: bv8): nat { if b == 0 then 0 else 1 + BitLen(Half(b)) }
  lemma BitLenByte(b: bv8)
    ensures BitLen(b) <= 8
  {
    var b1 := Half(b); var b2 := Half(b1); var b3 := Half(b2); var b4 := Half(b3);
    var b5 := Half(b4); var b6 := Half(b5); var b7 := Half(b6);
    assert Half(b7) == 0;
    BitLenStep(b); BitLenStep(b1); BitLenStep(b2); BitLenStep(b3);
    BitLenStep(b4); BitLenStep(b5); BitLenStep(b6); BitLenStep(b7);
  }
  lemma BitLenStep(b: bv8)
    ensures BitLen(b) <= 1 + BitLen(Half(b))
  {}

  /** Shift-and-xor multiplication. */
  method GfMul(a0: bv8, b0: bv8) returns (product: bv8)
    ensures product == Mul(a0, b0)
  {
    hide *;
    var a, b := a0, b0;
    product := 0;
    BitLenByte(b0);
    ZeroAdds(Mul(a0, b0));
    for i := 0 to 8
      invariant Add(product, Mul(a, b)) == Mul(a0, b0)
      invariant BitLen(b) <= 8 - i
    {
      MulRound(product, a, b);
      RoundOps(product, a, b);
      BitLenHalf(b);
      if b & 1 != 0 {
        product := product ^ a;
      }
      var high := a & 0x80;
      a := a << 1;
      if high != 0 {
        a := a ^ 0x1d;
      }
      b := b >> 1;
    }
    BitLenZero(b);
    MulZero(a);
    ZeroAdds(product);
  }
  /** The machine operations of a round are those of the field. */
  lemma RoundOps(product: bv8, a: bv8, b: bv8)
    ensures (if b & 1 != 0 then product ^ a else product) == if Odd(b) then Add(product, a) else product
    ensures (if a & 0x80 != 0 then (a << 1) ^ 0x1d else a << 1) == XTime(a)
    ensures b >> 1 == Half(b)
  {}
  lemma ZeroAdds(x: bv8)
    ensures Add(0, x) == x && Add(x, 0) == x
  {}
  lemma MulZero(a: bv8)
    ensures Mul(a, 0) == 0
  {}
  lemma BitLenZero(b: bv8)
    ensures BitLen(b) == 0 ==> b == 0
  {}
  lemma BitLenHalf(b: bv8)
    ensures BitLen(Half(b)) == if b == 0 then 0 else BitLen(b) - 1
  {
    assert Half(0) == 0;
  }
  lemma MulRound(product: bv8, a: bv8, b: bv8)
    ensures Add(if Odd(b) then Add(product, a) else product, Mul(XTime(a), Half(b))) == Add(product, Mul(a, b))
  {
    hide Add, Mul, Odd, Half, XTime;
    MulStep(a, b);
    AddLaws(product, Pick(a, b), Mul(XTime(a), Half(b)));
    AddLaws(product, 0, 0);
  }

  /** x^254 by square and multiply. */
  method GfInv(x: bv8) returns (result: bv8)
    ensures result == Inv(x)
  {
    var base, exp: nat := x, 254;
    result := 1;
    MulOneLeft(Pow(x, 254));
    while exp > 0
      invariant Mul(result, Pow(base, exp)) == Inv(x)
    {
      PowRound(result, base, exp);
      if exp % 2 == 1 {
        result := GfMul(result, base);
      }
      base := GfMul(base, base);
      exp := exp / 2;
    }
    MulComm(result, 1); MulOneLeft(result);
  }
  lemma PowRound(result: bv8, base: bv8, exp: nat)
    requires exp > 0
    ensures Mul(if exp % 2 == 1 then Mul(result, base)
      else result, Pow(Mul(base, base), exp / 2)) == Mul(result, Pow(base, exp))
  {
    hide Mul, Pow;
    PowSquare(base, exp / 2);
    if exp % 2 == 1 {
      PowStep(base, exp - 1);
      MulAssoc(result, base, Pow(base, exp - 1));
      assert 2 * (exp / 2) == exp - 1;
    } else {
      assert 2 * (exp / 2) == exp;
    }
  }

  function Gf(): Field<bv8> {
    Field(0, 1, (a, b) => Add(a, b), a => a, (a, b) => Mul(a, b), a => Inv(a))
  }
  lemma GfIsField()
    ensures IsField(Gf())
  {
    forall a: bv8, b: bv8, c: bv8
      ensures LawsAt(Gf(), a, b, c)
    {
      GfLaws(a, b, c);
    }
  }
  lemma GfLaws(a: bv8, b: bv8, c: bv8)
    ensures LawsAt(Gf(), a, b, c)
  {
    hide Add, Mul, Inv;
    AddLaws(a, b, c);
    MulAssoc(a, b, c);
    MulComm(a, b);
    MulComm(a, 1); MulOneLeft(a);
    MulDistribute(a, b, c);
    if a != 0 { InverseLaw(a); }
  }
}
