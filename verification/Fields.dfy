/** Fields as records of operations, and the ring identities the linear algebra needs. */
module Fields {

  datatype Field<!T> = Field(
    zero: T,
    one: T,
    add: (T, T) -> T,
    neg: T -> T,
    mul: (T, T) -> T,
    inv: T -> T)

  /** All field laws at three particular elements. */
  ghost predicate LawsAt<T>(F: Field<T>, a: T, b: T, c: T) {
    && F.add(a, F.add(b, c)) == F.add(F.add(a, b), c)
    && F.add(a, b) == F.add(b, a)
    && F.add(a, F.zero) == a
    && F.add(a, F.neg(a)) == F.zero
    && F.mul(a, F.mul(b, c)) == F.mul(F.mul(a, b), c)
    && F.mul(a, b) == F.mul(b, a)
    && F.mul(a, F.one) == a
    && F.mul(a, F.add(b, c)) == F.add(F.mul(a, b), F.mul(a, c))
    && (a != F.zero ==> F.mul(a, F.inv(a)) == F.one)
  }

  ghost predicate IsField<T(!new)>(F: Field<T>) {
    && F.zero != F.one
    && forall a, b, c :: LawsAt(F, a, b, c)
  }

  function Sub<T>(F: Field<T>, a: T, b: T): T {
    F.add(a, F.neg(b))
  }

  lemma ZeroLaws<T(!new)>(F: Field<T>, a: T)
    requires IsField(F)
    ensures F.add(F.zero, a) == a
    ensures F.mul(a, F.zero) == F.zero
    ensures F.mul(F.zero, a) == F.zero
    ensures F.mul(F.one, a) == a
  {
    var z := F.mul(a, F.zero);
    assert LawsAt(F, F.zero, a, a);
    assert LawsAt(F, a, F.zero, F.zero);
    assert LawsAt(F, F.zero, F.zero, F.zero);
    assert LawsAt(F, z, z, F.neg(z));
    assert LawsAt(F, F.one, a, a);
    assert LawsAt(F, a, F.one, a);
  }

  /** Cancellation: equal sums with a common summand. */
  lemma AddCancel<T(!new)>(F: Field<T>, a: T, b: T, c: T)
    requires IsField(F)
    requires F.add(a, b) == F.add(a, c)
    ensures b == c
  {
    var n := F.neg(a);
    assert LawsAt(F, n, a, b);
    assert LawsAt(F, n, a, c);
    assert LawsAt(F, a, n, a);
    ZeroLaws(F, b);
    ZeroLaws(F, c);
  }

  lemma NegMul<T(!new)>(F: Field<T>, a: T, b: T)
    requires IsField(F)
    ensures F.mul(F.neg(a), b) == F.neg(F.mul(a, b))
  {
    var n := F.neg(a);
    assert LawsAt(F, a, b, b);
    assert LawsAt(F, b, a, n);
    assert LawsAt(F, n, b, b);
    ZeroLaws(F, b);
    assert LawsAt(F, F.mul(a, b), F.neg(F.mul(a, b)), b);
    AddCancel(F, F.mul(a, b), F.mul(n, b), F.neg(F.mul(a, b)));
  }

  /** A field has no zero divisors. */
  lemma NoZeroDivisors<T(!new)>(F: Field<T>, a: T, b: T)
    requires IsField(F)
    requires F.mul(a, b) == F.zero && a != F.zero
    ensures b == F.zero
  {
    var i := F.inv(a);
    assert LawsAt(F, i, a, b);
    assert LawsAt(F, a, i, b);
    ZeroLaws(F, b);
    ZeroLaws(F, i);
  }

  lemma SubZero<T(!new)>(F: Field<T>, a: T, b: T)
    requires IsField(F)
    ensures Sub(F, a, b) == F.zero <==> a == b
  {
    assert LawsAt(F, b, F.neg(b), a);
    assert LawsAt(F, F.neg(b), a, a);
    assert LawsAt(F, a, F.neg(b), a);
    if Sub(F, a, b) == F.zero { AddCancel(F, F.neg(b), a, b); }
  }

  lemma InvNonzero<T(!new)>(F: Field<T>, a: T)
    requires IsField(F)
    requires a != F.zero
    ensures F.inv(a) != F.zero
  {
    assert LawsAt(F, a, a, a);
    ZeroLaws(F, a);
  }

  /** (p + q) + (r + t) == (p + r) + (q + t) */
  lemma AddShuffle<T(!new)>(F: Field<T>, p: T, q: T, r: T, t: T)
    requires IsField(F)
    ensures F.add(F.add(p, q), F.add(r, t)) == F.add(F.add(p, r), F.add(q, t))
  {
    assert LawsAt(F, p, q, F.add(r, t));
    assert LawsAt(F, q, r, t);
    assert LawsAt(F, r, q, t);
    assert LawsAt(F, p, r, F.add(q, t));
  }

}
