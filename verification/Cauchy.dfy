/** Independence of the rows of a Cauchy matrix over any field. */
module Cauchy {
  import opened Fields
  import opened Linear

  function CauchyRow<T>(F: Field<T>, x: T, ys: seq<T>): (r: seq<T>)
    ensures |r| == |ys|
  {
    seq(|ys|, j requires 0 <= j < |ys| => F.inv(Sub(F, x, ys[j])))
  }

  /** All points of `xs` and `ys` are different from one another. */
  ghost predicate DistinctPoints<T>(xs: seq<T>, ys: seq<T>) {
    && (forall i, j :: 0 <= i < j < |xs| ==> xs[i] != xs[j])
    && (forall i, j :: 0 <= i < j < |ys| ==> ys[i] != ys[j])
    && (forall i, j :: 0 <= i < |xs| && 0 <= j < |ys| ==> xs[i] != ys[j])
  }

  /** 1/a - 1/b, cleared of denominators. */
  lemma TermIdentity<T(!new)>(F: Field<T>, a: T, b: T, d: T, v: T)
    requires IsField(F)
    requires a != F.zero && b != F.zero
    ensures Sub(F, F.mul(F.add(a, d), F.mul(F.inv(a), v)), F.mul(F.add(b, d), F.mul(F.inv(b), v)))
         == F.mul(Sub(F, b, a), F.mul(F.inv(a), F.mul(F.mul(v, d), F.inv(b))))
  {
    var vd := F.mul(v, d);
    var p, q := F.mul(F.inv(a), vd), F.mul(F.inv(b), vd);
    ShiftedTerm(F, a, d, v);
    ShiftedTerm(F, b, d, v);
    // left: (v + p) - (v + q) == p - q
    assert Sub(F, F.add(v, p), F.add(v, q)) == Sub(F, p, q) by { SubCommon(F, v, p, q); }
    // right: (b - a) * (1/a * (vd * 1/b)) == p - q
    var m := F.mul(F.inv(a), F.mul(vd, F.inv(b)));
    assert LawsAt(F, m, b, F.neg(a));
    assert LawsAt(F, Sub(F, b, a), m, m);
    assert F.mul(b, m) == p by {
      assert LawsAt(F, vd, F.inv(b), b);
      assert LawsAt(F, b, F.inv(b), b);
      assert LawsAt(F, b, F.inv(a), F.mul(vd, F.inv(b)));
      assert LawsAt(F, F.inv(a), b, F.mul(vd, F.inv(b)));
      assert LawsAt(F, F.inv(a), F.mul(vd, F.inv(b)), b);
      assert LawsAt(F, b, F.mul(vd, F.inv(b)), b);
      assert LawsAt(F, F.inv(b), b, b);
      assert LawsAt(F, F.mul(vd, F.inv(b)), b, b);
    }
    assert F.mul(a, m) == q by {
      assert LawsAt(F, a, F.inv(a), F.mul(vd, F.inv(b)));
      ZeroLaws(F, F.mul(vd, F.inv(b)));
      assert LawsAt(F, vd, F.inv(b), b);
    }
    assert LawsAt(F, m, b, b);
    assert LawsAt(F, F.neg(a), m, m);
    NegMul(F, a, m);
  }

  lemma ShiftedTerm<T(!new)>(F: Field<T>, a: T, d: T, v: T)
    requires IsField(F) && a != F.zero
    ensures F.mul(F.add(a, d), F.mul(F.inv(a), v)) == F.add(v, F.mul(F.inv(a), F.mul(v, d)))
  {
    var u := F.mul(F.inv(a), v);
    assert LawsAt(F, u, a, d);
    assert LawsAt(F, F.add(a, d), u, u);
    assert F.mul(u, a) == v by {
      assert LawsAt(F, a, F.inv(a), v);
      assert LawsAt(F, u, a, a);
      ZeroLaws(F, v);
    }
    assert LawsAt(F, F.inv(a), v, d);
  }

  lemma SubCommon<T(!new)>(F: Field<T>, v: T, p: T, q: T)
    requires IsField(F)
    ensures Sub(F, F.add(v, p), F.add(v, q)) == Sub(F, p, q)
  {
    var l, r := Sub(F, F.add(v, p), F.add(v, q)), Sub(F, p, q);
    var s := F.add(v, q);
    assert F.add(s, l) == F.add(v, p) by {
      assert LawsAt(F, F.add(v, p), F.neg(s), s);
      assert LawsAt(F, F.neg(s), s, s);
      assert LawsAt(F, s, F.neg(s), s);
      assert LawsAt(F, s, l, l);
      assert LawsAt(F, F.add(v, p), F.zero, s);
    }
    assert F.add(s, r) == F.add(v, p) by {
      assert LawsAt(F, v, q, r);
      assert LawsAt(F, p, F.neg(q), q);
      assert LawsAt(F, F.neg(q), q, q);
      assert LawsAt(F, q, F.neg(q), q);
      assert LawsAt(F, q, r, r);
    }
    AddCancel(F, s, l, r);
  }

  /** A linear relation that holds term by term holds of the dot products. */
  lemma {:induction false} DotRelation<T(!new)>(F: Field<T>, alpha: T, p: seq<T>, v: seq<T>, beta: T,
      q: seq<T>, gamma: T, w: seq<T>)
    requires IsField(F)
    requires |p| == |v| == |q| == |w|
    requires forall j :: 0 <= j < |p| ==>
      Sub(F, F.mul(alpha, F.mul(p[j], v[j])), F.mul(beta, F.mul(q[j], v[j]))) == F.mul(gamma, F.mul(p[j], w[j]))
    ensures Sub(F, F.mul(alpha, Dot(F, p, v)), F.mul(beta, Dot(F, q, v))) == F.mul(gamma, Dot(F, p, w))
  {
    if |p| == 0 {
      ZeroLaws(F, alpha); ZeroLaws(F, beta); ZeroLaws(F, gamma);
      SubZero(F, F.zero, F.zero);
    } else {
      var n := |p| - 1;
      DotRelation(F, alpha, p[..n], v[..n], beta, q[..n], gamma, w[..n]);
      var d, e, f := Dot(F, p[..n], v[..n]), Dot(F, q[..n], v[..n]), Dot(F, p[..n], w[..n]);
      var x, y, z := F.mul(p[n], v[n]), F.mul(q[n], v[n]), F.mul(p[n], w[n]);
      RelationStep(F, alpha, d, x, beta, e, y, gamma, f, z);
    }
  }

  lemma RelationStep<T(!new)>(F: Field<T>, alpha: T, d: T, x: T, beta: T, e: T, y: T, gamma: T, f: T, z: T)
    requires IsField(F)
    requires Sub(F, F.mul(alpha, d), F.mul(beta, e)) == F.mul(gamma, f)
    requires Sub(F, F.mul(alpha, x), F.mul(beta, y)) == F.mul(gamma, z)
    ensures Sub(F, F.mul(alpha, F.add(d, x)), F.mul(beta, F.add(e, y))) == F.mul(gamma, F.add(f, z))
  {
    assert LawsAt(F, alpha, d, x);
    assert LawsAt(F, beta, e, y);
    assert LawsAt(F, gamma, f, z);
    var a, b, c, g := F.mul(alpha, d), F.mul(beta, e), F.mul(alpha, x), F.mul(beta, y);
    NegAdd(F, b, g);
    AddShuffle(F, a, c, F.neg(b), F.neg(g));
  }

  lemma NegAdd<T(!new)>(F: Field<T>, a: T, b: T)
    requires IsField(F)
    ensures F.neg(F.add(a, b)) == F.add(F.neg(a), F.neg(b))
  {
    var s := F.add(a, b);
    assert LawsAt(F, s, F.neg(s), s);
    AddShuffle(F, a, b, F.neg(a), F.neg(b));
    assert LawsAt(F, a, F.neg(a), a);
    assert LawsAt(F, b, F.neg(b), b);
    ZeroLaws(F, F.zero);
    AddCancel(F, s, F.neg(s), F.add(F.neg(a), F.neg(b)));
  }

  /** A dot product with at most one non-zero term. */
  lemma {:induction false} DotSingle<T(!new)>(F: Field<T>, a: seq<T>, v: seq<T>, j0: nat)
    requires IsField(F) && |a| == |v| && j0 < |a|
    requires forall j :: 0 <= j < |v| && j != j0 ==> v[j] == F.zero
    ensures Dot(F, a, v) == F.mul(a[j0], v[j0])
  {
    var n := |a| - 1;
    ZeroLaws(F, a[n]);
    if j0 == n {
      DotZero(F, a[..n], v[..n]);
      ZeroLaws(F, F.mul(a[n], v[n]));
    } else {
      DotSingle(F, a[..n], v[..n], j0);
      assert LawsAt(F, F.mul(a[j0], v[j0]), F.zero, F.zero);
    }
  }

  lemma {:induction false} DotZero<T(!new)>(F: Field<T>, a: seq<T>, v: seq<T>)
    requires IsField(F) && |a| == |v|
    requires forall j :: 0 <= j < |v| ==> v[j] == F.zero
    ensures Dot(F, a, v) == F.zero
  {
    if |a| > 0 {
      var n := |a| - 1;
      DotZero(F, a[..n], v[..n]);
      ZeroLaws(F, a[n]);
      ZeroLaws(F, F.zero);
    }
  }

  function Eliminated<T>(F: Field<T>, ys: seq<T>, v: seq<T>, x0: T, y0: T): (w: seq<T>)
    requires |ys| == |v|
    ensures |w| == |v|
  {
    seq(|v|, j requires 0 <= j < |v| => F.mul(F.mul(v[j], Sub(F, ys[j], y0)), F.inv(Sub(F, x0, ys[j]))))
  }

  lemma SubChain<T(!new)>(F: Field<T>, a: T, b: T, c: T)
    requires IsField(F)
    ensures F.add(Sub(F, a, b), Sub(F, b, c)) == Sub(F, a, c)
  {
    assert LawsAt(F, a, F.neg(b), Sub(F, b, c));
    assert LawsAt(F, F.neg(b), b, F.neg(c));
    assert LawsAt(F, b, F.neg(b), b);
    ZeroLaws(F, F.neg(c));
  }

  lemma SubSub<T(!new)>(F: Field<T>, a: T, b: T, c: T)
    requires IsField(F)
    ensures Sub(F, Sub(F, a, b), Sub(F, c, b)) == Sub(F, a, c)
  {
    var n := F.neg(b);
    assert LawsAt(F, a, n, n);
    assert LawsAt(F, c, n, n);
    SubCommon(F, n, a, c);
  }

  /** Combining two Cauchy equations removes one unknown and leaves a Cauchy equation. */
  lemma EliminateColumn<T(!new)>(F: Field<T>, x: T, x0: T, ys: seq<T>, v: seq<T>, y0: T)
    requires IsField(F) && |v| == |ys| && x != x0
    requires forall j :: 0 <= j < |ys| ==> ys[j] != x && ys[j] != x0
    requires Dot(F, CauchyRow(F, x, ys), v) == F.zero
    requires Dot(F, CauchyRow(F, x0, ys), v) == F.zero
    ensures Dot(F, CauchyRow(F, x, ys), Eliminated(F, ys, v, x0, y0)) == F.zero
  {
    var p, q, w := CauchyRow(F, x, ys), CauchyRow(F, x0, ys), Eliminated(F, ys, v, x0, y0);
    var alpha, beta, gamma := Sub(F, x, y0), Sub(F, x0, y0), Sub(F, x0, x);
    forall j | 0 <= j < |ys|
      ensures Sub(F, F.mul(alpha, F.mul(p[j], v[j])), F.mul(beta, F.mul(q[j], v[j]))) == F.mul(gamma, F.mul(p[j], w[j]))
    {
      var y := ys[j];
      SubZero(F, x, y);
      SubZero(F, x0, y);
      TermIdentity(F, Sub(F, x, y), Sub(F, x0, y), Sub(F, y, y0), v[j]);
      SubChain(F, x, y, y0);
      SubChain(F, x0, y, y0);
      SubSub(F, x0, y, x);
    }
    DotRelation(F, alpha, p, v, beta, q, gamma, w);
    ZeroLaws(F, alpha);
    ZeroLaws(F, beta);
    SubZero(F, F.zero, F.zero);
    SubZero(F, x0, x);
    NoZeroDivisors(F, gamma, Dot(F, p, w));
  }

  /** Cauchy rows are independent: with at least as many rows as unknowns, only the zero vector
      satisfies them all. */
  lemma {:induction false} CauchyKernel<T(!new)>(F: Field<T>, xs: seq<T>, ys: seq<T>, v: seq<T>,
      rows: set<nat>, unknowns: set<nat>)
    requires IsField(F) && |v| == |ys| && DistinctPoints(xs, ys)
    requires forall r :: r in rows ==> r < |xs|
    requires forall j :: j in unknowns ==> j < |ys|
    requires |unknowns| <= |rows|
    requires forall j :: 0 <= j < |ys| && j !in unknowns ==> v[j] == F.zero
    requires forall r :: r in rows ==> Dot(F, CauchyRow(F, xs[r], ys), v) == F.zero
    ensures forall j :: 0 <= j < |ys| ==> v[j] == F.zero
    decreases |unknowns|
  {
    if unknowns != {} {
      var j0 :| j0 in unknowns;
      assert rows != {};
      var r0 :| r0 in rows;
      var x0, y0 := xs[r0], ys[j0];
      var w := Eliminated(F, ys, v, x0, y0);
      forall r | r in rows - {r0}
        ensures Dot(F, CauchyRow(F, xs[r], ys), w) == F.zero
      {
        EliminateColumn(F, xs[r], x0, ys, v, y0);
      }
      EliminatedSupport(F, ys, v, x0, j0, unknowns);
      CauchyKernel(F, xs, ys, w, rows - {r0}, unknowns - {j0});
      BackSubstitute(F, ys, v, x0, j0);
    }
  }

  lemma EliminatedSupport<T(!new)>(F: Field<T>, ys: seq<T>, v: seq<T>, x0: T, j0: nat, unknowns: set<nat>)
    requires IsField(F) && |v| == |ys| && j0 < |ys|
    requires forall j :: 0 <= j < |ys| && j !in unknowns ==> v[j] == F.zero
    ensures forall j :: 0 <= j < |ys| && j !in unknowns - {j0} ==> Eliminated(F, ys, v, x0, ys[j0])[j] == F.zero
  {
    forall j | 0 <= j < |ys| && j !in unknowns - {j0}
      ensures Eliminated(F, ys, v, x0, ys[j0])[j] == F.zero
    {
      SubZero(F, ys[j], ys[j0]);
      ZeroLaws(F, v[j]);
      ZeroLaws(F, Sub(F, ys[j], ys[j0]));
      ZeroLaws(F, F.inv(Sub(F, x0, ys[j])));
    }
  }

  /** Once the eliminated system has only the zero solution, so has the original one. */
  lemma BackSubstitute<T(!new)>(F: Field<T>, ys: seq<T>, v: seq<T>, x0: T, j0: nat)
    requires IsField(F) && |v| == |ys| && j0 < |ys|
    requires forall i, j :: 0 <= i < j < |ys| ==> ys[i] != ys[j]
    requires forall j :: 0 <= j < |ys| ==> ys[j] != x0
    requires Dot(F, CauchyRow(F, x0, ys), v) == F.zero
    requires forall j :: 0 <= j < |ys| ==> Eliminated(F, ys, v, x0, ys[j0])[j] == F.zero
    ensures forall j :: 0 <= j < |ys| ==> v[j] == F.zero
  {
    var y0 := ys[j0];
    forall j | 0 <= j < |ys| && j != j0
      ensures v[j] == F.zero
    {
      assert Eliminated(F, ys, v, x0, y0)[j] == F.zero;
      UnknownIsZero(F, v[j], ys[j], y0, x0);
    }
    DotSingle(F, CauchyRow(F, x0, ys), v, j0);
    SubZero(F, x0, y0);
    InvNonzero(F, Sub(F, x0, y0));
    NoZeroDivisors(F, F.inv(Sub(F, x0, y0)), v[j0]);
  }

  lemma UnknownIsZero<T(!new)>(F: Field<T>, v: T, y: T, y0: T, x0: T)
    requires IsField(F) && y != y0 && x0 != y
    requires F.mul(F.mul(v, Sub(F, y, y0)), F.inv(Sub(F, x0, y))) == F.zero
    ensures v == F.zero
  {
    SubZero(F, x0, y);
    SubZero(F, y, y0);
    InvNonzero(F, Sub(F, x0, y));
    var s := F.mul(v, Sub(F, y, y0));
    assert LawsAt(F, s, F.inv(Sub(F, x0, y)), s);
    NoZeroDivisors(F, F.inv(Sub(F, x0, y)), s);
    assert LawsAt(F, v, Sub(F, y, y0), v);
    NoZeroDivisors(F, Sub(F, y, y0), v);
  }
}
