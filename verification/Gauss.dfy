/** Matrix inversion by Gauss-Jordan elimination, the foreign `gf_invert_matrix`. */
module Gauss {
  import opened Wrappers
  import opened Fields
  import opened Linear
  import opened Mds

  ghost predicate Shape<T>(m: seq<seq<T>>, rows: nat, cols: nat) {
    |m| == rows && forall r :: 0 <= r < rows ==> |m[r]| == cols
  }

  function MatVec<T>(F: Field<T>, m: seq<seq<T>>, v: seq<T>): (w: seq<T>)
    requires forall r :: 0 <= r < |m| ==> |m[r]| == |v|
    ensures |w| == |m|
  {
    seq(|m|, r requires 0 <= r < |m| => Dot(F, m[r], v))
  }

  /** v lies in the kernel of m. */
  ghost predicate Solves<T>(F: Field<T>, m: seq<seq<T>>, v: seq<T>)
    requires forall r :: 0 <= r < |m| ==> |m[r]| == |v|
  {
    forall r :: 0 <= r < |m| ==> Dot(F, m[r], v) == F.zero
  }

  ghost predicate IsZeroVec<T>(F: Field<T>, v: seq<T>) {
    forall j :: 0 <= j < |v| ==> v[j] == F.zero
  }

  /** On v, the row `row` gives what `out` gives on a*v. */
  ghost predicate TrackAt<T>(F: Field<T>, a: seq<seq<T>>, row: seq<T>, out: seq<T>, v: seq<T>)
    requires Shape(a, |a|, |a|) && |row| == |out| == |a|
  {
    |v| == |a| ==> Dot(F, row, v) == Dot(F, out, MatVec(F, a, v))
  }

  ghost predicate RowTracks<T(!new)>(F: Field<T>, a: seq<seq<T>>, row: seq<T>, out: seq<T>)
    requires Shape(a, |a|, |a|) && |row| == |out| == |a|
  {
    forall v: seq<T> :: TrackAt(F, a, row, out, v)
  }

  ghost predicate KernelAt<T>(F: Field<T>, n: nat, m: seq<seq<T>>, a: seq<seq<T>>, v: seq<T>)
    requires Shape(m, n, n) && Shape(a, n, n)
  {
    |v| == n && Solves(F, m, v) ==> Solves(F, a, v)
  }

  ghost predicate KernelWithin<T(!new)>(F: Field<T>, n: nat, m: seq<seq<T>>, a: seq<seq<T>>)
    requires Shape(m, n, n) && Shape(a, n, n)
  {
    forall v: seq<T> :: KernelAt(F, n, m, a, v)
  }

  lemma TrackScale<T(!new)>(F: Field<T>, a: seq<seq<T>>, row: seq<T>, out: seq<T>, c: T)
    requires IsField(F) && Shape(a, |a|, |a|) && |row| == |out| == |a|
    requires RowTracks(F, a, row, out)
    ensures RowTracks(F, a, Scale(F, c, row), Scale(F, c, out))
  {
    forall v: seq<T> | |v| == |a|
      ensures TrackAt(F, a, Scale(F, c, row), Scale(F, c, out), v)
    {
      assert TrackAt(F, a, row, out, v);
      DotScale(F, c, row, v);
      DotScale(F, c, out, MatVec(F, a, v));
    }
  }

  lemma TrackPlus<T(!new)>(F: Field<T>, a: seq<seq<T>>, row: seq<T>, out: seq<T>, row': seq<T>, out': seq<T>)
    requires IsField(F) && Shape(a, |a|, |a|) && |row| == |out| == |row'| == |out'| == |a|
    requires RowTracks(F, a, row, out) && RowTracks(F, a, row', out')
    ensures RowTracks(F, a, Plus(F, row, row'), Plus(F, out, out'))
  {
    forall v: seq<T> | |v| == |a|
      ensures TrackAt(F, a, Plus(F, row, row'), Plus(F, out, out'), v)
    {
      assert TrackAt(F, a, row, out, v) && TrackAt(F, a, row', out', v);
      DotPlus(F, row, row', v);
      DotPlus(F, out, out', MatVec(F, a, v));
    }
  }

  lemma KernelScale<T(!new)>(F: Field<T>, n: nat, m: seq<seq<T>>, i: nat, c: T, a: seq<seq<T>>)
    requires IsField(F) && Shape(m, n, n) && Shape(a, n, n) && i < n && c != F.zero
    requires KernelWithin(F, n, m, a)
    ensures KernelWithin(F, n, m[i := Scale(F, c, m[i])], a)
  {
    var m' := m[i := Scale(F, c, m[i])];
    forall v: seq<T> | |v| == n && Solves(F, m', v)
      ensures KernelAt(F, n, m', a, v)
    {
      DotScale(F, c, m[i], v);
      assert Dot(F, m'[i], v) == F.zero;
      NoZeroDivisors(F, c, Dot(F, m[i], v));
      forall r | 0 <= r < n ensures Dot(F, m[r], v) == F.zero { assert Dot(F, m'[r], v) == F.zero; }
      assert KernelAt(F, n, m, a, v);
    }
  }

  lemma KernelPlus<T(!new)>(F: Field<T>, n: nat, m: seq<seq<T>>, j: nat, i: nat, c: T, a: seq<seq<T>>)
    requires IsField(F) && Shape(m, n, n) && Shape(a, n, n) && i < n && j < n && i != j
    requires KernelWithin(F, n, m, a)
    ensures KernelWithin(F, n, m[j := Plus(F, m[j], Scale(F, c, m[i]))], a)
  {
    var m' := m[j := Plus(F, m[j], Scale(F, c, m[i]))];
    forall v: seq<T> | |v| == n && Solves(F, m', v)
      ensures KernelAt(F, n, m', a, v)
    {
      DotPlus(F, m[j], Scale(F, c, m[i]), v);
      DotScale(F, c, m[i], v);
      assert Dot(F, m'[i], v) == F.zero && Dot(F, m'[j], v) == F.zero;
      ZeroLaws(F, c);
      assert LawsAt(F, Dot(F, m[j], v), F.zero, F.zero);
      forall r | 0 <= r < n ensures Dot(F, m[r], v) == F.zero { assert Dot(F, m'[r], v) == F.zero; }
      assert KernelAt(F, n, m, a, v);
    }
  }

  lemma KernelSwap<T(!new)>(F: Field<T>, n: nat, m: seq<seq<T>>, i: nat, p: nat, a: seq<seq<T>>)
    requires Shape(m, n, n) && Shape(a, n, n) && i < n && p < n
    requires KernelWithin(F, n, m, a)
    ensures KernelWithin(F, n, m[i := m[p]][p := m[i]], a)
  {
    var m' := m[i := m[p]][p := m[i]];
    forall v: seq<T> | |v| == n && Solves(F, m', v)
      ensures KernelAt(F, n, m', a, v)
    {
      forall r | 0 <= r < n ensures Dot(F, m[r], v) == F.zero {
        assert m[r] == m'[if r == i then p else if r == p then i else r];
      }
      assert KernelAt(F, n, m, a, v);
    }
  }

  /** The first `cols` columns are those of the identity. */
  ghost predicate UnitColumns<T>(F: Field<T>, m: seq<seq<T>>, n: nat, cols: nat)
    requires Shape(m, n, n) && cols <= n
  {
    forall r, c :: 0 <= r < n && 0 <= c < cols ==> m[r][c] == if r == c then F.one else F.zero
  }

  /** The kernel vector that a missing pivot in column i exposes. */
  function FreeVector<T>(F: Field<T>, m: seq<seq<T>>, n: nat, i: nat): (v: seq<T>)
    requires Shape(m, n, n) && i < n
    ensures |v| == n
  {
    seq(n, j requires 0 <= j < n => if j < i then F.neg(m[j][i]) else if j == i then F.one else F.zero)
  }

  lemma {:induction false} FreeDot<T(!new)>(F: Field<T>, m: seq<seq<T>>, n: nat, i: nat, r: nat, len: nat)
    requires IsField(F) && Shape(m, n, n) && i < n && UnitColumns(F, m, n, i)
    requires r < n && len <= n
    requires r >= i ==> m[r][i] == F.zero
    ensures Dot(F, m[r][..len], FreeVector(F, m, n, i)[..len])
         == if r < i && r < len <= i then F.neg(m[r][i]) else F.zero
  {
    var v := FreeVector(F, m, n, i);
    if len > 0 {
      var l := len - 1;
      FreeDot(F, m, n, i, r, l);
      assert m[r][..len][..l] == m[r][..l] && v[..len][..l] == v[..l];
      var x := m[r][i];
      ZeroLaws(F, v[l]);
      ZeroLaws(F, m[r][l]);
      ZeroLaws(F, F.zero);
      ZeroLaws(F, F.neg(x));
      assert LawsAt(F, F.neg(x), F.zero, F.zero);
      if l == i {
        assert LawsAt(F, x, F.one, F.one);
        assert LawsAt(F, x, F.neg(x), F.zero);
      }
    }
  }

  /** Without a pivot in column i, the original matrix has a non-zero kernel vector. */
  lemma NoPivotIsSingular<T(!new)>(F: Field<T>, n: nat, m: seq<seq<T>>, i: nat, a: seq<seq<T>>)
    requires IsField(F) && Shape(m, n, n) && Shape(a, n, n) && i < n
    requires UnitColumns(F, m, n, i) && KernelWithin(F, n, m, a)
    requires forall r :: i <= r < n ==> m[r][i] == F.zero
    ensures Solves(F, a, FreeVector(F, m, n, i)) && !IsZeroVec(F, FreeVector(F, m, n, i))
  {
    var v := FreeVector(F, m, n, i);
    forall r | 0 <= r < n
      ensures Dot(F, m[r], v) == F.zero
    {
      FreeDot(F, m, n, i, r, n);
      assert m[r][..n] == m[r] && v[..n] == v;
    }
    assert v[i] == F.one;
    assert KernelAt(F, n, m, a, v);
  }

  ghost predicate LeftInverse<T(!new)>(F: Field<T>, a: seq<seq<T>>, b: seq<seq<T>>) {
    && Shape(a, |a|, |a|) && Shape(b, |a|, |a|)
    && forall v: seq<T> | |v| == |a| :: MatVec(F, b, MatVec(F, a, v)) == v
  }

  lemma ReducedIsInverse<T(!new)>(F: Field<T>, a: seq<seq<T>>, m: seq<seq<T>>, out: seq<seq<T>>)
    requires IsField(F) && Shape(a, |a|, |a|) && Shape(m, |a|, |a|) && Shape(out, |a|, |a|)
    requires forall r :: 0 <= r < |a| ==> RowTracks(F, a, m[r], out[r])
    requires UnitColumns(F, m, |a|, |a|)
    ensures LeftInverse(F, a, out)
  {
    var n := |a|;
    forall v: seq<T> | |v| == n
      ensures MatVec(F, out, MatVec(F, a, v)) == v
    {
      forall r | 0 <= r < n
        ensures MatVec(F, out, MatVec(F, a, v))[r] == v[r]
      {
        assert TrackAt(F, a, m[r], out[r], v);
        DotUnit(F, v, r);
        assert m[r] == UnitRow(F, n, r);
      }
    }
  }

  ghost predicate Progress<T(!new)>(F: Field<T>, a: seq<seq<T>>, m: seq<seq<T>>, out: seq<seq<T>>) {
    && Shape(a, |a|, |a|) && Shape(m, |a|, |a|) && Shape(out, |a|, |a|)
    && (forall r :: 0 <= r < |a| ==> RowTracks(F, a, m[r], out[r]))
    && KernelWithin(F, |a|, m, a)
  }

  lemma Start<T(!new)>(F: Field<T>, a: seq<seq<T>>, out: seq<seq<T>>)
    requires IsField(F) && Shape(a, |a|, |a|) && Shape(out, |a|, |a|)
    requires forall r :: 0 <= r < |a| ==> out[r] == UnitRow(F, |a|, r)
    ensures Progress(F, a, a, out)
  {
    forall r | 0 <= r < |a|
      ensures RowTracks(F, a, a[r], out[r])
    {
      forall v: seq<T> | |v| == |a|
        ensures TrackAt(F, a, a[r], out[r], v)
      {
        DotUnit(F, MatVec(F, a, v), r);
      }
    }
  }

  lemma PivotStep<T(!new)>(F: Field<T>, a: seq<seq<T>>, m: seq<seq<T>>, out: seq<seq<T>>, i: nat, p: nat)
    returns (m': seq<seq<T>>, out': seq<seq<T>>)
    requires IsField(F) && Progress(F, a, m, out) && i <= p < |a| && UnitColumns(F, m, |a|, i)
    requires m[p][i] != F.zero
    ensures m' == m[i := m[p]][p := m[i]][i := Scale(F, F.inv(m[p][i]), m[p])]
    ensures out' == out[i := out[p]][p := out[i]][i := Scale(F, F.inv(m[p][i]), out[p])]
    ensures Progress(F, a, m', out') && UnitColumns(F, m', |a|, i) && m'[i][i] == F.one
  {
    var c := F.inv(m[p][i]);
    var s, so := m[i := m[p]][p := m[i]], out[i := out[p]][p := out[i]];
    KernelSwap(F, |a|, m, i, p, a);
    assert s[i] == m[p] && so[i] == out[p];
    InvNonzero(F, m[p][i]);
    KernelScale(F, |a|, s, i, c, a);
    TrackScale(F, a, m[p], out[p], c);
    m', out' := s[i := Scale(F, c, s[i])], so[i := Scale(F, c, so[i])];
    ZeroLaws(F, c);
    assert LawsAt(F, m[p][i], c, c);
    assert LawsAt(F, c, m[p][i], c);
  }

  lemma EliminateStep<T(!new)>(F: Field<T>, a: seq<seq<T>>, m: seq<seq<T>>, out: seq<seq<T>>, i: nat, j: nat)
    returns (m': seq<seq<T>>, out': seq<seq<T>>)
    requires IsField(F) && Progress(F, a, m, out) && i < |a| && j < |a| && i != j
    requires UnitColumns(F, m, |a|, i) && m[i][i] == F.one
    ensures m' == m[j := Plus(F, m[j], Scale(F, F.neg(m[j][i]), m[i]))]
    ensures out' == out[j := Plus(F, out[j], Scale(F, F.neg(m[j][i]), out[i]))]
    ensures Progress(F, a, m', out') && UnitColumns(F, m', |a|, i) && m'[j][i] == F.zero
  {
    var c := F.neg(m[j][i]);
    KernelPlus(F, |a|, m, j, i, c, a);
    TrackScale(F, a, m[i], out[i], c);
    TrackPlus(F, a, m[j], out[j], Scale(F, c, m[i]), Scale(F, c, out[i]));
    m' := m[j := Plus(F, m[j], Scale(F, c, m[i]))];
    out' := out[j := Plus(F, out[j], Scale(F, c, out[i]))];
    ZeroLaws(F, c);
    assert LawsAt(F, c, F.one, F.one);
    assert LawsAt(F, m[j][i], c, c);
    assert LawsAt(F, F.one, F.zero, F.zero);
    assert LawsAt(F, F.zero, F.zero, F.zero);
  }

  method Invert<T(==, !new)>(F: Field<T>, a: seq<seq<T>>) returns (r: Option<seq<seq<T>>>)
    requires IsField(F) && Shape(a, |a|, |a|)
    ensures r.Some? ==> LeftInverse(F, a, r.value)
    ensures r.None? ==> exists v: seq<T> :: |v| == |a| && Solves(F, a, v) && !IsZeroVec(F, v)
  {
    var n := |a|;
    var m := a;
    var out := seq(n, i requires 0 <= i < n => UnitRow(F, n, i));
    Start(F, a, out);
    var i := 0;
    while i < n
      invariant 0 <= i <= n
      invariant Progress(F, a, m, out)
      invariant UnitColumns(F, m, n, i)
    {
      var p := i;
      while p < n && m[p][i] == F.zero
        invariant i <= p <= n
        invariant forall r :: i <= r < p ==> m[r][i] == F.zero
      {
        p := p + 1;
      }
      if p == n {
        NoPivotIsSingular(F, n, m, i, a);
        return None;
      }
      ghost var m1, out1 := PivotStep(F, a, m, out, i, p);
      var c := F.inv(m[p][i]);
      m := m[i := m[p]][p := m[i]];
      out := out[i := out[p]][p := out[i]];
      m, out := m[i := Scale(F, c, m[i])], out[i := Scale(F, c, out[i])];
      assert m == m1 && out == out1;
      var j := 0;
      while j < n
        invariant 0 <= j <= n
        invariant Progress(F, a, m, out)
        invariant UnitColumns(F, m, n, i) && m[i][i] == F.one
        invariant forall r :: 0 <= r < j && r != i ==> m[r][i] == F.zero
      {
        if j != i {
          ghost var m2, out2 := EliminateStep(F, a, m, out, i, j);
          var d := F.neg(m[j][i]);
          m, out := m[j := Plus(F, m[j], Scale(F, d, m[i]))], out[j := Plus(F, out[j], Scale(F, d, out[i]))];
          assert m == m2 && out == out2;
        }
        j := j + 1;
      }
      i := i + 1;
    }
    ReducedIsInverse(F, a, m, out);
    return Some(out);
  }
}
