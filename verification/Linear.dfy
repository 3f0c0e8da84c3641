/** Dot products over a field. */
module Linear {
  import opened Fields

  function Dot<T>(F: Field<T>, a: seq<T>, b: seq<T>): T
    requires |a| == |b|
  {
    if |a| == 0 then F.zero
    else
      var n := |a| - 1;
      F.add(Dot(F, a[..n], b[..n]), F.mul(a[n], b[n]))
  }

  function Scale<T>(F: Field<T>, c: T, a: seq<T>): (r: seq<T>)
    ensures |r| == |a|
  {
    seq(|a|, i requires 0 <= i < |a| => F.mul(c, a[i]))
  }

  function Plus<T>(F: Field<T>, a: seq<T>, b: seq<T>): (r: seq<T>)
    requires |a| == |b|
    ensures |r| == |a|
  {
    seq(|a|, i requires 0 <= i < |a| => F.add(a[i], b[i]))
  }

  lemma {:induction false} DotScale<T(!new)>(F: Field<T>, c: T, a: seq<T>, b: seq<T>)
    requires IsField(F) && |a| == |b|
    ensures Dot(F, Scale(F, c, a), b) == F.mul(c, Dot(F, a, b))
  {
    if |a| == 0 {
      ZeroLaws(F, c);
    } else {
      var n := |a| - 1;
      DotScale(F, c, a[..n], b[..n]);
      assert Scale(F, c, a)[..n] == Scale(F, c, a[..n]);
      assert LawsAt(F, c, a[n], b[n]);
      assert LawsAt(F, c, Dot(F, a[..n], b[..n]), F.mul(a[n], b[n]));
    }
  }

  lemma {:induction false} DotPlus<T(!new)>(F: Field<T>, a: seq<T>, b: seq<T>, v: seq<T>)
    requires IsField(F) && |a| == |b| == |v|
    ensures Dot(F, Plus(F, a, b), v) == F.add(Dot(F, a, v), Dot(F, b, v))
  {
    if |a| == 0 {
      ZeroLaws(F, F.zero);
    } else {
      var n := |a| - 1;
      DotPlus(F, a[..n], b[..n], v[..n]);
      assert Plus(F, a, b)[..n] == Plus(F, a[..n], b[..n]);
      var x, y := F.mul(a[n], v[n]), F.mul(b[n], v[n]);
      assert F.mul(F.add(a[n], b[n]), v[n]) == F.add(x, y) by {
        assert LawsAt(F, v[n], a[n], b[n]);
        assert LawsAt(F, a[n], v[n], v[n]);
        assert LawsAt(F, b[n], v[n], v[n]);
        assert LawsAt(F, F.add(a[n], b[n]), v[n], v[n]);
      }
      AddShuffle(F, Dot(F, a[..n], v[..n]), Dot(F, b[..n], v[..n]), x, y);
    }
  }
}
