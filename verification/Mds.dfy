/** Identity rows over Cauchy rows: any square choice of rows is independent. */
module Mds {
  import opened Fields
  import opened Linear
  import opened Cauchy

  function UnitRow<T>(F: Field<T>, n: nat, i: nat): (r: seq<T>)
    ensures |r| == n
  {
    seq(n, j => if i == j then F.one else F.zero)
  }

  /** Row r of the identity stacked over the Cauchy rows. */
  function GeneratorRow<T>(F: Field<T>, xs: seq<T>, ys: seq<T>, r: nat): (row: seq<T>)
    requires r < |ys| + |xs|
    ensures |row| == |ys|
  {
    if r < |ys| then UnitRow(F, |ys|, r) else CauchyRow(F, xs[r - |ys|], ys)
  }

  lemma {:induction false} DotComm<T(!new)>(F: Field<T>, a: seq<T>, b: seq<T>)
    requires IsField(F) && |a| == |b|
    ensures Dot(F, a, b) == Dot(F, b, a)
  {
    if |a| > 0 {
      var n := |a| - 1;
      DotComm(F, a[..n], b[..n]);
      assert LawsAt(F, a[n], b[n], b[n]);
    }
  }

  lemma DotUnit<T(!new)>(F: Field<T>, v: seq<T>, i: nat)
    requires IsField(F) && i < |v|
    ensures Dot(F, UnitRow(F, |v|, i), v) == v[i]
  {
    var u := UnitRow(F, |v|, i);
    DotComm(F, u, v);
    DotSingle(F, v, u, i);
    assert LawsAt(F, v[i], F.one, F.one);
  }

  ghost predicate Distinct<X>(s: seq<X>) {
    forall i, j :: 0 <= i < j < |s| ==> s[i] != s[j]
  }

  ghost function Elements<X(!new)>(s: seq<X>): (r: set<X>)
    ensures forall x :: x in r <==> x in s
    ensures Distinct(s) ==> |r| == |s|
  {
    if |s| == 0 then {} else Elements(s[..|s| - 1]) + {s[|s| - 1]}
  }

  function Range(n: nat): (s: set<nat>)
    ensures |s| == n
    ensures forall j :: j in s <==> 0 <= j < n
  {
    if n == 0 then {} else Range(n - 1) + {n - 1}
  }

  /** Shifting a set of numbers down by k keeps its size. */
  lemma {:induction false} ShiftDown(b: set<nat>, k: nat) returns (s: set<nat>)
    requires forall r :: r in b ==> r >= k
    ensures |s| == |b|
    ensures forall r :: r in s ==> r + k in b
    decreases |b|
  {
    if b == {} {
      s := {};
    } else {
      var m :| m in b;
      var rest := b - {m};
      s := ShiftDown(rest, k);
      assert m - k !in s;
      s := s + {m - k};
    }
  }

  /** Any |ys| distinct rows of the generator matrix have only the zero vector in their kernel. */
  lemma AnyRowsIndependent<T(!new)>(F: Field<T>, xs: seq<T>, ys: seq<T>, rows: seq<nat>, v: seq<T>)
    requires IsField(F) && DistinctPoints(xs, ys)
    requires |rows| == |ys| == |v| && Distinct(rows)
    requires forall i :: 0 <= i < |rows| ==> rows[i] < |ys| + |xs|
    requires forall i :: 0 <= i < |rows| ==> Dot(F, GeneratorRow(F, xs, ys, rows[i]), v) == F.zero
    ensures forall j :: 0 <= j < |ys| ==> v[j] == F.zero
  {
    var k := |ys|;
    var unknowns, cauchy := CountUnknowns(rows, k);
    forall j | 0 <= j < k && j !in unknowns
      ensures v[j] == F.zero
    {
      DotUnit(F, v, j);
      UnitRowOf(F, xs, ys, rows, j);
    }
    forall r | r in cauchy
      ensures r < |xs| && Dot(F, CauchyRow(F, xs[r], ys), v) == F.zero
    {
      var i :| 0 <= i < |rows| && rows[i] == r + k;
      assert GeneratorRow(F, xs, ys, rows[i]) == CauchyRow(F, xs[r], ys);
    }
    CauchyKernel(F, xs, ys, v, cauchy, unknowns);
  }

  lemma UnitRowOf<T(!new)>(F: Field<T>, xs: seq<T>, ys: seq<T>, rows: seq<nat>, j: nat)
    requires j < |ys| && j in rows
    ensures exists i :: 0 <= i < |rows| && rows[i] == j && GeneratorRow(F, xs, ys, rows[i]) == UnitRow(F, |ys|, j)
  {
    var i :| 0 <= i < |rows| && rows[i] == j;
    assert GeneratorRow(F, xs, ys, rows[i]) == UnitRow(F, |ys|, j);
  }

  /** The columns no identity row settles are as many as the Cauchy rows chosen. */
  lemma CountUnknowns(rows: seq<nat>, k: nat) returns (unknowns: set<nat>, cauchy: set<nat>)
    requires |rows| == k && Distinct(rows)
    ensures |unknowns| == |cauchy|
    ensures forall j :: j in unknowns ==> j < k
    ensures forall j :: 0 <= j < k && j !in unknowns ==> j in rows
    ensures forall r :: r in cauchy ==> r + k in rows
  {
    hide *;
    var all, columns := Elements(rows), Range(k);
    SameRest(all, columns);
    unknowns := columns - all;
    cauchy := ShiftDown(all - columns, k);
  }

  /** Sets of one size leave as much of each other uncovered. */
  lemma SameRest(a: set<nat>, b: set<nat>)
    requires |a| == |b|
    ensures |a - b| == |b - a|
  {
    assert a == (a - b) + a * b && b == (b - a) + a * b;
    assert |a| == |a - b| + |a * b| && |b| == |b - a| + |a * b|;
  }
}
