/** Any k shards determine the object: no two objects share them. */
module Distance {
  import opened Wrappers
  import opened Fields
  import opened Linear
  import opened Mds
  import opened GfOps
  import opened ReedSolomon
  import opened Layout
  import opened Shards
  import opened Decode

  function Minus<T>(F: Field<T>, a: seq<T>, b: seq<T>): (r: seq<T>)
    requires |a| == |b|
    ensures |r| == |a|
  {
    seq(|a|, i requires 0 <= i < |a| => Sub(F, a[i], b[i]))
  }

  lemma {:induction false} DotMinus<T(!new)>(F: Field<T>, a: seq<T>, u: seq<T>, v: seq<T>)
    requires IsField(F) && |a| == |u| == |v|
    ensures Dot(F, a, Minus(F, u, v)) == Sub(F, Dot(F, a, u), Dot(F, a, v))
  {
    if |a| == 0 {
      SubZero(F, F.zero, F.zero);
    } else {
      var n := |a| - 1;
      DotMinus(F, a[..n], u[..n], v[..n]);
      assert Minus(F, u, v)[..n] == Minus(F, u[..n], v[..n]);
      var x, y := F.mul(a[n], u[n]), F.mul(a[n], v[n]);
      var d, e := Dot(F, a[..n], u[..n]), Dot(F, a[..n], v[..n]);
      assert LawsAt(F, a[n], u[n], F.neg(v[n]));
      assert F.mul(a[n], F.neg(v[n])) == F.neg(y) by {
        assert LawsAt(F, a[n], F.neg(v[n]), a[n]);
        NegMul(F, v[n], a[n]);
        assert LawsAt(F, v[n], a[n], a[n]);
      }
      AddShuffle(F, d, F.neg(e), x, F.neg(y));
      Cauchy.NegAdd(F, e, y);
    }
  }

  /** Two stripes that agree on k distinct shards are equal. */
  lemma StripeUnique(cfg: EcConfig, len: nat, d: seq<seq<byte>>, d': seq<seq<byte>>, rows: seq<nat>)
    requires ValidConfig(cfg) && |d| == |d'| == |rows| == cfg.data && AllLen(d, len) && AllLen(d', len)
    requires Distinct(rows) && forall i :: 0 <= i < |rows| ==> rows[i] < cfg.Total()
    requires forall i :: 0 <= i < |rows| ==> Shard(cfg, len, d, rows[i]) == Shard(cfg, len, d', rows[i])
    ensures d == d'
  {
    hide GenRow, Gf;
    forall j, b | 0 <= j < cfg.data && 0 <= b < len
      ensures d[j][b] == d'[j][b]
    {
      forall i | 0 <= i < |rows|
        ensures Dot(Gf(), GenRow(cfg, rows[i]), Column(d, b)) == Dot(Gf(), GenRow(cfg, rows[i]), Column(d', b))
      {
        assert Shard(cfg, len, d, rows[i])[b] == Shard(cfg, len, d', rows[i])[b];
      }
      ColumnUnique(cfg, rows, Column(d, b), Column(d', b));
      assert Column(d, b)[j] == Column(d', b)[j];
    }
    forall j | 0 <= j < cfg.data ensures d[j] == d'[j] {}
  }

  lemma ColumnUnique(cfg: EcConfig, rows: seq<nat>, u: seq<byte>, v: seq<byte>)
    requires ValidConfig(cfg) && |u| == |v| == |rows| == cfg.data
    requires Distinct(rows) && forall i :: 0 <= i < |rows| ==> rows[i] < cfg.Total()
    requires forall i :: 0 <= i < |rows| ==> Dot(Gf(), GenRow(cfg, rows[i]), u) == Dot(Gf(), GenRow(cfg, rows[i]), v)
    ensures u == v
  {
    GfIsField();
    ZeroIs();
    var F := Gf();
    var w := Minus(F, u, v);
    hide GenRow, Gf;
    forall i | 0 <= i < |rows|
      ensures Dot(F, GenRow(cfg, rows[i]), w) == 0
    {
      var g := GenRow(cfg, rows[i]);
      DotMinus(F, g, u, v);
      SubZero(F, Dot(F, g, u), Dot(F, g, v));
    }
    AnyShardsDetermine(cfg, rows, w);
    forall j | 0 <= j < |u|
      ensures u[j] == v[j]
    {
      assert w[j] == 0;
      SubZero(F, u[j], v[j]);
    }
  }

  lemma ZeroIs()
    ensures Gf().zero == 0
  {}

  lemma PadInjective(c: nat, a: seq<byte>, b: seq<byte>)
    requires |a| == |b| <= c && Pad(c, a) == Pad(c, b)
    ensures a == b
  {
    assert Pad(c, a)[..|a|] == a && Pad(c, b)[..|b|] == b;
  }

  lemma {:induction false} PrefixesAgree(p: Profile, a: seq<byte>, b: seq<byte>, i: nat, s: nat)
    requires |a| == |b| && forall t :: 0 <= t < s ==> Cell(p, a, i, t) == Cell(p, b, i, t)
    ensures DataPrefix(p, a, i, s) == DataPrefix(p, b, i, s)
  {
    if s > 0 { PrefixesAgree(p, a, b, i, s - 1); }
  }

  /** Data cells of stripe s agree when k kept shards belong to both objects. */
  lemma CellsAgree(p: Profile, kept: Slots, a: seq<byte>, b: seq<byte>, rows: seq<nat>, s: nat, i: nat)
    requires p.Layable() && ValidConfig(p.Config()) && |kept| == p.Total() && |a| == |b|
    requires Candidate(p, |a|, kept, a) && Candidate(p, |a|, kept, b)
    requires |rows| == p.data && Distinct(rows) && forall n :: 0 <= n < |rows| ==>
      rows[n] < p.Total() && kept[rows[n]].Some?
    requires s < NumStripes(p, |a|) && i < p.data
    ensures Cell(p, a, i, s) == Cell(p, b, i, s)
  {
    var x, y := PaddedCells(p, a, s), PaddedCells(p, b, s);
    forall n | 0 <= n < |rows|
      ensures Shard(p.Config(), p.chunkSize, x, rows[n]) == Shard(p.Config(), p.chunkSize, y, rows[n])
    {
      hide Shard, PaddedCells, PaddedCell, ParityPrefix, DataPrefix, NumStripes;
      assert kept[rows[n]].value == StoredShard(p, a, rows[n]) == StoredShard(p, b, rows[n]);
      PaddedCellIsStripeShard(p, a, rows[n], s);
      PaddedCellIsStripeShard(p, b, rows[n], s);
    }
    hide Shard, Candidate;
    StripeUnique(p.Config(), p.chunkSize, x, y, rows);
    assert x[i] == y[i];
    PadInjective(p.chunkSize, Cell(p, a, i, s), Cell(p, b, i, s));
  }

  /** k kept shards belong to at most one object of a given length. */
  lemma ShardsDetermineObject(p: Profile, kept: Slots, a: seq<byte>, b: seq<byte>)
    requires p.Layable() && ValidConfig(p.Config()) && |kept| == p.Total() && |a| == |b|
    requires |Having(kept, true, p.Total())| >= p.data
    requires Candidate(p, |a|, kept, a) && Candidate(p, |a|, kept, b)
    ensures a == b
  {
    hide NumStripes, Candidate, Cell, CellOff, PrefixLen, Having, Assembled;
    var stripes := NumStripes(p, |a|);
    var rows := Having(kept, true, p.Total())[..p.data];
    AllStripesCover(p, |a|);
    forall i | 0 <= i < p.data
      ensures DataPrefix(p, a, i, stripes) == DataPrefix(p, b, i, stripes)
    {
      forall t | 0 <= t < stripes
        ensures Cell(p, a, i, t) == Cell(p, b, i, t)
      {
        CellsAgree(p, kept, a, b, rows, t, i);
      }
      PrefixesAgree(p, a, b, i, stripes);
    }
    var bufs := seq(p.data, i requires 0 <= i < p.data => DataPrefix(p, a, i, stripes));
    AssembledIsObject(p, a, stripes, bufs, 0, stripes);
    AssembledIsObject(p, b, stripes, bufs, 0, stripes);
  }

  /** With k true shards kept, what decoding recovers is the object and nothing else. */
  lemma RecoversIffObject(p: Profile, kept: Slots, obj: seq<byte>, out: seq<byte>)
    requires p.Layable() && ValidConfig(p.Config()) && |kept| == p.Total()
    requires |Having(kept, true, p.Total())| >= p.data
    requires Candidate(p, |obj|, kept, obj)
    ensures Recovers(p, |obj|, kept, out) <==> out == obj
  {
    hide Candidate;
    if out == obj {
      forall o | Candidate(p, |obj|, kept, o)
        ensures o == obj
      {
        CandidateLen(p, kept, |obj|, o);
        ShardsDetermineObject(p, kept, obj, o);
      }
    }
  }

  lemma CandidateLen(p: Profile, kept: Slots, len: nat, o: seq<byte>)
    requires p.Layable() && |kept| == p.Total() && Candidate(p, len, kept, o)
    ensures |o| == len
  {}

  /** An object survives the loss or truncation of any shards but k. */
  lemma SurvivorsDecode(p: Profile, obj: seq<byte>, shards: Slots, survivors: set<nat>, out: seq<byte>)
    requires p.Layable() && ValidConfig(p.Config()) && |shards| == p.Total()
    requires |obj| <= USIZE_MAX && Times(NumStripes(p, |obj|), p.chunkSize) <= USIZE_MAX
    requires |survivors| >= p.data
    requires forall i :: i in survivors ==> i < p.Total() && shards[i] == Some(StoredShard(p, obj, i))
    requires forall i :: 0 <= i < p.Total() && i !in survivors && shards[i].Some? ==>
      |shards[i].value| != ExpectedShardLen(p, |obj|, i)
    ensures DecodeError(p, |obj|, shards).None?
    ensures Recovers(p, |obj|, Kept(p, |obj|, shards), out) <==> out == obj
  {
    KeptSurvivors(p, obj, shards, survivors);
    hide Kept, ExpectedShardLen, NumStripes, Times, StoredShard, KeptError;
    var kept := Kept(p, |obj|, shards);
    EnoughPresent(p, kept, survivors);
    StoredAreCandidate(p, kept, obj);
    NoKeptError(p, kept);
    hide Candidate, Recovers;
    RecoversIffObject(p, kept, obj, out);
  }
}
