/** Reed-Solomon coding of one stripe: crates/isa-l-safe. */
module ReedSolomon {
  import opened Fields
  import opened Linear
  import opened Cauchy
  import opened Mds
  import opened Gauss
  import opened Gf256
  import opened GfOps

  type byte = bv8

  datatype EcConfig = EcConfig(data: nat, parity: nat) {
    function Total(): nat { data + parity }
  }

  datatype EcError =
    | BufferCount(expected: nat, got: nat)
    | BufferLen(expected: nat, got: nat)
    | InvalidConfig(data: nat, parity: nat)
    | BadIndex(index: nat, bound: nat)
    | DuplicateIndex(index: nat)
    | Overlap(index: nat)
    | Singular

  predicate ValidConfig(cfg: EcConfig) {
    1 <= cfg.data <= 32 && 1 <= cfg.parity <= 32
  }

  /** The byte holding the number i, bit by bit. */
  function Point(i: nat): byte {
    if i == 0 then 0 else Add(Double(Point(i / 2)), if i % 2 == 1 then 1 else 0)
  }

  /** The number a byte holds. */
  function ValueOf(b: byte): nat
    decreases b
  {
    if b == 0 then 0 else assert Half(b) < b; 2 * ValueOf(Half(b)) + (if Odd(b) then 1 else 0)
  }

  lemma ShortByte(b: byte)
    requires BitLen(b) <= 7
    ensures !High(b)
  {
    if High(b) {
      var b1 := Half(b); var b2 := Half(b1); var b3 := Half(b2); var b4 := Half(b3);
      var b5 := Half(b4); var b6 := Half(b5); var b7 := Half(b6);
      assert b1 != 0 && b2 != 0 && b3 != 0 && b4 != 0 && b5 != 0 && b6 != 0 && b7 != 0;
      hide High, Half;
      BitLenUp(b); BitLenUp(b1); BitLenUp(b2); BitLenUp(b3);
      BitLenUp(b4); BitLenUp(b5); BitLenUp(b6); BitLenUp(b7);
    }
  }

  lemma BitLenUp(b: byte)
    ensures BitLen(b) == if b == 0 then 0 else 1 + BitLen(Half(b))
  {}

  lemma AppendBit(x: byte, bit: byte)
    requires !High(x) && (bit == 0 || bit == 1)
    ensures Half(Add(Double(x), bit)) == x && Odd(Add(Double(x), bit)) == (bit == 1)
  {}

  lemma {:induction false} PointRoundTrip(i: nat, n: nat)
    requires i < Exp2(n) && n <= 8
    ensures ValueOf(Point(i)) == i && BitLen(Point(i)) <= n
  {
    if i > 0 {
      PointRoundTrip(i / 2, n - 1);
      var x := Point(i / 2);
      ShortByte(x);
      AppendBit(x, if i % 2 == 1 then 1 else 0);
      hide Half, Double, Add, Odd;
      BitLenUp(Point(i));
      ValueUp(Point(i));
    }
  }

  lemma ValueUp(b: byte)
    ensures ValueOf(b) == 2 * ValueOf(Half(b)) + (if Odd(b) then 1 else 0)
  {}

  lemma PointInjective(i: nat, j: nat)
    requires i < 256 && j < 256 && Point(i) == Point(j)
    ensures i == j
  {
    assert Exp2(8) == 256;
    PointRoundTrip(i, 8);
    PointRoundTrip(j, 8);
  }

  function Points(lo: nat, hi: nat): (s: seq<byte>)
    requires lo <= hi <= 256
    ensures |s| == hi - lo
  {
    seq(hi - lo, i requires 0 <= i < hi - lo => Point(lo + i))
  }

  lemma PointsDistinct(k: nat, m: nat)
    requires k <= m <= 256
    ensures DistinctPoints(Points(k, m), Points(0, k))
  {
    forall i, j | 0 <= i < 256 && 0 <= j < 256 && Point(i) == Point(j)
      ensures i == j
    {
      PointInjective(i, j);
    }
  }

  /** Row r of the (k+p) x k generator matrix. */
  function GenRow(cfg: EcConfig, r: nat): (row: seq<byte>)
    requires ValidConfig(cfg) && r < cfg.Total()
    ensures |row| == cfg.data
  {
    GeneratorRow(Gf(), Points(cfg.data, cfg.Total()), Points(0, cfg.data), r)
  }

  lemma GenRowCauchy(cfg: EcConfig, r: nat, j: nat)
    requires ValidConfig(cfg) && r < cfg.Total() && j < cfg.data
    ensures GenRow(cfg, r)[j] == if r < cfg.data then (if r == j then 1 else 0) else Inv(Point(r) ^ Point(j))
  {
    hide Inv, Point, Mul;
    var F, xs, ys := Gf(), Points(cfg.data, cfg.Total()), Points(0, cfg.data);
    assert F.zero == 0 && F.one == 1;
    if r >= cfg.data {
      assert xs[r - cfg.data] == Point(r) && ys[j] == Point(j);
    }
  }

  /** MDS: any k distinct rows of the generator matrix are independent. */
  lemma AnyShardsDetermine(cfg: EcConfig, rows: seq<nat>, v: seq<byte>)
    requires ValidConfig(cfg)
    requires |rows| == |v| == cfg.data && Distinct(rows)
    requires forall i :: 0 <= i < |rows| ==> rows[i] < cfg.Total()
    requires forall i :: 0 <= i < |rows| ==> Dot(Gf(), GenRow(cfg, rows[i]), v) == 0
    ensures forall j :: 0 <= j < |v| ==> v[j] == 0
  {
    GfIsField();
    PointsDistinct(cfg.data, cfg.Total());
    AnyRowsIndependent(Gf(), Points(cfg.data, cfg.Total()), Points(0, cfg.data), rows, v);
  }

  // ---- shards of one stripe ----

  ghost predicate AllLen(bufs: seq<seq<byte>>, len: nat) {
    forall i :: 0 <= i < |bufs| ==> |bufs[i]| == len
  }

  /** Byte b of every buffer. */
  function Column(bufs: seq<seq<byte>>, b: nat): (c: seq<byte>)
    requires forall i :: 0 <= i < |bufs| ==> b < |bufs[i]|
    ensures |c| == |bufs|
  {
    seq(|bufs|, i requires 0 <= i < |bufs| => bufs[i][b])
  }

  /** The GF kernel `ec_encode_data` on one coefficient row: row times the stacked buffers. */
  function Combine(row: seq<byte>, bufs: seq<seq<byte>>, len: nat): (out: seq<byte>)
    requires |row| == |bufs| && AllLen(bufs, len)
    ensures |out| == len
  {
    seq(len, b requires 0 <= b < len => Dot(Gf(), row, Column(bufs, b)))
  }

  /** Shard r of the stripe whose k data buffers are `data`. */
  ghost function Shard(cfg: EcConfig, len: nat, data: seq<seq<byte>>, r: nat): (out: seq<byte>)
    requires ValidConfig(cfg) && r < cfg.Total() && |data| == cfg.data && AllLen(data, len)
    ensures |out| == len
  {
    Combine(GenRow(cfg, r), data, len)
  }

  /** The first k shards are the data verbatim. */
  lemma DataShardVerbatim(cfg: EcConfig, len: nat, data: seq<seq<byte>>, r: nat)
    requires ValidConfig(cfg) && r < cfg.data == |data| && AllLen(data, len)
    ensures Shard(cfg, len, data, r) == data[r]
  {
    GfIsField();
    forall b | 0 <= b < len
      ensures Shard(cfg, len, data, r)[b] == data[r][b]
    {
      DotUnit(Gf(), Column(data, b), r);
    }
  }

  // ---- the decode algebra ----

  /** g * m, built up one matrix row at a time. */
  function VecMat<T>(F: Field<T>, g: seq<T>, m: seq<seq<T>>, cols: nat): (r: seq<T>)
    requires |g| == |m| && forall i :: 0 <= i < |m| ==> |m[i]| == cols
    ensures |r| == cols
  {
    if |m| == 0 then seq(cols, i => F.zero)
    else
      var n := |m| - 1;
      Plus(F, VecMat(F, g[..n], m[..n], cols), Scale(F, g[n], m[n]))
  }

  /** (g * m) . s == g . (m * s) */
  lemma {:induction false} VecMatDot<T(!new)>(F: Field<T>, g: seq<T>, m: seq<seq<T>>, s: seq<T>)
    requires IsField(F)
    requires |g| == |m| && forall i :: 0 <= i < |m| ==> |m[i]| == |s|
    ensures Dot(F, VecMat(F, g, m, |s|), s) == Dot(F, g, MatVec(F, m, s))
  {
    if |m| == 0 {
      var z := VecMat(F, g, m, |s|);
      DotComm(F, z, s);
      DotZero(F, s, z);
    } else {
      var n := |m| - 1;
      VecMatDot(F, g[..n], m[..n], s);
      DotPlus(F, VecMat(F, g[..n], m[..n], |s|), Scale(F, g[n], m[n]), s);
      DotScale(F, g[n], m[n], s);
      assert MatVec(F, m, s)[..n] == MatVec(F, m[..n], s);
    }
  }

  /** The coefficient row that rebuilds shard e from the chosen survivors. */
  function DecodeRow(cfg: EcConfig, inverse: seq<seq<byte>>, e: nat): (row: seq<byte>)
    requires ValidConfig(cfg) && e < cfg.Total()
    requires |inverse| == cfg.data && forall i :: 0 <= i < |inverse| ==> |inverse[i]| == cfg.data
    ensures |row| == cfg.data
  {
    if e < cfg.data then inverse[e] else VecMat(Gf(), GenRow(cfg, e), inverse, cfg.data)
  }

  function SourceRows(cfg: EcConfig, idx: seq<nat>): (b: seq<seq<byte>>)
    requires ValidConfig(cfg) && forall i :: 0 <= i < |idx| ==> idx[i] < cfg.Total()
    ensures |b| == |idx| && forall i :: 0 <= i < |b| ==> b[i] == GenRow(cfg, idx[i])
  {
    seq(|idx|, i requires 0 <= i < |idx| => GenRow(cfg, idx[i]))
  }

  lemma SourceRowsInvertible(cfg: EcConfig, idx: seq<nat>, v: seq<byte>)
    requires ValidConfig(cfg) && |idx| == |v| == cfg.data && Distinct(idx)
    requires forall i :: 0 <= i < |idx| ==> idx[i] < cfg.Total()
    requires Solves(Gf(), SourceRows(cfg, idx), v)
    ensures IsZeroVec(Gf(), v)
  {
    forall i | 0 <= i < |idx|
      ensures Dot(Gf(), GenRow(cfg, idx[i]), v) == 0
    {
      assert SourceRows(cfg, idx)[i] == GenRow(cfg, idx[i]);
    }
    AnyShardsDetermine(cfg, idx, v);
  }

  /** A decode row applied to true survivors yields the erased shard. */
  lemma DecodeRowRebuilds(cfg: EcConfig, len: nat, idx: seq<nat>, inverse: seq<seq<byte>>, data: seq<seq<byte>>,
      sources: seq<seq<byte>>, e: nat)
    requires ValidConfig(cfg) && e < cfg.Total()
    requires |idx| == |data| == |sources| == cfg.data && AllLen(data, len) && AllLen(sources, len)
    requires forall i :: 0 <= i < |idx| ==> idx[i] < cfg.Total()
    requires LeftInverse(Gf(), SourceRows(cfg, idx), inverse)
    requires forall i :: 0 <= i < |idx| ==> sources[i] == Shard(cfg, len, data, idx[i])
    ensures Combine(DecodeRow(cfg, inverse, e), sources, len) == Shard(cfg, len, data, e)
  {
    GfIsField();
    forall b | 0 <= b < len
      ensures Combine(DecodeRow(cfg, inverse, e), sources, len)[b] == Shard(cfg, len, data, e)[b]
    {
      DecodeByte(cfg, len, idx, inverse, data, sources, e, b);
    }
  }

  lemma DecodeByte(cfg: EcConfig, len: nat, idx: seq<nat>, inverse: seq<seq<byte>>, data: seq<seq<byte>>,
      sources: seq<seq<byte>>, e: nat, b: nat)
    requires ValidConfig(cfg) && e < cfg.Total() && b < len
    requires |idx| == |data| == |sources| == cfg.data && AllLen(data, len) && AllLen(sources, len)
    requires forall i :: 0 <= i < |idx| ==> idx[i] < cfg.Total()
    requires LeftInverse(Gf(), SourceRows(cfg, idx), inverse)
    requires forall i :: 0 <= i < |idx| ==> sources[i] == Shard(cfg, len, data, idx[i])
    ensures Dot(Gf(), DecodeRow(cfg, inverse, e), Column(sources, b)) == Dot(Gf(), GenRow(cfg, e), Column(data, b))
  {
    GfIsField();
    var d, s := Column(data, b), Column(sources, b);
    SourceColumn(cfg, len, idx, data, sources, b);
    assert MatVec(Gf(), inverse, s) == d;
    if e < cfg.data {
      assert MatVec(Gf(), inverse, s)[e] == Dot(Gf(), inverse[e], s);
      DotUnit(Gf(), d, e);
    } else {
      VecMatDot(Gf(), GenRow(cfg, e), inverse, s);
    }
  }

  /** Byte b of the survivors is the source rows times byte b of the data. */
  lemma SourceColumn(cfg: EcConfig, len: nat, idx: seq<nat>, data: seq<seq<byte>>, sources: seq<seq<byte>>, b: nat)
    requires ValidConfig(cfg) && b < len
    requires |idx| == |data| == |sources| == cfg.data && AllLen(data, len) && AllLen(sources, len)
    requires forall i :: 0 <= i < |idx| ==> idx[i] < cfg.Total()
    requires forall i :: 0 <= i < |idx| ==> sources[i] == Shard(cfg, len, data, idx[i])
    ensures Column(sources, b) == MatVec(Gf(), SourceRows(cfg, idx), Column(data, b))
  {
    hide GenRow, Gf;
  }
}
