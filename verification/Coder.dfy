/** The encoder and decoder objects of crates/isa-l-safe. */
module Coder {
  import opened Wrappers
  import opened Mds
  import opened Gauss
  import opened Gf256
  import opened GfOps
  import opened ReedSolomon

  function Rows(a: array2<byte>): (m: seq<seq<byte>>)
    reads a
    ensures |m| == a.Length0
    ensures forall r :: 0 <= r < |m| ==> |m[r]| == a.Length1
    ensures forall r, j :: 0 <= r < |m| && 0 <= j < a.Length1 ==> m[r][j] == a[r, j]
  {
    seq(a.Length0, r requires 0 <= r < a.Length0 reads a => seq(a.Length1,
      j requires 0 <= j < a.Length1 reads a => a[r, j]))
  }

  method ValidateCfg(cfg: EcConfig) returns (r: Result<(), EcError>)
    ensures r == if ValidConfig(cfg) then Ok(()) else Err(InvalidConfig(cfg.data, cfg.parity))
    ensures r.Ok? <==> 1 <= cfg.data <= 32 && 1 <= cfg.parity <= 32
  {
    if cfg.data == 0 || cfg.data > 32 || cfg.parity == 0 || cfg.parity > 32 {
      return Err(InvalidConfig(cfg.data, cfg.parity));
    }
    return Ok(());
  }

  ghost predicate IsGenerator(m: array2<byte>, cfg: EcConfig)
    requires ValidConfig(cfg)
    reads m
  {
    && m.Length0 == cfg.Total() && m.Length1 == cfg.data
    && forall r, j :: 0 <= r < cfg.Total() && 0 <= j < cfg.data ==> m[r, j] == GenRow(cfg, r)[j]
  }

  method BuildEncodeMatrix(cfg: EcConfig) returns (a: array2<byte>)
    requires ValidConfig(cfg)
    ensures fresh(a) && IsGenerator(a, cfg)
  {
    hide GenRow, Inv, Point, Mul;
    var m, k := cfg.Total(), cfg.data;
    a := new byte[m, k]((_, _) => 0);
    for i := 0 to k
      invariant forall r, j :: 0 <= r < m && 0 <= j < k ==> a[r, j] == if r == j && r < i then 1 else 0
    {
      a[i, i] := 1;
    }
    forall r, j | 0 <= r < k && 0 <= j < k
      ensures a[r, j] == GenRow(cfg, r)[j]
    {
      GenRowCauchy(cfg, r, j);
    }
    for i := k to m
      invariant forall r, j :: 0 <= r < i && 0 <= j < k ==> a[r, j] == GenRow(cfg, r)[j]
    {
      for j := 0 to k
        invariant forall r, c :: 0 <= r < i && 0 <= c < k ==> a[r, c] == GenRow(cfg, r)[c]
        invariant forall c :: 0 <= c < j ==> a[i, c] == GenRow(cfg, i)[c]
      {
        var inv := GfInv(Point(i) ^ Point(j));
        GenRowCauchy(cfg, i, j);
        a[i, j] := inv;
      }
    }
  }

  // ---- argument checks, in the order the code makes them ----

  function LenError(bufs: seq<seq<byte>>, len: nat): Option<EcError> {
    if |bufs| == 0 then None
    else if |bufs[0]| != len then Some(BufferLen(len, |bufs[0]|))
    else LenError(bufs[1..], len)
  }

  function SourceError(m: nat, idx: seq<nat>, i: nat): Option<EcError>
    requires i <= |idx|
    decreases |idx| - i
  {
    if i == |idx| then None
    else if idx[i] >= m then Some(BadIndex(idx[i], m))
    else if idx[i] in idx[..i] then Some(DuplicateIndex(idx[i]))
    else SourceError(m, idx, i + 1)
  }

  function ErasedError(m: nat, idx: seq<nat>, erased: seq<nat>, i: nat): Option<EcError>
    requires i <= |erased|
    decreases |erased| - i
  {
    if i == |erased| then None
    else if erased[i] >= m then Some(BadIndex(erased[i], m))
    else if erased[i] in idx then Some(Overlap(erased[i]))
    else ErasedError(m, idx, erased, i + 1)
  }

  function ReconstructError(cfg: EcConfig, len: nat, idx: seq<nat>, sources: seq<seq<byte>>, erased: seq<nat>,
      outputs: seq<seq<byte>>): Option<EcError> {
    if |idx| != cfg.data then Some(BufferCount(cfg.data, |idx|))
    else if |sources| != cfg.data then Some(BufferCount(cfg.data, |sources|))
    else if |erased| != |outputs| then Some(BufferCount(|erased|, |outputs|))
    else if erased == [] then None
    else OrElse(LenError(sources, len), OrElse(LenError(outputs, len),
         OrElse(SourceError(cfg.Total(), idx, 0), ErasedError(cfg.Total(), idx, erased, 0))))
  }

  /** What the caller must supply for a reconstruction with something to rebuild. */
  ghost predicate WellFormedCall(cfg: EcConfig, len: nat, idx: seq<nat>, sources: seq<seq<byte>>,
      erased: seq<nat>, outputs: seq<seq<byte>>) {
    && |idx| == |sources| == cfg.data && |erased| == |outputs|
    && AllLen(sources, len) && AllLen(outputs, len)
    && Distinct(idx) && (forall i :: 0 <= i < |idx| ==> idx[i] < cfg.Total())
    && (forall i :: 0 <= i < |erased| ==> erased[i] < cfg.Total() && erased[i] !in idx)
  }

  lemma {:induction false} LenErrorMeans(bufs: seq<seq<byte>>, len: nat)
    ensures LenError(bufs, len).None? <==> AllLen(bufs, len)
  {
    if |bufs| > 0 {
      LenErrorMeans(bufs[1..], len);
      assert AllLen(bufs, len) ==> AllLen(bufs[1..], len);
      assert AllLen(bufs[1..], len) && |bufs[0]| == len ==> AllLen(bufs, len) by {
        if AllLen(bufs[1..], len) && |bufs[0]| == len {
          forall i | 0 <= i < |bufs| ensures |bufs[i]| == len { if i > 0 { assert bufs[i] == bufs[1..][i - 1]; } }
        }
      }
    }
  }

  /** The buffer named is the first of the wrong length. */
  lemma {:induction false} LenErrorIs(bufs: seq<seq<byte>>, len: nat, i: nat)
    requires i < |bufs| && |bufs[i]| != len && forall j: nat :: j < i ==> |bufs[j]| == len
    ensures LenError(bufs, len) == Some(BufferLen(len, |bufs[i]|))
  {
    if i > 0 {
      assert |bufs[0]| == len;
      var rest := bufs[1..];
      forall j: nat | j < i - 1 ensures |rest[j]| == len { assert rest[j] == bufs[j + 1]; }
      LenErrorIs(rest, len, i - 1);
    }
  }

  /** The source index named is the first out of range or already seen; being out of range comes first. */
  lemma {:induction false} SourceErrorIs(m: nat, idx: seq<nat>, i: nat, k: nat)
    requires i <= k < |idx| && (idx[k] >= m || idx[k] in idx[..k])
    requires forall j: nat :: i <= j < k ==> idx[j] < m && idx[j] !in idx[..j]
    ensures SourceError(m, idx, i) == Some(if idx[k] >= m then BadIndex(idx[k], m) else DuplicateIndex(idx[k]))
    decreases k - i
  {
    if i < k { SourceErrorIs(m, idx, i + 1, k); }
  }

  /** The erased index named is the first out of range or also a source. */
  lemma {:induction false} ErasedErrorIs(m: nat, idx: seq<nat>, erased: seq<nat>, i: nat, k: nat)
    requires i <= k < |erased| && (erased[k] >= m || erased[k] in idx)
    requires forall j: nat :: i <= j < k ==> erased[j] < m && erased[j] !in idx
    ensures ErasedError(m, idx, erased, i) ==
      Some(if erased[k] >= m then BadIndex(erased[k], m) else Overlap(erased[k]))
    decreases k - i
  {
    if i < k { ErasedErrorIs(m, idx, erased, i + 1, k); }
  }

  lemma {:induction false} SourceErrorMeans(m: nat, idx: seq<nat>, i: nat)
    requires i <= |idx| && Distinct(idx[..i]) && forall j :: 0 <= j < i ==> idx[j] < m
    ensures SourceError(m, idx, i).None? <==> Distinct(idx) && forall j :: 0 <= j < |idx| ==> idx[j] < m
    decreases |idx| - i
  {
    if i < |idx| {
      if idx[i] in idx[..i] {
        var j :| 0 <= j < i && idx[..i][j] == idx[i];
        assert idx[j] == idx[i];
      } else if idx[i] < m {
        assert idx[..i + 1] == idx[..i] + [idx[i]];
        SourceErrorMeans(m, idx, i + 1);
      }
    } else {
      assert idx[..i] == idx;
    }
  }

  lemma {:induction false} ErasedErrorMeans(m: nat, idx: seq<nat>, erased: seq<nat>, i: nat)
    requires i <= |erased| && forall j :: 0 <= j < i ==> erased[j] < m && erased[j] !in idx
    ensures ErasedError(m, idx, erased, i).None? <==> forall j :: 0 <= j < |erased| ==>
      erased[j] < m && erased[j] !in idx
    decreases |erased| - i
  {
    if i < |erased| && erased[i] < m && erased[i] !in idx {
      ErasedErrorMeans(m, idx, erased, i + 1);
    }
  }

  /** The argument checks accept exactly the well-formed calls. */
  lemma ChecksAreExact(cfg: EcConfig, len: nat, idx: seq<nat>, sources: seq<seq<byte>>,
      erased: seq<nat>, outputs: seq<seq<byte>>)
    requires erased != []
    ensures ReconstructError(cfg, len, idx, sources, erased, outputs).None?
       <==> WellFormedCall(cfg, len, idx, sources, erased, outputs)
  {
    LenErrorMeans(sources, len);
    LenErrorMeans(outputs, len);
    SourceErrorMeans(cfg.Total(), idx, 0);
    ErasedErrorMeans(cfg.Total(), idx, erased, 0);
  }

  method CheckLens(bufs: seq<seq<byte>>, len: nat) returns (e: Option<EcError>)
    ensures e == LenError(bufs, len)
  {
    for i := 0 to |bufs|
      invariant LenError(bufs, len) == LenError(bufs[i..], len)
    {
      if |bufs[i]| != len {
        return Some(BufferLen(len, |bufs[i]|));
      }
    }
    return None;
  }

  method CheckIndices(m: nat, idx: seq<nat>, erased: seq<nat>) returns (e: Option<EcError>)
    ensures e == OrElse(SourceError(m, idx, 0), ErasedError(m, idx, erased, 0))
  {
    var isSource := new bool[m](_ => false);
    for i := 0 to |idx|
      invariant SourceError(m, idx, 0) == SourceError(m, idx, i)
      invariant forall s :: 0 <= s < m ==> isSource[s] == (s in idx[..i])
    {
      var s := idx[i];
      if s >= m {
        return Some(BadIndex(s, m));
      }
      if isSource[s] {
        return Some(DuplicateIndex(s));
      }
      isSource[s] := true;
      assert idx[..i + 1] == idx[..i] + [s];
    }
    assert idx[..|idx|] == idx;
    for i := 0 to |erased|
      invariant ErasedError(m, idx, erased, 0) == ErasedError(m, idx, erased, i)
    {
      var x := erased[i];
      if x >= m {
        return Some(BadIndex(x, m));
      }
      if isSource[x] {
        return Some(Overlap(x));
      }
    }
    return None;
  }

  /** `sources[i]` is shard `idx[i]` of the stripe `data`. */
  ghost predicate TrueSources(cfg: EcConfig, len: nat, data: seq<seq<byte>>, idx: seq<nat>, sources: seq<seq<byte>>)
    requires ValidConfig(cfg)
  {
    && |data| == cfg.data && AllLen(data, len) && |idx| == |sources|
    && forall i :: 0 <= i < |idx| ==> idx[i] < cfg.Total() && sources[i] == Shard(cfg, len, data, idx[i])
  }

  /** `outs[j]` is shard `erased[j]` of every stripe the sources could have come from. */
  ghost predicate Rebuilds(cfg: EcConfig, len: nat, idx: seq<nat>, sources: seq<seq<byte>>,
      erased: seq<nat>, outs: seq<seq<byte>>)
    requires ValidConfig(cfg) && |erased| == |outs|
  {
    forall data :: TrueSources(cfg, len, data, idx, sources) ==> RebuildsAs(cfg, len, data, erased, outs)
  }

  ghost predicate RebuildsAs(cfg: EcConfig, len: nat, data: seq<seq<byte>>, erased: seq<nat>, outs: seq<seq<byte>>)
    requires ValidConfig(cfg) && |erased| == |outs| && |data| == cfg.data && AllLen(data, len)
  {
    forall j :: 0 <= j < |erased| ==> erased[j] < cfg.Total() && outs[j] == Shard(cfg, len, data, erased[j])
  }

  lemma CombinedRebuild(cfg: EcConfig, len: nat, idx: seq<nat>, inverse: seq<seq<byte>>, sources: seq<seq<byte>>,
      erased: seq<nat>, outs: seq<seq<byte>>)
    requires ValidConfig(cfg) && WellFormedCall(cfg, len, idx, sources, erased, outs)
    requires LeftInverse(Gf(), SourceRows(cfg, idx), inverse)
    requires forall j :: 0 <= j < |erased| ==> outs[j] == Combine(DecodeRow(cfg, inverse, erased[j]), sources, len)
    ensures Rebuilds(cfg, len, idx, sources, erased, outs)
  {
    forall data | TrueSources(cfg, len, data, idx, sources)
      ensures RebuildsAs(cfg, len, data, erased, outs)
    {
      forall j | 0 <= j < |erased|
        ensures outs[j] == Shard(cfg, len, data, erased[j])
      {
        DecodeRowRebuilds(cfg, len, idx, inverse, data, sources, erased[j]);
      }
    }
  }

  lemma VecMatNone(k: nat, col: nat)
    requires col < k
    ensures VecMat(Gf(), [], [], k)[col] == 0
  {}

  lemma VecMatStep(g: seq<byte>, m: seq<seq<byte>>, k: nat, row: nat, col: nat)
    requires |g| == |m| && row < |g| && col < k && forall i :: 0 <= i < |m| ==> |m[i]| == k
    ensures VecMat(Gf(), g[..row + 1], m[..row + 1], k)[col]
         == VecMat(Gf(), g[..row], m[..row], k)[col] ^ Mul(g[row], m[row][col])
  {
    hide Mul;
    assert g[..row + 1][..row] == g[..row] && m[..row + 1][..row] == m[..row];
  }

  lemma LeftInverseShape(cfg: EcConfig, idx: seq<nat>, inverse: seq<seq<byte>>)
    requires ValidConfig(cfg) && |idx| == cfg.data && forall i :: 0 <= i < |idx| ==> idx[i] < cfg.Total()
    requires LeftInverse(Gf(), SourceRows(cfg, idx), inverse)
    ensures |inverse| == cfg.data && forall i :: 0 <= i < |inverse| ==> |inverse[i]| == cfg.data
  {}

  class Decoder {
    const cfg: EcConfig
    const encodeMatrix: array2<byte>

    ghost predicate Valid()
      reads this, encodeMatrix
    {
      ValidConfig(cfg) && IsGenerator(encodeMatrix, cfg)
    }

    constructor (cfg: EcConfig, encodeMatrix: array2<byte>)
      requires ValidConfig(cfg) && IsGenerator(encodeMatrix, cfg)
      ensures Valid() && this.cfg == cfg && this.encodeMatrix == encodeMatrix
    {
      this.cfg := cfg;
      this.encodeMatrix := encodeMatrix;
    }

    /** The k x k submatrix of the chosen sources. */
    method SourceMatrix(idx: seq<nat>) returns (b: array2<byte>)
      requires Valid() && |idx| == cfg.data && forall i :: 0 <= i < |idx| ==> idx[i] < cfg.Total()
      ensures Rows(b) == SourceRows(cfg, idx)
    {
      hide GenRow;
      var k := cfg.data;
      b := new byte[k, k]((_, _) => 0);
      for i := 0 to k
        invariant forall r, j :: 0 <= r < i && 0 <= j < k ==> b[r, j] == GenRow(cfg, idx[r])[j]
      {
        for j := 0 to k
          invariant forall r, c :: 0 <= r < i && 0 <= c < k ==> b[r, c] == GenRow(cfg, idx[r])[c]
          invariant forall c :: 0 <= c < j ==> b[i, c] == GenRow(cfg, idx[i])[c]
        {
          b[i, j] := encodeMatrix[idx[i], j];
        }
      }
      forall r | 0 <= r < k
        ensures Rows(b)[r] == SourceRows(cfg, idx)[r]
      {
      }
    }

    /** One coefficient of a parity decode row: XOR over the rows of inverse times generator. */
    method DecodeCoefficient(inverse: seq<seq<byte>>, e: nat, col: nat) returns (acc: byte)
      requires Valid() && e < cfg.Total() && col < cfg.data
      requires |inverse| == cfg.data && forall i :: 0 <= i < |inverse| ==> |inverse[i]| == cfg.data
      ensures acc == VecMat(Gf(), GenRow(cfg, e), inverse, cfg.data)[col]
    {
      hide GenRow, Mul, VecMat, GfOps.Gf;
      acc := 0;
      var k := cfg.data;
      VecMatNone(k, col);
      ghost var g := GenRow(cfg, e);
      for row := 0 to k
        invariant acc == VecMat(Gf(), g[..row], inverse[..row], k)[col]
      {
        var prod := GfMul(inverse[row][col], encodeMatrix[e, row]);
        acc := acc ^ prod;
        VecMatStep(g, inverse, k, row, col);
        MulComm(inverse[row][col], g[row]);
      }
      assert g[..k] == g && inverse[..k] == inverse;
    }

    /** One row per erased shard, in `erased` order. */
    method DecodeMatrix(inverse: seq<seq<byte>>, erased: seq<nat>) returns (d: array2<byte>)
      requires Valid() && forall i :: 0 <= i < |erased| ==> erased[i] < cfg.Total()
      requires |inverse| == cfg.data && forall i :: 0 <= i < |inverse| ==> |inverse[i]| == cfg.data
      ensures d.Length0 == |erased| && d.Length1 == cfg.data
      ensures forall i :: 0 <= i < |erased| ==> Rows(d)[i] == DecodeRow(cfg, inverse, erased[i])
    {
      hide GenRow, VecMat;
      var k, nerrs := cfg.data, |erased|;
      d := new byte[nerrs, k]((_, _) => 0);
      for i := 0 to nerrs
        invariant forall r, c :: 0 <= r < i && 0 <= c < k ==> d[r, c] == DecodeRow(cfg, inverse, erased[r])[c]
      {
        var e := erased[i];
        for col := 0 to k
          invariant forall r, c :: 0 <= r < i && 0 <= c < k ==> d[r, c] == DecodeRow(cfg, inverse, erased[r])[c]
          invariant forall c :: 0 <= c < col ==> d[i, c] == DecodeRow(cfg, inverse, e)[c]
        {
          if e < k {
            d[i, col] := inverse[e][col];
          } else {
            var acc := DecodeCoefficient(inverse, e, col);
            d[i, col] := acc;
          }
        }
      }
      forall i | 0 <= i < nerrs
        ensures Rows(d)[i] == DecodeRow(cfg, inverse, erased[i])
      {
      }
    }

    /** Rebuild the `erased` shards from k survivors, into `outputs`. */
    method Reconstruct(len: nat, idx: seq<nat>, sources: seq<seq<byte>>, erased: seq<nat>, outputs: array<seq<byte>>)
      returns (r: Result<(), EcError>)
      requires Valid()
      modifies outputs
      ensures Valid()
      ensures r == match ReconstructError(cfg, len, idx, sources, erased, old(outputs[..]))
                   case Some(e) => Err(e)
                   case None => Ok(())
      ensures r.Err? ==> outputs[..] == old(outputs[..])
      ensures r.Ok? && erased != [] ==> AllLen(outputs[..], len)
      ensures r.Ok? ==> |erased| == outputs.Length && Rebuilds(cfg, len, idx, sources, erased, outputs[..])
    {
      var k, m := cfg.data, cfg.Total();
      if |idx| != k {
        return Err(BufferCount(k, |idx|));
      }
      if |sources| != k {
        return Err(BufferCount(k, |sources|));
      }
      if |erased| != outputs.Length {
        return Err(BufferCount(|erased|, outputs.Length));
      }
      if |erased| == 0 {
        return Ok(());
      }
      var e := CheckLens(sources, len);
      if e.Some? { return Err(e.value); }
      e := CheckLens(outputs[..], len);
      if e.Some? { return Err(e.value); }
      e := CheckIndices(m, idx, erased);
      if e.Some? { return Err(e.value); }
      ChecksAreExact(cfg, len, idx, sources, erased, outputs[..]);

      r := RebuildInto(len, idx, sources, erased, outputs);
    }

    /** Invert the survivor rows, compose the decode rows and run the kernel. */
    method RebuildInto(len: nat, idx: seq<nat>, sources: seq<seq<byte>>, erased: seq<nat>, outputs: array<seq<byte>>)
      returns (r: Result<(), EcError>)
      requires Valid() && WellFormedCall(cfg, len, idx, sources, erased, outputs[..])
      modifies outputs
      ensures r == Ok(())
      ensures AllLen(outputs[..], len) && Rebuilds(cfg, len, idx, sources, erased, outputs[..])
    {
      hide Rebuilds, DecodeRow, Combine, IsGenerator, GenRow, Gf, LeftInverse;
      var b := SourceMatrix(idx);
      GfIsField();
      var inverse := Invert(Gf(), Rows(b));
      if inverse.None? {
        NeverSingular(cfg, idx);
        return Err(Singular);
      }
      LeftInverseShape(cfg, idx, inverse.value);
      var d := DecodeMatrix(inverse.value, erased);
      var rows := Rows(d);
      RunKernel(rows, sources, len, outputs);
      CombinedRebuild(cfg, len, idx, inverse.value, sources, erased, outputs[..]);
      return Ok(());
    }
  }

  /** The GF kernel: every output buffer becomes its row's combination of the sources. */
  method RunKernel(rows: seq<seq<byte>>, sources: seq<seq<byte>>, len: nat, outputs: array<seq<byte>>)
    requires outputs.Length == |rows| && AllLen(sources, len)
    requires forall i :: 0 <= i < |rows| ==> |rows[i]| == |sources|
    modifies outputs
    ensures forall i :: 0 <= i < |rows| ==> outputs[i] == Combine(rows[i], sources, len)
  {
    for i := 0 to |rows|
      invariant forall j :: 0 <= j < i ==> outputs[j] == Combine(rows[j], sources, len)
    {
      outputs[i] := Combine(rows[i], sources, len);
    }
  }

  /** The matrix of k distinct survivor rows has no non-zero kernel vector. */
  lemma NeverSingular(cfg: EcConfig, idx: seq<nat>)
    requires ValidConfig(cfg) && |idx| == cfg.data && Distinct(idx)
    requires forall i :: 0 <= i < |idx| ==> idx[i] < cfg.Total()
    ensures !exists v: seq<byte> ::
      |v| == |SourceRows(cfg, idx)| && Solves(Gf(), SourceRows(cfg, idx), v) && !IsZeroVec(Gf(), v)
  {
    forall v: seq<byte> | |v| == cfg.data && Solves(Gf(), SourceRows(cfg, idx), v)
      ensures IsZeroVec(Gf(), v)
    {
      SourceRowsInvertible(cfg, idx, v);
    }
  }

  /** The rows below the identity are those of the parity shards. */
  lemma ParityRows(m: array2<byte>, cfg: EcConfig)
    requires ValidConfig(cfg) && IsGenerator(m, cfg)
    ensures |Rows(m)| == cfg.Total()
    ensures forall i :: 0 <= i < cfg.parity ==> Rows(m)[cfg.data..][i] == GenRow(cfg, cfg.data + i)
  {
    hide GenRow;
    forall r | 0 <= r < cfg.Total() ensures Rows(m)[r] == GenRow(cfg, r) {}
  }

  class Encoder {
    const cfg: EcConfig
    const encodeMatrix: array2<byte>

    ghost predicate Valid()
      reads this, encodeMatrix
    {
      ValidConfig(cfg) && IsGenerator(encodeMatrix, cfg)
    }

    constructor (cfg: EcConfig, encodeMatrix: array2<byte>)
      requires ValidConfig(cfg) && IsGenerator(encodeMatrix, cfg)
      ensures Valid() && this.cfg == cfg && this.encodeMatrix == encodeMatrix
    {
      this.cfg := cfg;
      this.encodeMatrix := encodeMatrix;
    }

    /** Compute the p parity buffers of a stripe. */
    method Encode(len: nat, data: seq<seq<byte>>, parity: array<seq<byte>>) returns (r: Result<(), EcError>)
      requires Valid()
      modifies parity
      ensures Valid()
      ensures r == if |data| != cfg.data then Err(BufferCount(cfg.data, |data|))
                   else if parity.Length != cfg.parity then Err(BufferCount(cfg.parity, parity.Length))
                   else match OrElse(LenError(data, len), LenError(old(parity[..]), len))
                        case Some(e) => Err(e)
                        case None => Ok(())
      ensures r.Err? ==> parity[..] == old(parity[..])
      ensures r.Ok? ==> AllLen(data, len)
      ensures r.Ok? ==> forall i :: 0 <= i < cfg.parity ==> parity[i] == Shard(cfg, len, data, cfg.data + i)
    {
      hide GenRow, Combine, IsGenerator, LenError;
      if |data| != cfg.data {
        return Err(BufferCount(cfg.data, |data|));
      }
      if parity.Length != cfg.parity {
        return Err(BufferCount(cfg.parity, parity.Length));
      }
      var e := CheckLens(data, len);
      if e.Some? { return Err(e.value); }
      LenErrorMeans(data, len);
      e := CheckLens(parity[..], len);
      if e.Some? { return Err(e.value); }
      ParityRows(encodeMatrix, cfg);
      var rows := Rows(encodeMatrix)[cfg.data..];
      RunKernel(rows, data, len, parity);
      return Ok(());
    }
  }
}
