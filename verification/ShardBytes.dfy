/** The shards of an object, byte by byte, from the object alone: crates/ozone-ec/src/stripe.rs. */
module ShardBytes {
  import opened Wrappers
  import opened Linear
  import opened GfOps
  import opened ReedSolomon
  import opened Layout
  import opened Shards

  /** Where byte b of cell (shard i, stripe s) stands in the object. */
  function Position(p: Profile, i: nat, s: nat, b: nat): nat {
    s * (p.data * p.chunkSize) + i * p.chunkSize + b
  }

  /** Where byte b of cell s stands in a shard. */
  function InShard(p: Profile, s: nat, b: nat): nat {
    s * p.chunkSize + b
  }

  /** Byte o of the object followed by zero bytes without end. */
  function Extended(obj: seq<byte>, o: nat): byte {
    if o < |obj| then obj[o] else 0
  }

  /** Byte b of the k data cells of stripe s. */
  function StripeColumn(p: Profile, obj: seq<byte>, s: nat, b: nat): (c: seq<byte>)
    ensures |c| == p.data
  {
    seq(p.data, i requires 0 <= i < p.data => Extended(obj, Position(p, i, s, b)))
  }

  lemma PositionIs(p: Profile, i: nat, s: nat, b: nat)
    ensures Position(p, i, s, b) == CellOff(p, i, s) + b
  {
    TimesIsProduct(p.data, p.chunkSize);
    TimesIsProduct(s, p.StripeSize());
    TimesIsProduct(i, p.chunkSize);
  }

  lemma InShardIs(p: Profile, s: nat, b: nat)
    ensures InShard(p, s, b) == Times(s, p.chunkSize) + b
  {
    TimesIsProduct(s, p.chunkSize);
  }

  /** The encoder is given the object's own bytes, and zero past its end. */
  lemma EncoderByte(p: Profile, obj: seq<byte>, i: nat, s: nat, b: nat)
    requires i < p.data && b < p.chunkSize
    ensures var o := Position(p, i, s, b);
      && o == s * (p.data * p.chunkSize) + i * p.chunkSize + b
      && PaddedCells(p, obj, s)[i][b] == if o < |obj| then obj[o] else 0
  {
    PositionIs(p, i, s, b);
    assert Position(p, i, s, b) == s * (p.data * p.chunkSize) + i * p.chunkSize + b;
    hide CellOff, Position;
    var off := CellOff(p, i, s);
    var cell := Cell(p, obj, i, s);
    if off + b < |obj| {
      assert cell == obj[off..off + |cell|];
      assert Pad(p.chunkSize, cell)[b] == cell[b];
    }
  }

  lemma EncoderColumn(p: Profile, obj: seq<byte>, s: nat, b: nat)
    requires b < p.chunkSize
    ensures Column(PaddedCells(p, obj, s), b) == StripeColumn(p, obj, s, b)
  {
    forall i | 0 <= i < p.data ensures PaddedCells(p, obj, s)[i][b] == Extended(obj, Position(p, i, s, b)) {
      EncoderByte(p, obj, i, s, b);
    }
  }

  /** A data shard stops growing where its cells pass the end of the object. */
  lemma {:induction false} PrefixStops(p: Profile, len: nat, i: nat, s: nat, b: nat, t: nat)
    requires p.Layable() && i < p.data && b < p.chunkSize && len <= CellOff(p, i, s) + b
    ensures PrefixLen(p, len, i, t) <= Times(s, p.chunkSize) + b
    decreases t
  {
    hide CellOff, Times;
    if t > 0 {
      PrefixStops(p, len, i, s, b, t - 1);
      if t <= s {
        PrefixAtMost(p, len, i, t);
        TimesMono(t, s, p.chunkSize);
      } else if t == s + 1 {
        PrefixAtMost(p, len, i, s);
      } else {
        LaterCell(p, i, s, t - 1);
      }
    }
  }

  lemma {:induction false} PrefixAtMost(p: Profile, len: nat, i: nat, t: nat)
    ensures PrefixLen(p, len, i, t) <= Times(t, p.chunkSize)
  {
    hide CellOff;
    if t > 0 { PrefixAtMost(p, len, i, t - 1); }
  }

  lemma LaterCell(p: Profile, i: nat, s: nat, t: nat)
    requires p.Layable() && s < t
    ensures CellOff(p, i, s) + p.chunkSize <= CellOff(p, i, t)
  {
    TimesMono(s + 1, t, p.StripeSize());
    TimesMono(1, p.data, p.chunkSize);
    assert Times(1, p.chunkSize) == p.chunkSize;
    assert Times(s + 1, p.StripeSize()) == Times(s, p.StripeSize()) + p.StripeSize();
  }

  /** A byte of the object lies in one of its stripes. */
  lemma StripeInRange(p: Profile, len: nat, i: nat, s: nat)
    requires p.Layable() && i < p.data && CellOff(p, i, s) < len
    ensures s < NumStripes(p, len) && Times(s, p.StripeSize()) <= len
  {
    AllStripesCover(p, len);
    var n := NumStripes(p, len);
    hide NumStripes, Profile.StripeSize;
    if n <= s { TimesMono(n, s, p.StripeSize()); }
  }

  /**
   * Data shard i holds, at byte b of its cell s, the byte of the object at that position,
   * and has such a byte exactly when the object does.
   */
  lemma DataShardByte(p: Profile, obj: seq<byte>, i: nat, s: nat, b: nat)
    requires p.Layable() && ValidConfig(p.Config()) && i < p.data && b < p.chunkSize
    ensures InShard(p, s, b) < |StoredShard(p, obj, i)| <==> Position(p, i, s, b) < |obj|
    ensures Position(p, i, s, b) < |obj| ==> StoredShard(p, obj, i)[InShard(p, s, b)] == obj[Position(p, i, s, b)]
  {
    PositionIs(p, i, s, b);
    InShardIs(p, s, b);
    hide CellOff, Position, Times, NumStripes, InShard;
    var n := NumStripes(p, |obj|);
    var o := CellOff(p, i, s);
    if o + b < |obj| {
      StripeInRange(p, |obj|, i, s);
      FullPrefix(p, |obj|, i, s);
      CellInDataShard(p, obj, i, s, n);
      assert Cell(p, obj, i, s)[b] == obj[o + b];
      assert b < CellLen(p, |obj|, i, s);
    } else {
      PrefixStops(p, |obj|, i, s, b, n);
    }
  }

  /**
   * Parity shard r holds, at byte b of its cell s, generator row r times the stripe's column
   * of object bytes, zero past the object's end.
   */
  lemma ParityShardByte(p: Profile, obj: seq<byte>, r: nat, s: nat, b: nat)
    requires p.Layable() && ValidConfig(p.Config()) && p.data <= r < p.Total() && b < p.chunkSize
    ensures |StoredShard(p, obj, r)| == InShard(p, NumStripes(p, |obj|), 0)
    ensures s < NumStripes(p, |obj|) ==>
      && InShard(p, s, b) < |StoredShard(p, obj, r)|
      && StoredShard(p, obj, r)[InShard(p, s, b)] == Dot(Gf(), GenRow(p.Config(), r), StripeColumn(p, obj, s, b))
  {
    hide Times, NumStripes, StripeColumn, PaddedCells, Gf, Dot, GenRow, InShard;
    var n := NumStripes(p, |obj|);
    InShardIs(p, n, 0);
    InShardIs(p, s, b);
    if s < n {
      CellInParityShard(p, obj, r, s, n);
      EncoderColumn(p, obj, s, b);
    }
  }

  /** The stripes are as many as it takes to hold the object. */
  lemma StripeCount(p: Profile, len: nat)
    requires p.Layable()
    ensures len <= NumStripes(p, len) * (p.data * p.chunkSize) < len + p.data * p.chunkSize
  {
    AllStripesCover(p, len);
    TimesIsProduct(p.data, p.chunkSize);
    TimesIsProduct(NumStripes(p, len), p.StripeSize());
  }

  /** The cell a decoder cuts out of a data shard for stripe s starts at s * c, if it is not empty. */
  lemma DataCellStart(p: Profile, len: nat, stripes: nat, idx: nat, s: nat, b: nat)
    requires s < stripes && idx < p.data && b < p.chunkSize
    ensures PrefixLen(p, len, idx, s) + CellLen(p, len, idx, s) <= PrefixLen(p, len, idx, stripes)
    ensures b < CellLen(p, len, idx, s) ==> PrefixLen(p, len, idx, s) == Times(s, p.chunkSize)
    ensures b >= CellLen(p, len, idx, s) ==> PrefixLen(p, len, idx, stripes) <= Times(s, p.chunkSize) + b
  {
    hide Times, CellOff, NumStripes, Profile.StripeSize;
    PrefixMono(p, len, idx, s + 1, stripes);
    if b < CellLen(p, len, idx, s) {
      StripeInRange(p, len, idx, s);
      FullPrefix(p, len, idx, s);
    } else {
      PrefixStops(p, len, idx, s, b, stripes);
    }
  }

  /** That cell is the shard's bytes from s * c on, zero past its end. */
  lemma CutByte(p: Profile, len: nat, stripes: nat, idx: nat, s: nat, shard: seq<byte>, b: nat)
    requires s < stripes && b < p.chunkSize
    requires idx < p.data ==> |shard| == PrefixLen(p, len, idx, stripes)
    requires idx >= p.data ==> |shard| == Times(stripes, p.chunkSize)
    ensures var q := InShard(p, s, b);
      PaddedCell(p, len, stripes, idx, s, shard)[b] == if q < |shard| then shard[q] else 0
  {
    InShardIs(p, s, b);
    hide CellLen, PrefixLen, CellOff, NumStripes, InShard;
    if idx < p.data {
      DataCellStart(p, len, stripes, idx, s, b);
    } else {
      TimesMono(s + 1, stripes, p.chunkSize);
      assert Times(s + 1, p.chunkSize) == Times(s, p.chunkSize) + p.chunkSize;
    }
  }

  /** The cell is c bytes of the shard from s * c on, zero past its end. */
  ghost predicate CutAt(p: Profile, s: nat, shard: seq<byte>, cell: seq<byte>) {
    && |cell| == p.chunkSize
    && forall b :: 0 <= b < p.chunkSize ==>
         var q := InShard(p, s, b);
         cell[b] == if q < |shard| then shard[q] else 0
  }

  lemma PaddedCellIsCut(p: Profile, len: nat, stripes: nat, idx: nat, s: nat, shard: seq<byte>)
    requires s < stripes
    requires idx < p.data ==> |shard| == PrefixLen(p, len, idx, stripes)
    requires idx >= p.data ==> |shard| == Times(stripes, p.chunkSize)
    ensures CutAt(p, s, shard, PaddedCell(p, len, stripes, idx, s, shard))
  {
    hide PaddedCell, InShard;
    forall b | 0 <= b < p.chunkSize
      ensures var q := InShard(p, s, b);
        PaddedCell(p, len, stripes, idx, s, shard)[b] == if q < |shard| then shard[q] else 0
    {
      CutByte(p, len, stripes, idx, s, shard, b);
    }
  }

  /** Byte b of cell s of data shard i: the object's byte at that position, there exactly if the object has it. */
  ghost predicate DataByteAt(p: Profile, obj: seq<byte>, shard: seq<byte>, i: nat, s: nat, b: nat) {
    var o, q := Position(p, i, s, b), InShard(p, s, b);
    (q < |shard| <==> o < |obj|) && (o < |obj| ==> shard[q] == obj[o])
  }

  /** Byte b of cell s of parity shard j: its generator row times the zero-extended object's column there. */
  ghost predicate ParityByteAt(p: Profile, obj: seq<byte>, shard: seq<byte>, j: nat, s: nat, b: nat)
    requires p.Layable() && ValidConfig(p.Config()) && j < p.parity
  {
    var q := InShard(p, s, b);
    q < |shard| && shard[q] == Dot(Gf(), GenRow(p.Config(), p.data + j), StripeColumn(p, obj, s, b))
  }

  /** The data shards hold the object's bytes where the layout puts them, and no other byte. */
  ghost predicate HoldsData(p: Profile, obj: seq<byte>, data: seq<seq<byte>>) {
    && |data| == p.data
    && forall i: nat, s: nat, b: nat :: i < p.data && b < p.chunkSize ==> DataByteAt(p, obj, data[i], i, s, b)
  }

  /** The parity shards hold the generator rows times the zero-extended object, stripe by stripe. */
  ghost predicate HoldsParity(p: Profile, obj: seq<byte>, parity: seq<seq<byte>>)
    requires p.Layable() && ValidConfig(p.Config())
  {
    && |parity| == p.parity
    && (forall j :: 0 <= j < p.parity ==> |parity[j]| == InShard(p, NumStripes(p, |obj|), 0))
    && forall j: nat, s: nat, b: nat :: j < p.parity && s < NumStripes(p, |obj|) && b < p.chunkSize ==>
         ParityByteAt(p, obj, parity[j], j, s, b)
  }

  lemma StoredHoldsData(p: Profile, obj: seq<byte>, data: seq<seq<byte>>)
    requires p.Layable() && ValidConfig(p.Config()) && |data| == p.data
    requires forall i :: 0 <= i < p.data ==> data[i] == StoredShard(p, obj, i)
    ensures HoldsData(p, obj, data)
  {
    hide StoredShard, DataByteAt;
    forall i: nat, s: nat, b: nat | i < p.data && b < p.chunkSize ensures DataByteAt(p, obj, data[i], i, s, b) {
      DataByteIs(p, obj, i, s, b);
    }
  }

  lemma DataByteIs(p: Profile, obj: seq<byte>, i: nat, s: nat, b: nat)
    requires p.Layable() && ValidConfig(p.Config()) && i < p.data && b < p.chunkSize
    ensures DataByteAt(p, obj, StoredShard(p, obj, i), i, s, b)
  {
    hide StoredShard, Position, InShard;
    DataShardByte(p, obj, i, s, b);
  }

  lemma StoredHoldsParity(p: Profile, obj: seq<byte>, parity: seq<seq<byte>>)
    requires p.Layable() && ValidConfig(p.Config()) && |parity| == p.parity
    requires forall j :: 0 <= j < p.parity ==> parity[j] == StoredShard(p, obj, p.data + j)
    ensures HoldsParity(p, obj, parity)
  {
    hide StoredShard, NumStripes, ParityByteAt, InShard;
    forall j: nat | j < p.parity ensures |parity[j]| == InShard(p, NumStripes(p, |obj|), 0) {
      ParityShardByte(p, obj, p.data + j, 0, 0);
    }
    forall j: nat, s: nat, b: nat | j < p.parity && s < NumStripes(p, |obj|) && b < p.chunkSize
      ensures ParityByteAt(p, obj, parity[j], j, s, b)
    {
      ParityByteIs(p, obj, j, s, b);
    }
  }

  lemma ParityByteIs(p: Profile, obj: seq<byte>, j: nat, s: nat, b: nat)
    requires p.Layable() && ValidConfig(p.Config()) && j < p.parity
    requires s < NumStripes(p, |obj|) && b < p.chunkSize
    ensures ParityByteAt(p, obj, StoredShard(p, obj, p.data + j), j, s, b)
  {
    hide StoredShard, NumStripes, StripeColumn, Dot, GenRow, Gf, InShard;
    ParityShardByte(p, obj, p.data + j, s, b);
  }
}
