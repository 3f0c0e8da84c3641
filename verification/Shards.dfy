/** What an object's shards hold, and what recovering it from some of them means. */
module Shards {
  import opened Wrappers
  import opened ReedSolomon
  import opened Layout

  /** The bytes of cell (shard i, stripe s). */
  function Cell(p: Profile, obj: seq<byte>, i: nat, s: nat): (c: seq<byte>)
    ensures |c| == CellLen(p, |obj|, i, s) <= p.chunkSize
  {
    var lo, hi := Min(|obj|, CellOff(p, i, s)), Min(|obj|, CellOff(p, i, s) + p.chunkSize);
    obj[lo..hi]
  }

  function Pad(c: nat, cell: seq<byte>): (r: seq<byte>)
    requires |cell| <= c
    ensures |r| == c && r[..|cell|] == cell
  {
    cell + seq(c - |cell|, _ => 0)
  }

  /** The k zero-padded data cells of stripe s. */
  function PaddedCells(p: Profile, obj: seq<byte>, s: nat): (cells: seq<seq<byte>>)
    ensures |cells| == p.data
    ensures forall i :: 0 <= i < |cells| ==> |cells[i]| == p.chunkSize
  {
    seq(p.data, i requires 0 <= i < p.data => Pad(p.chunkSize, Cell(p, obj, i, s)))
  }

  /** Data shard i after its first s cells. */
  function DataPrefix(p: Profile, obj: seq<byte>, i: nat, s: nat): (r: seq<byte>)
    ensures |r| == PrefixLen(p, |obj|, i, s)
  {
    if s == 0 then [] else DataPrefix(p, obj, i, s - 1) + Cell(p, obj, i, s - 1)
  }

  /** Parity shard r (k <= r < k+p) after its first s cells. */
  ghost function ParityPrefix(p: Profile, obj: seq<byte>, r: nat, s: nat): (out: seq<byte>)
    requires ValidConfig(p.Config()) && p.data <= r < p.Total()
    ensures |out| == Times(s, p.chunkSize)
  {
    if s == 0 then []
    else
      ParityPrefix(p, obj, r, s - 1) + Shard(p.Config(), p.chunkSize, PaddedCells(p, obj, s - 1), r)
  }

  /** Shard idx of the object, as stored. */
  ghost function StoredShard(p: Profile, obj: seq<byte>, idx: nat): seq<byte>
    requires p.Layable() && ValidConfig(p.Config()) && idx < p.Total()
  {
    if idx < p.data then DataPrefix(p, obj, idx, NumStripes(p, |obj|))
    else ParityPrefix(p, obj, idx, NumStripes(p, |obj|))
  }

  /** The closed-form length is the length of every stored shard. */
  lemma StoredShardLen(p: Profile, obj: seq<byte>, idx: nat)
    requires p.Layable() && ValidConfig(p.Config()) && idx < p.Total()
    requires |obj| <= USIZE_MAX && Times(NumStripes(p, |obj|), p.chunkSize) <= USIZE_MAX
    ensures |StoredShard(p, obj, idx)| == ExpectedShardLen(p, |obj|, idx)
  {
    if idx < p.data {
      DataLenClosedForm(p, |obj|, idx);
    }
  }

  // ---- the cell a shard contributes to a stripe ----

  lemma {:induction false} PrefixMono(p: Profile, len: nat, i: nat, s: nat, t: nat)
    requires s <= t
    ensures PrefixLen(p, len, i, s) <= PrefixLen(p, len, i, t)
    decreases t
  {
    if s < t { PrefixMono(p, len, i, s, t - 1); }
  }

  lemma {:induction false} CellInDataShard(p: Profile, obj: seq<byte>, i: nat, s: nat, t: nat)
    requires s < t
    ensures PrefixLen(p, |obj|, i, s) + CellLen(p, |obj|, i, s) <= PrefixLen(p, |obj|, i, t)
    ensures var off := PrefixLen(p, |obj|, i, s);
      DataPrefix(p, obj, i, t)[off..off + CellLen(p, |obj|, i, s)] == Cell(p, obj, i, s)
    decreases t
  {
    hide CellLen;
    if s < t - 1 {
      CellInDataShard(p, obj, i, s, t - 1);
    }
  }

  lemma {:induction false} CellInParityShard(p: Profile, obj: seq<byte>, r: nat, s: nat, t: nat)
    requires ValidConfig(p.Config()) && p.data <= r < p.Total() && s < t
    ensures Times(s, p.chunkSize) + p.chunkSize <= Times(t, p.chunkSize)
    ensures ParityPrefix(p, obj, r, t)[Times(s, p.chunkSize)..Times(s, p.chunkSize) + p.chunkSize]
         == Shard(p.Config(), p.chunkSize, PaddedCells(p, obj, s), r)
    decreases t
  {
    hide Shard;
    if s < t - 1 {
      CellInParityShard(p, obj, r, s, t - 1);
    }
  }

  /** Cell s of shard idx, zero-padded: the slice the decoder feeds to the stripe decoder. */
  function PaddedCell(p: Profile, len: nat, stripes: nat, idx: nat, s: nat, shard: seq<byte>): (cell: seq<byte>)
    requires s < stripes
    requires idx < p.data ==> |shard| == PrefixLen(p, len, idx, stripes)
    requires idx >= p.data ==> |shard| == Times(stripes, p.chunkSize)
    ensures |cell| == p.chunkSize
  {
    if idx < p.data then
      var off, cl := PrefixLen(p, len, idx, s), CellLen(p, len, idx, s);
      PrefixMono(p, len, idx, s + 1, stripes);
      Pad(p.chunkSize, shard[off..off + cl])
    else
      var start := Times(s, p.chunkSize);
      TimesMono(s + 1, stripes, p.chunkSize);
      shard[start..start + p.chunkSize]
  }

  /** On a true shard, that cell is the shard the stripe encoder produced for stripe s. */
  lemma PaddedCellIsStripeShard(p: Profile, obj: seq<byte>, idx: nat, s: nat)
    requires p.Layable() && ValidConfig(p.Config()) && idx < p.Total() && s < NumStripes(p, |obj|)
    ensures PaddedCell(p, |obj|, NumStripes(p, |obj|), idx, s, StoredShard(p, obj, idx))
         == Shard(p.Config(), p.chunkSize, PaddedCells(p, obj, s), idx)
  {
    hide Shard, ParityPrefix, DataPrefix, NumStripes, CellLen, PrefixLen, Times, Cell, Pad;
    if idx < p.data {
      CellInDataShard(p, obj, idx, s, NumStripes(p, |obj|));
      DataShardVerbatim(p.Config(), p.chunkSize, PaddedCells(p, obj, s), idx);
    } else {
      CellInParityShard(p, obj, idx, s, NumStripes(p, |obj|));
    }
  }

  // ---- reassembly ----

  /** Everything reassembled before cell (i, s). */
  function Assembled(p: Profile, len: nat, stripes: nat, bufs: seq<seq<byte>>, i: nat, s: nat): (out: seq<byte>)
    requires |bufs| == p.data && i <= p.data
    requires forall j :: 0 <= j < |bufs| ==> |bufs[j]| == PrefixLen(p, len, j, stripes)
    requires s <= stripes && (s == stripes ==> i == 0)
    decreases s, i
  {
    if i > 0 then
      PrefixMono(p, len, i - 1, s + 1, stripes);
      var off := PrefixLen(p, len, i - 1, s);
      Assembled(p, len, stripes, bufs, i - 1, s) + bufs[i - 1][off..off + CellLen(p, len, i - 1, s)]
    else if s > 0 then Assembled(p, len, stripes, bufs, p.data, s - 1)
    else []
  }

  lemma NextCell(p: Profile, obj: seq<byte>, i: nat, s: nat)
    ensures obj[..Min(|obj|, CellOff(p, i, s))] +
      Cell(p, obj, i, s) == obj[..Min(|obj|, CellOff(p, i, s) + p.chunkSize)]
  {
    hide CellOff;
  }

  /** Reassembling an object's data shards yields the object, cell by cell. */
  lemma {:induction false} AssembledIsObject(p: Profile, obj: seq<byte>, stripes: nat,
      bufs: seq<seq<byte>>, i: nat, s: nat)
    requires |bufs| == p.data && i <= p.data
    requires forall j :: 0 <= j < |bufs| ==> |bufs[j]| == PrefixLen(p, |obj|, j, stripes)
    requires forall j :: 0 <= j < |bufs| ==> bufs[j] == DataPrefix(p, obj, j, stripes)
    requires s <= stripes && (s == stripes ==> i == 0)
    ensures Assembled(p, |obj|, stripes, bufs, i, s) == obj[..Min(|obj|, CellOff(p, i, s))]
    decreases s, i
  {
    hide CellOff, CellLen, Cell, PrefixLen, DataPrefix;
    if i > 0 {
      AssembledIsObject(p, obj, stripes, bufs, i - 1, s);
      CellInDataShard(p, obj, i - 1, s, stripes);
      CellsAbut(p, i - 1, s);
      NextCell(p, obj, i - 1, s);
    } else if s > 0 {
      AssembledIsObject(p, obj, stripes, bufs, p.data, s - 1);
      CellsAbut(p, 0, s - 1);
    } else {
      CellsAbut(p, 0, 0);
    }
  }
}
