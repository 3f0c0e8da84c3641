/** Encoding an object stripe by stripe, and putting it back together: crates/ozone-ec/src/stripe.rs. */
module Stripe {
  import opened Wrappers
  import opened ReedSolomon
  import opened Coder
  import opened Layout
  import opened Shards
  import opened ShardBytes

  datatype StripeError =
    | Inner(inner: EcError)
    | NotEnoughShards(have: nat, need: nat)
    | ShardCount(expected: nat, got: nat)
    | InvalidProfile(data: nat, chunkSize: nat)

  datatype EncodedShards = EncodedShards(data: seq<seq<byte>>, parity: seq<seq<byte>>)

  // ---- encoding ----

  method NewEncoder(p: Profile) returns (r: Result<Encoder, StripeError>)
    ensures r.Err? <==> !ValidConfig(p.Config())
    ensures r.Err? ==> r.error == Inner(InvalidConfig(p.data, p.parity))
    ensures r.Ok? ==> r.value.Valid() && r.value.cfg == p.Config() && fresh(r.value) && fresh(r.value.encodeMatrix)
  {
    var v := ValidateCfg(p.Config());
    if v.Err? {
      return Err(Inner(v.error));
    }
    var m := BuildEncodeMatrix(p.Config());
    var e := new Encoder(p.Config(), m);
    return Ok(e);
  }

  /** Append stripe s's cells to the data shards and return them zero-padded. */
  method DealStripe(p: Profile, obj: seq<byte>, s: nat, dataShards: array<seq<byte>>) returns (cells: seq<seq<byte>>)
    requires dataShards.Length == p.data
    requires forall i :: 0 <= i < p.data ==> dataShards[i] == DataPrefix(p, obj, i, s)
    modifies dataShards
    ensures cells == PaddedCells(p, obj, s)
    ensures forall i :: 0 <= i < p.data ==> dataShards[i] == DataPrefix(p, obj, i, s + 1)
  {
    hide CellOff, CellLen, Cell, DataPrefix, PrefixLen, Pad;
    cells := [];
    var len, c := |obj|, p.chunkSize;
    for i := 0 to p.data
      invariant |cells| == i
      invariant forall j :: 0 <= j < i ==> cells[j] == Pad(c, Cell(p, obj, j, s))
      invariant forall j :: 0 <= j < i ==> dataShards[j] == DataPrefix(p, obj, j, s + 1)
      invariant forall j :: i <= j < p.data ==> dataShards[j] == DataPrefix(p, obj, j, s)
    {
      var off := CellOff(p, i, s);
      var cl := CellLen(p, len, i, s);
      var cell := Zeros(c);
      CellIs(p, obj, i, s);
      if cl > 0 {
        cell := obj[off..off + cl] + cell[cl..];
        dataShards[i] := dataShards[i] + obj[off..off + cl];
      }
      PadIs(c, Cell(p, obj, i, s));
      cells := cells + [cell];
    }
  }

  function Zeros(c: nat): (z: seq<byte>)
    ensures |z| == c
  {
    seq(c, _ => 0)
  }

  lemma PadIs(c: nat, cell: seq<byte>)
    requires |cell| <= c
    ensures Pad(c, cell) == cell + Zeros(c)[|cell|..]
    ensures Pad(c, []) == Zeros(c)
  {}

  lemma CellIs(p: Profile, obj: seq<byte>, i: nat, s: nat)
    ensures var off, cl := CellOff(p, i, s), CellLen(p, |obj|, i, s);
      && (cl > 0 ==> off + cl <= |obj| && Cell(p, obj, i, s) == obj[off..off + cl])
      && (cl == 0 ==> Cell(p, obj, i, s) == [])
      && |Cell(p, obj, i, s)| == cl <= p.chunkSize
    ensures DataPrefix(p, obj, i, s + 1) == DataPrefix(p, obj, i, s) + Cell(p, obj, i, s)
  {
    hide CellOff;
  }

  /** Encode an object into k truncated data shards and p full-width parity shards. */
  method EncodeObject(p: Profile, obj: seq<byte>) returns (r: Result<EncodedShards, StripeError>)
    ensures !p.Layable() ==> r == Err(InvalidProfile(p.data, p.chunkSize))
    ensures p.Layable() && !ValidConfig(p.Config()) ==> r == Err(Inner(InvalidConfig(p.data, p.parity)))
    ensures p.Layable() && ValidConfig(p.Config()) ==>
      && r.Ok? && |r.value.data| == p.data && |r.value.parity| == p.parity
      && (forall i :: 0 <= i < p.data ==> r.value.data[i] == StoredShard(p, obj, i))
      && (forall j :: 0 <= j < p.parity ==> r.value.parity[j] == StoredShard(p, obj, p.data + j))
      && HoldsData(p, obj, r.value.data) && HoldsParity(p, obj, r.value.parity)
  {
    hide HoldsData, HoldsParity, StoredShard, ValidConfig;
    if p.data == 0 || p.chunkSize == 0 {
      return Err(InvalidProfile(p.data, p.chunkSize));
    }
    var e := NewEncoder(p);
    if e.Err? {
      return Err(e.error);
    }
    var shards := EncodeStripes(p, e.value, obj);
    StoredHoldsData(p, obj, shards.data);
    StoredHoldsParity(p, obj, shards.parity);
    return Ok(shards);
  }

  /** Deal and encode the object, stripe by stripe. */
  method EncodeStripes(p: Profile, enc: Encoder, obj: seq<byte>) returns (shards: EncodedShards)
    requires p.Layable() && ValidConfig(p.Config()) && enc.Valid() && enc.cfg == p.Config()
    ensures |shards.data| == p.data && |shards.parity| == p.parity
    ensures forall i :: 0 <= i < p.data ==> shards.data[i] == StoredShard(p, obj, i)
    ensures forall j :: 0 <= j < p.parity ==> shards.parity[j] == StoredShard(p, obj, p.data + j)
  {
    hide NumStripes, DataPrefix, ParityPrefix, ValidConfig;
    var stripes := NumStripes(p, |obj|);
    var dataShards := new seq<byte>[p.data](_ => []);
    var parityShards := new seq<byte>[p.parity](_ => []);
    PrefixesStart(p, obj);
    for s := 0 to stripes
      invariant enc.Valid()
      invariant forall i :: 0 <= i < p.data ==> dataShards[i] == DataPrefix(p, obj, i, s)
      invariant forall j :: 0 <= j < p.parity ==> parityShards[j] == ParityPrefix(p, obj, p.data + j, s)
    {
      var cells := DealStripe(p, obj, s, dataShards);
      EncodeStripe(p, enc, obj, s, cells, parityShards);
    }
    return EncodedShards(dataShards[..], parityShards[..]);
  }

  lemma PrefixesStart(p: Profile, obj: seq<byte>)
    requires ValidConfig(p.Config())
    ensures forall i :: 0 <= i < p.data ==> DataPrefix(p, obj, i, 0) == []
    ensures forall r :: p.data <= r < p.Total() ==> ParityPrefix(p, obj, r, 0) == []
  {}

  /** Append stripe s's parity cells to the parity shards. */
  method EncodeStripe(p: Profile, enc: Encoder, obj: seq<byte>, s: nat, cells: seq<seq<byte>>,
      parityShards: array<seq<byte>>)
    requires enc.Valid() && enc.cfg == p.Config() && parityShards.Length == p.parity
    requires cells == PaddedCells(p, obj, s)
    requires forall j :: 0 <= j < p.parity ==> parityShards[j] == ParityPrefix(p, obj, p.data + j, s)
    modifies parityShards
    ensures enc.Valid()
    ensures forall j :: 0 <= j < p.parity ==> parityShards[j] == ParityPrefix(p, obj, p.data + j, s + 1)
  {
    hide Shard, PaddedCells, IsGenerator, ParityPrefix;
    var zeros := Zeros(p.chunkSize);
    var par := new seq<byte>[p.parity](_ => zeros);
    LenErrorMeans(cells, p.chunkSize);
    LenErrorMeans(par[..], p.chunkSize);
    var er := enc.Encode(p.chunkSize, cells, par);
    var cs := par[..];
    for j := 0 to p.parity
      invariant forall i :: 0 <= i < j ==> parityShards[i] == ParityPrefix(p, obj, p.data + i, s + 1)
      invariant forall i :: j <= i < p.parity ==> parityShards[i] == ParityPrefix(p, obj, p.data + i, s)
    {
      ParityStep(p, obj, p.data + j, s);
      parityShards[j] := parityShards[j] + cs[j];
    }
  }

  lemma ParityStep(p: Profile, obj: seq<byte>, r: nat, s: nat)
    requires ValidConfig(p.Config()) && p.data <= r < p.Total()
    ensures ParityPrefix(p, obj, r, s + 1) == ParityPrefix(p, obj, r, s) +
      Shard(p.Config(), p.chunkSize, PaddedCells(p, obj, s), r)
  {
    hide Shard;
  }

  // ---- reassembly ----

  lemma AssembledStep(p: Profile, len: nat, stripes: nat, bufs: seq<seq<byte>>, i: nat, s: nat)
    requires |bufs| == p.data && i < p.data && s < stripes
    requires forall j :: 0 <= j < |bufs| ==> |bufs[j]| == PrefixLen(p, len, j, stripes)
    ensures var off, cl := PrefixLen(p, len, i, s), CellLen(p, len, i, s);
      && off + cl == PrefixLen(p, len, i, s + 1) <= |bufs[i]|
      && Assembled(p, len, stripes, bufs, i + 1, s) == Assembled(p, len, stripes, bufs, i, s) + bufs[i][off..off + cl]
  {
    PrefixMono(p, len, i, s + 1, stripes);
    hide CellLen;
  }

  lemma AssembledNone(p: Profile, len: nat, stripes: nat, bufs: seq<seq<byte>>)
    requires |bufs| == p.data
    requires forall j :: 0 <= j < |bufs| ==> |bufs[j]| == PrefixLen(p, len, j, stripes)
    ensures Assembled(p, len, stripes, bufs, 0, 0) == []
    ensures forall j :: 0 <= j < p.data ==> PrefixLen(p, len, j, 0) == 0
  {}

  lemma AssembledWrap(p: Profile, len: nat, stripes: nat, bufs: seq<seq<byte>>, s: nat)
    requires |bufs| == p.data && s < stripes
    requires forall j :: 0 <= j < |bufs| ==> |bufs[j]| == PrefixLen(p, len, j, stripes)
    ensures Assembled(p, len, stripes, bufs, 0, s + 1) == Assembled(p, len, stripes, bufs, p.data, s)
  {
    hide CellLen;
  }

  /** Append the cells of stripe s, advancing each shard's cursor. */
  method ReassembleStripe(p: Profile, len: nat, stripes: nat, bufs: seq<seq<byte>>, s: nat,
      cursor: array<nat>, before: seq<byte>)
    returns (out: seq<byte>)
    requires |bufs| == cursor.Length == p.data && s < stripes
    requires forall j :: 0 <= j < |bufs| ==> |bufs[j]| == PrefixLen(p, len, j, stripes)
    requires forall j :: 0 <= j < p.data ==> cursor[j] == PrefixLen(p, len, j, s)
    requires before == Assembled(p, len, stripes, bufs, 0, s)
    modifies cursor
    ensures forall j :: 0 <= j < p.data ==> cursor[j] == PrefixLen(p, len, j, s + 1)
    ensures out == Assembled(p, len, stripes, bufs, 0, s + 1)
  {
    hide CellLen, Assembled, PrefixLen;
    out := before;
    for i := 0 to p.data
      invariant forall j :: 0 <= j < i ==> cursor[j] == PrefixLen(p, len, j, s + 1)
      invariant forall j :: i <= j < p.data ==> cursor[j] == PrefixLen(p, len, j, s)
      invariant out == Assembled(p, len, stripes, bufs, i, s)
    {
      var cl := CellLen(p, len, i, s);
      AssembledStep(p, len, stripes, bufs, i, s);
      out := out + bufs[i][cursor[i]..cursor[i] + cl];
      cursor[i] := cursor[i] + cl;
    }
    AssembledWrap(p, len, stripes, bufs, s);
  }

  /** Concatenate the cells of k whole data shards in object order. */
  method Reassemble(p: Profile, len: nat, bufs: seq<seq<byte>>) returns (out: seq<byte>)
    requires p.Layable() && |bufs| == p.data
    requires forall j :: 0 <= j < |bufs| ==> |bufs[j]| == PrefixLen(p, len, j, NumStripes(p, len))
    ensures out == Assembled(p, len, NumStripes(p, len), bufs, 0, NumStripes(p, len))
  {
    hide NumStripes, Assembled, PrefixLen;
    var stripes := NumStripes(p, len);
    out := [];
    var cursor := new nat[p.data](_ => 0);
    AssembledNone(p, len, stripes, bufs);
    for s := 0 to stripes
      invariant forall j :: 0 <= j < p.data ==> cursor[j] == PrefixLen(p, len, j, s)
      invariant out == Assembled(p, len, stripes, bufs, 0, s)
    {
      out := ReassembleStripe(p, len, stripes, bufs, s, cursor, out);
    }
  }
}
