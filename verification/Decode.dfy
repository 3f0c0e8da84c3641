/** Decoding an object from whatever shards survive: crates/ozone-ec/src/stripe.rs. */
module Decode {
  import opened Wrappers
  import opened Mds
  import opened ReedSolomon
  import opened Coder
  import opened Layout
  import opened Shards
  import opened ShardBytes
  import opened Stripe

  type Slots = seq<Option<seq<byte>>>

  /** A shard whose length disagrees with the object length is dropped. */
  function Kept(p: Profile, len: nat, shards: Slots): (r: Slots)
    requires p.Layable()
    ensures |r| == |shards|
  {
    seq(|shards|, i requires 0 <= i < |shards| =>
      if shards[i].Some? && |shards[i].value| == ExpectedShardLen(p, len, i) then shards[i] else None)
  }

  /** Indices below n whose shard is present (or, with want == false, missing), ascending. */
  function Having(shards: Slots, want: bool, n: nat): (r: seq<nat>)
    requires n <= |shards|
    ensures |r| <= n
    ensures forall j :: 0 <= j < |r| ==> r[j] < n
    ensures forall j :: 0 <= j < |r| ==> shards[r[j]].Some? == want
    ensures forall i, j :: 0 <= i < j < |r| ==> r[i] < r[j]
    ensures forall x :: 0 <= x < n && shards[x].Some? == want ==> x in r
  {
    if n == 0 then []
    else
      var before := Having(shards, want, n - 1);
      if shards[n - 1].Some? == want then before + [n - 1] else before
  }

  function DecodeError(p: Profile, len: nat, shards: Slots): Option<StripeError> {
    if !p.Layable() then Some(InvalidProfile(p.data, p.chunkSize))
    else if |shards| != p.Total() then Some(ShardCount(p.Total(), |shards|))
    else KeptError(p, Kept(p, len, shards))
  }

  /** Missing data shards need k survivors and a valid configuration. */
  function KeptError(p: Profile, kept: Slots): Option<StripeError>
    requires |kept| == p.Total()
  {
    var have := |Having(kept, true, p.Total())|;
    if Having(kept, false, p.data) == [] then None
    else if have < p.data then Some(NotEnoughShards(have, p.data))
    else if !ValidConfig(p.Config()) then Some(Inner(InvalidConfig(p.data, p.parity)))
    else None
  }

  /** Shard i is there with the length its place in the object demands. */
  predicate Usable(p: Profile, len: nat, shards: Slots, i: nat)
    requires p.Layable()
  {
    i < |shards| && shards[i].Some? && |shards[i].value| == ExpectedShardLen(p, len, i)
  }

  ghost function UsableUpTo(p: Profile, len: nat, shards: Slots, n: nat): set<nat>
    requires p.Layable()
  {
    set i: nat | i < n && Usable(p, len, shards, i)
  }

  lemma {:induction false} UsableCount(p: Profile, len: nat, shards: Slots, n: nat)
    requires p.Layable() && n <= |shards|
    ensures |Having(Kept(p, len, shards), true, n)| == |UsableUpTo(p, len, shards, n)|
  {
    hide ExpectedShardLen;
    if n == 0 {
      assert UsableUpTo(p, len, shards, 0) == {};
    } else {
      UsableCount(p, len, shards, n - 1);
      var was := UsableUpTo(p, len, shards, n - 1);
      assert UsableUpTo(p, len, shards, n) == was + if Usable(p, len, shards, n - 1) then {n - 1} else {};
    }
  }

  lemma MissingData(p: Profile, len: nat, shards: Slots)
    requires p.Layable() && |shards| == p.Total()
    ensures Having(Kept(p, len, shards), false, p.data) == [] <==>
      forall i: nat :: i < p.data ==> Usable(p, len, shards, i)
  {
    hide ExpectedShardLen;
    var kept := Kept(p, len, shards);
    var missing := Having(kept, false, p.data);
    hide Having;
    if missing != [] {
      assert kept[missing[0]].None?;
      assert !Usable(p, len, shards, missing[0]);
    }
    forall i: nat | i < p.data && missing == [] ensures Usable(p, len, shards, i) {
      assert i !in missing;
    }
  }

  /**
   * Decoding fails for a profile without cells or a wrong number of slots; otherwise only if some data shard is
   * unusable, and then if fewer than k shards are usable or the code cannot be built.
   */
  lemma DecodeErrorIs(p: Profile, len: nat, shards: Slots)
    ensures var e := DecodeError(p, len, shards);
      if p.data == 0 || p.chunkSize == 0 then e == Some(InvalidProfile(p.data, p.chunkSize))
      else if |shards| != p.data + p.parity then e == Some(ShardCount(p.data + p.parity, |shards|))
      else
        var usable := UsableUpTo(p, len, shards, |shards|);
        if forall i: nat :: i < p.data ==> i in usable then e == None
        else if |usable| < p.data then e == Some(NotEnoughShards(|usable|, p.data))
        else if p.data > 32 || p.parity == 0 || p.parity > 32 then e == Some(Inner(InvalidConfig(p.data, p.parity)))
        else e == None
  {
    hide KeptError, UsableUpTo, Kept;
    if p.Layable() && |shards| == p.Total() {
      KeptErrorIs(p, len, shards);
    }
  }

  lemma KeptErrorIs(p: Profile, len: nat, shards: Slots)
    requires p.Layable() && |shards| == p.Total()
    ensures var e, usable := KeptError(p, Kept(p, len, shards)), UsableUpTo(p, len, shards, |shards|);
      if forall i: nat :: i < p.data ==> i in usable then e == None
      else if |usable| < p.data then e == Some(NotEnoughShards(|usable|, p.data))
      else if p.data > 32 || p.parity == 0 || p.parity > 32 then e == Some(Inner(InvalidConfig(p.data, p.parity)))
      else e == None
  {
    hide Having, Kept, ExpectedShardLen, Usable;
    UsableCount(p, len, shards, |shards|);
    MissingData(p, len, shards);
    AllUsable(p, len, shards);
    hide UsableUpTo;
  }

  lemma AllUsable(p: Profile, len: nat, shards: Slots)
    requires p.Layable() && |shards| == p.Total()
    ensures (forall i: nat :: i < p.data ==> i in UsableUpTo(p, len, shards, |shards|)) <==>
      forall i: nat :: i < p.data ==> Usable(p, len, shards, i)
  {
    hide Usable;
    var usable := UsableUpTo(p, len, shards, |shards|);
    forall i: nat | i < p.data ensures i in usable <==> Usable(p, len, shards, i) {}
  }

  /** Data shards alone agree with the object. */
  ghost predicate DataAgrees(p: Profile, len: nat, kept: Slots, obj: seq<byte>)
    requires p.Layable() && |kept| == p.Total()
  {
    && |obj| == len
    && forall i :: 0 <= i < p.data && kept[i].Some? ==> kept[i].value == DataPrefix(p, obj, i, NumStripes(p, len))
  }

  /** Every kept shard, parity included, is the object's own. */
  ghost predicate Candidate(p: Profile, len: nat, kept: Slots, obj: seq<byte>)
    requires p.Layable() && |kept| == p.Total()
  {
    && DataAgrees(p, len, kept, obj)
    && (ValidConfig(p.Config()) ==>
        forall i :: p.data <= i < p.Total() && kept[i].Some? ==>
          kept[i].value == ParityPrefix(p, obj, i, NumStripes(p, len)))
  }

  /** buf holds data shard i up to stripe s, whatever object the kept shards belong to. */
  ghost predicate PrefixKnown(p: Profile, len: nat, kept: Slots, buf: seq<byte>, i: nat, s: nat)
    requires p.Layable() && |kept| == p.Total()
  {
    && |buf| == PrefixLen(p, len, i, s)
    && forall obj :: Candidate(p, len, kept, obj) ==> buf == DataPrefix(p, obj, i, s)
  }

  /** Kept shards have the lengths the cell slicing assumes. */
  lemma KeptLengths(p: Profile, len: nat, shards: Slots, idx: nat)
    requires p.Layable() && |shards| == p.Total() && idx < p.Total() && len <= USIZE_MAX
    requires forall i :: 0 <= i < |shards| && shards[i].Some? ==> |shards[i].value| <= ISIZE_MAX
    requires Kept(p, len, shards)[idx].Some?
    ensures idx < p.data ==> |Kept(p, len, shards)[idx].value| == PrefixLen(p, len, idx, NumStripes(p, len))
    ensures idx >= p.data ==> |Kept(p, len, shards)[idx].value| == Times(NumStripes(p, len), p.chunkSize)
  {
    if idx < p.data { DataLenClosedForm(p, len, idx); }
    hide NumStripes, Times;
  }

  ghost predicate LengthsOk(p: Profile, len: nat, kept: Slots)
    requires p.Layable() && |kept| == p.Total()
  {
    forall i :: 0 <= i < p.Total() && kept[i].Some? ==>
      |kept[i].value| == if i < p.data then PrefixLen(p, len, i, NumStripes(p, len))
        else Times(NumStripes(p, len), p.chunkSize)
  }

  /** The stripe cells cut from the kept shards are true sources for any candidate object. */
  lemma CellsAreTrueSources(p: Profile, len: nat, kept: Slots, obj: seq<byte>, s: nat,
      idx: seq<nat>, cells: seq<seq<byte>>)
    requires p.Layable() && ValidConfig(p.Config()) && |kept| == p.Total() && LengthsOk(p, len, kept)
    requires Candidate(p, len, kept, obj) && s < NumStripes(p, len)
    requires |cells| == |idx| && forall i :: 0 <= i < |idx| ==> idx[i] < p.Total() && kept[idx[i]].Some?
    requires forall i :: 0 <= i < |idx| ==>
      cells[i] == PaddedCell(p, len, NumStripes(p, len), idx[i], s, kept[idx[i]].value)
    ensures TrueSources(p.Config(), p.chunkSize, PaddedCells(p, obj, s), idx, cells)
  {
    hide NumStripes, Shard, PaddedCells, PaddedCell, ParityPrefix, DataPrefix;
    forall i | 0 <= i < |idx|
      ensures cells[i] == Shard(p.Config(), p.chunkSize, PaddedCells(p, obj, s), idx[i])
    {
      assert kept[idx[i]].value == StoredShard(p, obj, idx[i]);
      PaddedCellIsStripeShard(p, obj, idx[i], s);
    }
  }

  /** Truncating a rebuilt data cell gives the object's own cell. */
  lemma RebuiltCell(p: Profile, obj: seq<byte>, s: nat, e: nat, out: seq<byte>)
    requires ValidConfig(p.Config()) && e < p.data
    requires out == Shard(p.Config(), p.chunkSize, PaddedCells(p, obj, s), e)
    ensures CellLen(p, |obj|, e, s) <= |out| && out[..CellLen(p, |obj|, e, s)] == Cell(p, obj, e, s)
  {
    DataShardVerbatim(p.Config(), p.chunkSize, PaddedCells(p, obj, s), e);
    hide Shard, CellLen;
  }

  /** One more stripe of a missing data shard is known once its cell is rebuilt. */
  lemma PrefixGrows(p: Profile, len: nat, kept: Slots, s: nat, idx: seq<nat>, cells: seq<seq<byte>>, missing: seq<nat>,
      outs: seq<seq<byte>>, mi: nat, buf: seq<byte>)
    requires p.Layable() && ValidConfig(p.Config()) && |kept| == p.Total() && LengthsOk(p, len, kept)
    requires s < NumStripes(p, len)
    requires |cells| == |idx| && forall i :: 0 <= i < |idx| ==> idx[i] < p.Total() && kept[idx[i]].Some?
    requires forall i :: 0 <= i < |idx| ==>
      cells[i] == PaddedCell(p, len, NumStripes(p, len), idx[i], s, kept[idx[i]].value)
    requires |missing| == |outs| && mi < |missing| && missing[mi] < p.data
    requires AllLen(outs, p.chunkSize)
    requires Rebuilds(p.Config(), p.chunkSize, idx, cells, missing, outs)
    requires PrefixKnown(p, len, kept, buf, missing[mi], s)
    ensures CellLen(p, len, missing[mi], s) <= p.chunkSize
    ensures PrefixKnown(p, len, kept, buf + outs[mi][..CellLen(p, len, missing[mi], s)], missing[mi], s + 1)
  {
    hide NumStripes, Shard, PaddedCells, PaddedCell, Cell, LengthsOk;
    var e := missing[mi];
    var cl := CellLen(p, len, e, s);
    hide CellLen;
    var buf' := buf + outs[mi][..cl];
    forall obj | Candidate(p, len, kept, obj)
      ensures buf' == DataPrefix(p, obj, e, s + 1)
    {
      CellsAreTrueSources(p, len, kept, obj, s, idx, cells);
      assert RebuildsAs(p.Config(), p.chunkSize, PaddedCells(p, obj, s), missing, outs);
      RebuiltCell(p, obj, s, e, outs[mi]);
    }
  }

  method NewDecoder(p: Profile) returns (r: Result<Decoder, StripeError>)
    ensures r.Err? <==> !ValidConfig(p.Config())
    ensures r.Err? ==> r.error == Inner(InvalidConfig(p.data, p.parity))
    ensures r.Ok? ==> r.value.Valid() && r.value.cfg == p.Config() && fresh(r.value) && fresh(r.value.encodeMatrix)
  {
    var v := ValidateCfg(p.Config());
    if v.Err? {
      return Err(Inner(v.error));
    }
    var m := BuildEncodeMatrix(p.Config());
    var d := new Decoder(p.Config(), m);
    return Ok(d);
  }

  /** The zero-padded cell of stripe s in a stored shard. */
  method CutCell(p: Profile, len: nat, stripes: nat, idx: nat, s: nat, shard: seq<byte>) returns (cell: seq<byte>)
    requires s < stripes
    requires idx < p.data ==> |shard| == PrefixLen(p, len, idx, stripes)
    requires idx >= p.data ==> |shard| == Times(stripes, p.chunkSize)
    ensures cell == PaddedCell(p, len, stripes, idx, s, shard)
    ensures CutAt(p, s, shard, cell)
  {
    hide CutAt;
    PaddedCellIsCut(p, len, stripes, idx, s, shard);
    var c := p.chunkSize;
    if idx < p.data {
      var off := 0;
      for t := 0 to s
        invariant off == PrefixLen(p, len, idx, t)
      {
        off := off + CellLen(p, len, idx, t);
      }
      var cl := CellLen(p, len, idx, s);
      PrefixMono(p, len, idx, s + 1, stripes);
      PadIs(c, shard[off..off + cl]);
      cell := shard[off..off + cl] + Zeros(c)[cl..];
    } else {
      var start := Times(s, c);
      TimesMono(s + 1, stripes, c);
      cell := shard[start..start + c];
    }
  }

  method CutCells(p: Profile, len: nat, stripes: nat, kept: Slots, idx: seq<nat>, s: nat)
      returns (cells: seq<seq<byte>>)
    requires p.Layable() && |kept| == p.Total() && LengthsOk(p, len, kept)
      && stripes == NumStripes(p, len) && s < stripes
    requires forall i :: 0 <= i < |idx| ==> idx[i] < p.Total() && kept[idx[i]].Some?
    ensures |cells| == |idx|
    ensures forall j :: 0 <= j < |idx| ==> cells[j] == PaddedCell(p, len, stripes, idx[j], s, kept[idx[j]].value)
  {
    hide NumStripes, PaddedCell, PrefixLen, Times;
    cells := [];
    for i := 0 to |idx|
      invariant |cells| == i
      invariant forall j :: 0 <= j < i ==> cells[j] == PaddedCell(p, len, stripes, idx[j], s, kept[idx[j]].value)
    {
      var cell := CutCell(p, len, stripes, idx[i], s, kept[idx[i]].value);
      cells := cells + [cell];
    }
  }

  /** Rebuild stripe s of every missing data shard. */
  method RebuildStripe(p: Profile, len: nat, stripes: nat, kept: Slots, recon: Decoder, idx: seq<nat>,
      missing: seq<nat>, s: nat, bufs: array<seq<byte>>)
    requires p.Layable() && |kept| == p.Total() && LengthsOk(p, len, kept)
      && stripes == NumStripes(p, len) && s < stripes
    requires recon.Valid() && recon.cfg == p.Config()
    requires |idx| == p.data && Distinct(idx) && forall i :: 0 <= i < |idx| ==> idx[i] < p.Total() && kept[idx[i]].Some?
    requires Distinct(missing) && missing != [] && forall i :: 0 <= i < |missing| ==>
      missing[i] < p.data && kept[missing[i]].None?
    requires bufs.Length == p.data
    requires forall i :: 0 <= i < |missing| ==> PrefixKnown(p, len, kept, bufs[missing[i]], missing[i], s)
    modifies bufs
    ensures forall i :: 0 <= i < |missing| ==> PrefixKnown(p, len, kept, bufs[missing[i]], missing[i], s + 1)
    ensures forall i :: 0 <= i < p.data && i !in missing ==> bufs[i] == old(bufs[i])
    ensures recon.Valid()
  {
    hide PrefixKnown, NumStripes, PaddedCell, Rebuilds, IsGenerator, PrefixLen, Times;
    var cells := CutCells(p, len, stripes, kept, idx, s);
    var zeros := Zeros(p.chunkSize);
    var outBufs := new seq<byte>[|missing|](_ => zeros);
    ChecksAreExact(p.Config(), p.chunkSize, idx, cells, missing, outBufs[..]);
    var rr := recon.Reconstruct(p.chunkSize, idx, cells, missing, outBufs);
    var outs := outBufs[..];
    for mi := 0 to |missing|
      invariant forall i :: 0 <= i < mi ==> PrefixKnown(p, len, kept, bufs[missing[i]], missing[i], s + 1)
      invariant forall i :: mi <= i < |missing| ==> PrefixKnown(p, len, kept, bufs[missing[i]], missing[i], s)
      invariant forall i :: 0 <= i < p.data && i !in missing ==> bufs[i] == old(bufs[i])
    {
      var i := missing[mi];
      PrefixGrows(p, len, kept, s, idx, cells, missing, outs, mi, bufs[i]);
      var cl := CellLen(p, len, i, s);
      bufs[i] := bufs[i] + outs[mi][..cl];
    }
  }

  /** Rebuild every missing data shard from the first k present ones. */
  method RebuildMissing(p: Profile, len: nat, kept: Slots, recon: Decoder, idx: seq<nat>,
      missing: seq<nat>, bufs: array<seq<byte>>)
    requires p.Layable() && |kept| == p.Total() && LengthsOk(p, len, kept)
    requires recon.Valid() && recon.cfg == p.Config()
    requires |idx| == p.data && Distinct(idx) && forall i :: 0 <= i < |idx| ==> idx[i] < p.Total() && kept[idx[i]].Some?
    requires Distinct(missing) && missing != [] && forall i :: 0 <= i < |missing| ==>
      missing[i] < p.data && kept[missing[i]].None?
    requires bufs.Length == p.data
    modifies bufs
    ensures forall i :: 0 <= i < |missing| ==>
      PrefixKnown(p, len, kept, bufs[missing[i]], missing[i], NumStripes(p, len))
    ensures forall i :: 0 <= i < p.data && i !in missing ==> bufs[i] == old(bufs[i])
  {
    hide NumStripes, IsGenerator, LengthsOk;
    for mi := 0 to |missing|
      invariant forall i :: 0 <= i < mi ==> bufs[missing[i]] == []
      invariant forall i :: 0 <= i < p.data && i !in missing ==> bufs[i] == old(bufs[i])
    {
      bufs[missing[mi]] := [];
    }
    var stripes := NumStripes(p, len);
    for s := 0 to stripes
      invariant recon.Valid()
      invariant forall i :: 0 <= i < |missing| ==> PrefixKnown(p, len, kept, bufs[missing[i]], missing[i], s)
      invariant forall i :: 0 <= i < p.data && i !in missing ==> bufs[i] == old(bufs[i])
    {
      hide PrefixKnown;
      RebuildStripe(p, len, stripes, kept, recon, idx, missing, s, bufs);
    }
  }

  /** `out` is the object, whichever object the kept shards belong to. */
  ghost predicate Recovers(p: Profile, len: nat, kept: Slots, out: seq<byte>)
    requires p.Layable() && |kept| == p.Total()
  {
    |out| == len && forall obj :: Candidate(p, len, kept, obj) ==> out == obj
  }

  lemma AssembledRecovers(p: Profile, len: nat, kept: Slots, bufs: seq<seq<byte>>, out: seq<byte>)
    requires p.Layable() && |kept| == p.Total() && |bufs| == p.data
    requires forall i :: 0 <= i < p.data ==> |bufs[i]| == PrefixLen(p, len, i, NumStripes(p, len))
    requires forall i :: 0 <= i < p.data ==> PrefixKnown(p, len, kept, bufs[i], i, NumStripes(p, len))
    requires out == Assembled(p, len, NumStripes(p, len), bufs, 0, NumStripes(p, len))
    ensures Recovers(p, len, kept, out)
  {
    AllStripesCover(p, len);
    AssembledLen(p, len, NumStripes(p, len), bufs, 0, NumStripes(p, len));
    hide NumStripes, Assembled, PrefixLen, CellOff;
    forall obj | Candidate(p, len, kept, obj)
      ensures out == obj
    {
      AssembledIsObject(p, obj, NumStripes(p, len), bufs, 0, NumStripes(p, len));
    }
  }

  lemma {:induction false} AssembledLen(p: Profile, len: nat, stripes: nat, bufs: seq<seq<byte>>, i: nat, s: nat)
    requires |bufs| == p.data && i <= p.data
    requires forall j :: 0 <= j < |bufs| ==> |bufs[j]| == PrefixLen(p, len, j, stripes)
    requires s <= stripes && (s == stripes ==> i == 0)
    ensures |Assembled(p, len, stripes, bufs, i, s)| == Min(len, CellOff(p, i, s))
    decreases s, i
  {
    hide CellOff, PrefixLen;
    if i > 0 {
      AssembledLen(p, len, stripes, bufs, i - 1, s);
      CellsAbut(p, i - 1, s);
      AssembledStep(p, len, stripes, bufs, i - 1, s);
    } else if s > 0 {
      AssembledLen(p, len, stripes, bufs, p.data, s - 1);
      CellsAbut(p, 0, s - 1);
    } else {
      CellsAbut(p, 0, 0);
    }
  }

  /** Decode an object of `len` bytes from whatever shards survive. */
  method DecodeObject(p: Profile, len: nat, shards: Slots) returns (r: Result<seq<byte>, StripeError>)
    requires len <= USIZE_MAX
    requires forall i :: 0 <= i < |shards| && shards[i].Some? ==> |shards[i].value| <= ISIZE_MAX
    ensures match DecodeError(p, len, shards)
            case Some(e) => r == Err(e)
            case None => r.Ok? && Recovers(p, len, Kept(p, len, shards), r.value)
  {
    if p.data == 0 || p.chunkSize == 0 {
      return Err(InvalidProfile(p.data, p.chunkSize));
    }
    if |shards| != p.Total() {
      return Err(ShardCount(p.Total(), |shards|));
    }
    var kept := Kept(p, len, shards);
    forall i | 0 <= i < p.Total() && kept[i].Some?
      ensures |kept[i].value| == if i < p.data then PrefixLen(p, len, i, NumStripes(p, len))
        else Times(NumStripes(p, len), p.chunkSize)
    {
      KeptLengths(p, len, shards, i);
    }
    hide Kept, PrefixLen, Times, NumStripes, Recovers;
    var d := WholeDataShards(p, len, kept);
    if d.Err? {
      return Err(d.error);
    }
    var out := Reassemble(p, len, d.value);
    AssembledRecovers(p, len, kept, d.value, out);
    return Ok(out);
  }

  /** The k data shards: those kept, and the missing ones rebuilt. */
  method WholeDataShards(p: Profile, len: nat, kept: Slots) returns (r: Result<seq<seq<byte>>, StripeError>)
    requires p.Layable() && |kept| == p.Total() && LengthsOk(p, len, kept)
    ensures KeptError(p, kept).Some? ==> r == Err(KeptError(p, kept).value)
    ensures KeptError(p, kept).None? ==>
      && r.Ok? && |r.value| == p.data
      && (forall i :: 0 <= i < p.data ==> |r.value[i]| == PrefixLen(p, len, i, NumStripes(p, len)))
      && (forall i :: 0 <= i < p.data ==> PrefixKnown(p, len, kept, r.value[i], i, NumStripes(p, len)))
  {
    hide PrefixLen, Times, NumStripes, PrefixKnown, LengthsOk, Having, Distinct;
    MissingRows(p, kept);
    var missing := Having(kept, false, p.data);
    var bufs := new seq<byte>[p.data](i requires 0 <= i < |kept| => if kept[i].Some? then kept[i].value else []);
    if missing != [] {
      var e := FillMissing(p, len, kept, missing, bufs);
      if e.Some? {
        return Err(e.value);
      }
    }
    forall i | 0 <= i < p.data
      ensures PrefixKnown(p, len, kept, bufs[i], i, NumStripes(p, len))
        && |bufs[i]| == PrefixLen(p, len, i, NumStripes(p, len))
    {
      if kept[i].Some? {
        KeptIsKnown(p, len, kept, i);
      } else {
        assert i in missing;
      }
      KnownLen(p, len, kept, bufs[i], i, NumStripes(p, len));
    }
    return Ok(bufs[..]);
  }

  /** Rebuild the missing data shards, or say why they cannot be. */
  method FillMissing(p: Profile, len: nat, kept: Slots, missing: seq<nat>, bufs: array<seq<byte>>)
      returns (e: Option<StripeError>)
    requires p.Layable() && |kept| == p.Total() && LengthsOk(p, len, kept) && bufs.Length == p.data
    requires missing == Having(kept, false, p.data) && missing != []
    requires Distinct(missing) && forall i :: 0 <= i < |missing| ==> missing[i] < p.data && kept[missing[i]].None?
    modifies bufs
    ensures e == KeptError(p, kept)
    ensures forall i :: 0 <= i < p.data && i !in missing ==> bufs[i] == old(bufs[i])
    ensures e.None? ==> forall i :: 0 <= i < |missing| ==>
      PrefixKnown(p, len, kept, bufs[missing[i]], missing[i], NumStripes(p, len))
  {
    hide PrefixLen, Times, NumStripes, PrefixKnown, LengthsOk, IsGenerator, Having;
    var present := Having(kept, true, p.Total());
    if |present| < p.data {
      return Some(NotEnoughShards(|present|, p.data));
    }
    var d := NewDecoder(p);
    if d.Err? {
      return Some(d.error);
    }
    PresentRows(p, kept);
    RebuildMissing(p, len, kept, d.value, present[..p.data], missing, bufs);
    return None;
  }

  /** The first k present slots are distinct sources. */
  lemma PresentRows(p: Profile, kept: Slots)
    requires |kept| == p.Total() && |Having(kept, true, p.Total())| >= p.data
    ensures var rows := Having(kept, true, p.Total())[..p.data];
            Distinct(rows) && forall i :: 0 <= i < |rows| ==> rows[i] < p.Total() && kept[rows[i]].Some?
  {}

  lemma MissingRows(p: Profile, kept: Slots)
    requires |kept| == p.Total()
    ensures var rows := Having(kept, false, p.data);
            && Distinct(rows) && (forall i :: 0 <= i < |rows| ==> rows[i] < p.data && kept[rows[i]].None?)
            && (forall i :: 0 <= i < p.data ==> (i in rows <==> kept[i].None?))
  {}

  lemma KeptIsKnown(p: Profile, len: nat, kept: Slots, i: nat)
    requires p.Layable() && |kept| == p.Total() && LengthsOk(p, len, kept) && i < p.data && kept[i].Some?
    ensures PrefixKnown(p, len, kept, kept[i].value, i, NumStripes(p, len))
  {
    hide PrefixLen, Times, NumStripes;
  }

  lemma KnownLen(p: Profile, len: nat, kept: Slots, buf: seq<byte>, i: nat, s: nat)
    requires p.Layable() && |kept| == p.Total() && PrefixKnown(p, len, kept, buf, i, s)
    ensures |buf| == PrefixLen(p, len, i, s)
  {}

  lemma NoKeptError(p: Profile, kept: Slots)
    requires |kept| == p.Total() && ValidConfig(p.Config()) && |Having(kept, true, p.Total())| >= p.data
    ensures KeptError(p, kept).None?
  {}

  lemma StoredAreCandidate(p: Profile, kept: Slots, obj: seq<byte>)
    requires p.Layable() && ValidConfig(p.Config()) && |kept| == p.Total()
    requires forall i :: 0 <= i < p.Total() && kept[i].Some? ==> kept[i].value == StoredShard(p, obj, i)
    ensures Candidate(p, |obj|, kept, obj)
  {
    hide NumStripes;
  }

  lemma KeptSurvivors(p: Profile, obj: seq<byte>, shards: Slots, survivors: set<nat>)
    requires p.Layable() && ValidConfig(p.Config()) && |shards| == p.Total()
    requires |obj| <= USIZE_MAX && Times(NumStripes(p, |obj|), p.chunkSize) <= USIZE_MAX
    requires forall i :: i in survivors ==> i < p.Total() && shards[i] == Some(StoredShard(p, obj, i))
    requires forall i :: 0 <= i < p.Total() && i !in survivors && shards[i].Some? ==>
      |shards[i].value| != ExpectedShardLen(p, |obj|, i)
    ensures forall i :: 0 <= i < p.Total() ==>
      Kept(p, |obj|, shards)[i] == if i in survivors then Some(StoredShard(p, obj, i)) else None
  {
    hide ExpectedShardLen, NumStripes, Times, StoredShard;
    forall i | 0 <= i < p.Total()
      ensures Kept(p, |obj|, shards)[i] == if i in survivors then Some(StoredShard(p, obj, i)) else None
    {
      if i in survivors { StoredShardLen(p, obj, i); }
    }
  }

  /** k survivors are k present slots. */
  lemma EnoughPresent(p: Profile, kept: Slots, survivors: set<nat>)
    requires |kept| == p.Total() && |survivors| >= p.data
    requires forall i :: i in survivors ==> i < p.Total() && kept[i].Some?
    ensures |Having(kept, true, p.Total())| >= p.data
  {
    var present := Having(kept, true, p.Total());
    assert survivors <= Elements(present);
    assert |Elements(present) - survivors| == |Elements(present)| - |survivors|;
  }
}
