/** GET: gather each block group's shards, decode, concatenate; what a PUT stored survives the loss
    of any p shards of every group. */
module ObjectRead {
  import opened Wrappers
  import opened Mds
  import opened ReedSolomon
  import opened Checksum
  import opened Layout
  import opened Shards
  import opened Stripe
  import opened Decode
  import opened Distance
  import opened MetaStore
  import opened Datanode
  import opened Om
  import opened Gateway

  /** Which reads reach their datanode. */
  type Network = (string, BlockId) -> bool

  /** A slot's shard, if its member can be reached and serves it; no byte vector is longer than isize::MAX. */
  function ReadSlot(digest: Digest, nodes: Cluster, net: Network, block: BlockLocation, slot: nat): Option<seq<byte>> {
    var e := EndpointFor(block.pipeline.members, slot);
    if e.None? || e.value !in nodes || !net(e.value, ShardId(block, slot)) then None
    else
      var b := ReadChunk(digest, nodes[e.value], ShardId(block, slot));
      if b.Some? && |b.value| <= ISIZE_MAX then b else None
  }

  function Gathered(digest: Digest, nodes: Cluster, net: Network, block: BlockLocation): (r: Slots)
    ensures |r| == block.pipeline.ec.Total()
  {
    seq(block.pipeline.ec.Total(),
      i requires 0 <= i < block.pipeline.ec.Total() => ReadSlot(digest, nodes, net, block, i + 1))
  }

  /** Ask every slot's member; a slot that cannot be read stays absent. */
  method GatherShards(digest: Digest, nodes: Cluster, net: Network, block: BlockLocation) returns (slots: Slots)
    ensures slots == Gathered(digest, nodes, net, block)
  {
    hide ReadChunk;
    var total := block.pipeline.ec.Total();
    var bufs := new Option<seq<byte>>[total](_ => None);
    for slot := 1 to total + 1
      invariant forall i :: 0 <= i < slot - 1 ==> bufs[i] == ReadSlot(digest, nodes, net, block, i + 1)
      invariant forall i :: slot - 1 <= i < total ==> bufs[i] == None
    {
      var e := EndpointFor(block.pipeline.members, slot);
      if e.None? {
        continue;
      }
      if e.value !in nodes || !net(e.value, ShardId(block, slot)) {
        continue;
      }
      var b := ReadChunk(digest, nodes[e.value], ShardId(block, slot));
      if b.Some? && |b.value| <= ISIZE_MAX {
        bufs[slot - 1] := b;
      }
    }
    return bufs[..];
  }

  method ReadBlockGroup(digest: Digest, nodes: Cluster, net: Network, block: BlockLocation)
      returns (r: Result<seq<byte>, GatewayError>)
    requires block.extent.length <= USIZE_MAX
    ensures var p, len, slots := block.pipeline.ec, block.extent.length, Gathered(digest, nodes, net, block);
            match DecodeError(p, len, slots)
            case Some(e) => r == Err(Ec(e))
            case None => r.Ok? && Recovers(p, len, Kept(p, len, slots), r.value)
  {
    hide Recovers, Kept, DecodeError, ReadChunk;
    var slots := GatherShards(digest, nodes, net, block);
    var d := DecodeObject(block.pipeline.ec, block.extent.length, slots);
    if d.Err? {
      return Err(Ec(d.error));
    }
    return Ok(d.value);
  }

  /** Each slot reads as lost or as the true shard, and at least k read. */
  ghost predicate GroupReadable(digest: Digest, nodes: Cluster, net: Network,
      block: BlockLocation, segment: seq<byte>) {
    var p, slots := block.pipeline.ec, Gathered(digest, nodes, net, block);
    && block.extent.length == |segment| && p.Layable() && ValidConfig(p.Config()) && Fits(p, |segment|)
    && (forall i :: 0 <= i < p.Total() && slots[i].Some? ==> slots[i].value == StoredShard(p, segment, i))
    && |Present(slots)| >= p.data
  }

  ghost function Present(slots: Slots): (r: set<nat>)
    ensures forall i: nat :: i in r <==> i < |slots| && slots[i].Some?
  {
    set i: nat | i < |slots| && slots[i].Some?
  }

  /** A readable group decodes to its segment and to nothing else. */
  lemma ReadableDecodes(digest: Digest, nodes: Cluster, net: Network, block: BlockLocation,
      segment: seq<byte>, out: seq<byte>)
    requires GroupReadable(digest, nodes, net, block, segment)
    ensures var p, slots := block.pipeline.ec, Gathered(digest, nodes, net, block);
            DecodeError(p, |segment|, slots).None?
              && (Recovers(p, |segment|, Kept(p, |segment|, slots), out) <==> out == segment)
  {
    var p, slots := block.pipeline.ec, Gathered(digest, nodes, net, block);
    hide Gathered, StoredShard, NumStripes, Times, ValidConfig;
    SurvivorsDecode(p, segment, slots, Present(slots), out);
  }

  ghost predicate Readable(digest: Digest, nodes: Cluster, net: Network, blocks: seq<BlockLocation>, body: seq<byte>) {
    && |body| == TotalLen(blocks)
    && forall i :: 0 <= i < |blocks| ==> GroupReadable(digest, nodes, net, blocks[i], Segment(blocks, body, i))
  }

  /** The bytes are what the group's readable shards decode to. */
  ghost predicate GroupDecodesTo(digest: Digest, nodes: Cluster, net: Network, block: BlockLocation, out: seq<byte>) {
    var p, len, slots := block.pipeline.ec, block.extent.length, Gathered(digest, nodes, net, block);
    DecodeError(p, len, slots).None? && Recovers(p, len, Kept(p, len, slots), out)
  }

  /** Group i is the first that does not decode, and this is why. */
  ghost predicate FailsFirst(digest: Digest, nodes: Cluster, net: Network, blocks: seq<BlockLocation>, i: nat,
      e: StripeError) {
    && i < |blocks| && ReadError(digest, nodes, net, blocks[i]) == Some(e)
    && forall j: nat :: j < i ==> ReadError(digest, nodes, net, blocks[j]).None?
  }

  /** What reading the blocks in order answers: every group decoded, or the error of the first that does not. */
  ghost predicate ReadOutcome(digest: Digest, nodes: Cluster, net: Network, blocks: seq<BlockLocation>,
      r: Result<seq<byte>, GatewayError>) {
    match r
    case Ok(out) =>
      |out| == TotalLen(blocks) && forall i :: 0 <= i < |blocks| ==>
        GroupDecodesTo(digest, nodes, net, blocks[i], Segment(blocks, out, i))
    case Err(e) =>
      e.Ec? && exists i: nat :: FailsFirst(digest, nodes, net, blocks, i, e.stripe)
  }

  function ReadError(digest: Digest, nodes: Cluster, net: Network, block: BlockLocation): Option<StripeError> {
    DecodeError(block.pipeline.ec, block.extent.length, Gathered(digest, nodes, net, block))
  }

  method GetObject(om: CompliantOm, digest: Digest, nodes: Cluster, net: Network, name: KeyName)
      returns (r: Result<seq<byte>, GatewayError>)
    requires name in om.keys ==> forall i :: 0 <= i < |om.keys[name].blocks| ==>
      om.keys[name].blocks[i].extent.length <= USIZE_MAX
    ensures name !in om.keys ==> r == Err(Manager(KeyNotFound))
    ensures name in om.keys ==> ReadOutcome(digest, nodes, net, om.keys[name].blocks, r)
  {
    hide ReadOutcome;
    var info := om.GetKeyInfo(name);
    if info.Err? {
      return Err(Manager(info.error));
    }
    r := ReadBlocks(digest, nodes, net, info.value.blocks);
  }

  method ReadBlocks(digest: Digest, nodes: Cluster, net: Network, blocks: seq<BlockLocation>)
      returns (r: Result<seq<byte>, GatewayError>)
    requires forall i :: 0 <= i < |blocks| ==> blocks[i].extent.length <= USIZE_MAX
    ensures ReadOutcome(digest, nodes, net, blocks, r)
  {
    hide DecodeError, Recovers, Kept, Gathered, TotalLen, Segment, GroupDecodesTo;
    var out := [];
    assert blocks[..0] == [];
    EmptyBody();
    for i := 0 to |blocks|
      invariant ReadOutcome(digest, nodes, net, blocks[..i], Ok(out))
      invariant forall j: nat :: j < i ==> ReadError(digest, nodes, net, blocks[j]).None?
    {
      hide ReadError;
      var part := ReadBlockGroup(digest, nodes, net, blocks[i]);
      GroupOutcome(digest, nodes, net, blocks[i], part);
      if part.Err? {
        assert FailsFirst(digest, nodes, net, blocks, i, part.error.stripe);
        return Err(part.error);
      }
      OutcomeNext(digest, nodes, net, blocks, i, out, part.value);
      out := out + part.value;
    }
    assert blocks[..|blocks|] == blocks;
    return Ok(out);
  }

  lemma EmptyBody()
    ensures TotalLen([]) == 0
  {}

  lemma GroupOutcome(digest: Digest, nodes: Cluster, net: Network, block: BlockLocation,
      r: Result<seq<byte>, GatewayError>)
    requires var p, len, slots := block.pipeline.ec, block.extent.length, Gathered(digest, nodes, net, block);
             match DecodeError(p, len, slots)
             case Some(e) => r == Err(Ec(e))
             case None => r.Ok? && Recovers(p, len, Kept(p, len, slots), r.value)
    ensures r.Ok? ==> |r.value| == block.extent.length && GroupDecodesTo(digest, nodes, net, block, r.value)
    ensures r.Ok? ==> ReadError(digest, nodes, net, block).None?
    ensures r.Err? ==> r.error.Ec? && ReadError(digest, nodes, net, block) == Some(r.error.stripe)
  {
    hide Gathered, Kept, DecodeError;
  }

  lemma OutcomeNext(digest: Digest, nodes: Cluster, net: Network, blocks: seq<BlockLocation>, i: nat,
      out: seq<byte>, part: seq<byte>)
    requires i < |blocks| && ReadOutcome(digest, nodes, net, blocks[..i], Ok(out))
    requires |part| == blocks[i].extent.length && GroupDecodesTo(digest, nodes, net, blocks[i], part)
    ensures ReadOutcome(digest, nodes, net, blocks[..i + 1], Ok(out + part))
  {
    hide GroupDecodesTo, TotalLen, Segment;
    var a, b := blocks[..i], [blocks[i]];
    assert blocks[..i + 1] == a + b;
    OneLen(blocks[i]);
    TotalLenJoin(a, b);
    forall j | 0 <= j < |a + b|
      ensures GroupDecodesTo(digest, nodes, net, (a + b)[j], Segment(a + b, out + part, j))
    {
      if j < i {
        FirstSegments(a, out, b, part, j);
      } else {
        LastSegments(a, out, b, part, 0);
        OneSegment(blocks[i], part);
      }
    }
  }

  lemma OneLen(block: BlockLocation)
    ensures TotalLen([block]) == block.extent.length
  {
    assert [block][..0] == [];
  }

  lemma OneSegment(block: BlockLocation, part: seq<byte>)
    requires |part| == block.extent.length
    ensures TotalLen([block]) == |part| && Segment([block], part, 0) == part
  {
    OneLen(block);
    assert [block][..0] == [] && [block][..1] == [block];
  }

  /** Reading a readable object returns its body, and nothing else. */
  lemma ReadableIsRead(digest: Digest, nodes: Cluster, net: Network, blocks: seq<BlockLocation>, body: seq<byte>,
      r: Result<seq<byte>, GatewayError>)
    requires Readable(digest, nodes, net, blocks, body)
    ensures ReadOutcome(digest, nodes, net, blocks, r) <==> r == Ok(body)
  {
    hide GroupReadable, DecodeError, Recovers, Kept, Gathered, TotalLen, Segment;
    forall i, out | 0 <= i < |blocks|
      ensures GroupDecodesTo(digest, nodes, net, blocks[i], out) <==> out == Segment(blocks, body, i)
    {
      ReadableDecodes(digest, nodes, net, blocks[i], Segment(blocks, body, i), out);
    }
    forall i | 0 <= i < |blocks| ensures ReadError(digest, nodes, net, blocks[i]).None? {
      ReadableDecodes(digest, nodes, net, blocks[i], Segment(blocks, body, i), body);
    }
    hide GroupDecodesTo, ReadError;
    if r.Ok? && ReadOutcome(digest, nodes, net, blocks, r) {
      forall i | 0 <= i < |blocks| ensures Segment(blocks, r.value, i) == Segment(blocks, body, i) {
        assert GroupDecodesTo(digest, nodes, net, blocks[i], Segment(blocks, r.value, i));
      }
      SegmentsDetermine(blocks, r.value, body, |blocks|);
    }
  }

  /** A body is determined by its segments. */
  lemma {:induction false} SegmentsDetermine(blocks: seq<BlockLocation>, x: seq<byte>, y: seq<byte>, n: nat)
    requires |x| == |y| == TotalLen(blocks) && n <= |blocks|
    requires forall i :: 0 <= i < |blocks| ==> Segment(blocks, x, i) == Segment(blocks, y, i)
    ensures TotalLen(blocks[..n]) <= |x| && x[..TotalLen(blocks[..n])] == y[..TotalLen(blocks[..n])]
    ensures n == |blocks| ==> x == y
  {
    TotalLenMono(blocks, n);
    if n == 0 {
      assert blocks[..0] == [];
    } else {
      SegmentsDetermine(blocks, x, y, n - 1);
      hide TotalLen, Segment;
      SegmentIs(blocks, x, n - 1);
      SegmentIs(blocks, y, n - 1);
    }
    if n == |blocks| {
      assert blocks[..n] == blocks;
      assert x[..|x|] == x && y[..|y|] == y;
    }
  }

  lemma SegmentIs(blocks: seq<BlockLocation>, body: seq<byte>, i: nat)
    requires i < |blocks| && |body| == TotalLen(blocks) && TotalLen(blocks[..i]) <= |body|
      && TotalLen(blocks[..i + 1]) <= |body|
    ensures body[..TotalLen(blocks[..i])] + Segment(blocks, body, i) == body[..TotalLen(blocks[..i + 1])]
  {
    TotalLenNext(blocks, i);
    hide TotalLen;
  }

  // ---- losing shards ----

  /** What a disk may do to a shard: rot or lose its bytes under an intact record, or drop the record
      of intact or lost bytes. */
  predicate Damaged(before: Node, after: Node, id: BlockId) {
    && (id in after.meta.blocks ==> id in before.meta.blocks && after.meta.blocks[id] == before.meta.blocks[id])
    && (id in after.chunks && id !in after.meta.blocks ==> id in before.chunks && after.chunks[id] == before.chunks[id])
  }

  ghost predicate ClusterDamaged(before: Cluster, after: Cluster) {
    forall e, id :: e in after ==> e in before && Damaged(before[e], after[e], id)
  }

  /** Shard i (slot i + 1) still answers with the bytes that were written. */
  ghost predicate Intact(before: Cluster, after: Cluster, net: Network, block: BlockLocation, i: nat) {
    var e, id := EndpointFor(block.pipeline.members, i + 1), ShardId(block, i + 1);
    && e.Some? && e.value in before && e.value in after && net(e.value, id)
    && id in before[e.value].chunks && id in after[e.value].chunks
      && after[e.value].chunks[id] == before[e.value].chunks[id]
    && |before[e.value].chunks[id]| <= ISIZE_MAX
  }

  /** A slot of a damaged cluster reads exactly when it is intact, and then as the true shard. */
  lemma SlotReads(digest: Digest, before: Cluster, after: Cluster, net: Network,
      block: BlockLocation, i: nat, segment: seq<byte>)
    requires Ideal(digest) && ClusterDamaged(before, after) && ShardWritten(digest, before, block, i + 1, segment)
    ensures var read := ReadSlot(digest, after, net, block, i + 1);
            && (read.Some? ==> read.value == StoredShard(block.pipeline.ec, segment, i))
            && (Intact(before, after, net, block, i) <==> read.Some?)
  {
    var p, id, e := block.pipeline.ec, ShardId(block, i + 1), EndpointFor(block.pipeline.members, i + 1).value;
    hide StoredShard, ValidConfig, Compute, VerifyOutcome;
    if e in after {
      assert Damaged(before[e], after[e], id);
      if id in after[e].meta.blocks {
        ReadThroughRecord(digest, p, after[e], id, |segment|, StoredShard(p, segment, i));
      }
    }
  }

  ghost function Lost(before: Cluster, after: Cluster, net: Network, block: BlockLocation): set<nat> {
    set i | i in Range(block.pipeline.ec.Total()) && !Intact(before, after, net, block, i)
  }

  /** Losing at most p of a written group's shards leaves it readable. */
  lemma GroupSurvives(digest: Digest, before: Cluster, after: Cluster, net: Network,
      block: BlockLocation, segment: seq<byte>)
    requires Ideal(digest) && ClusterDamaged(before, after) && GroupWritten(digest, before, block, segment)
    requires block.extent.length == |segment| && Fits(block.pipeline.ec, |segment|)
    requires |Lost(before, after, net, block)| <= block.pipeline.ec.parity
    ensures GroupReadable(digest, after, net, block, segment)
  {
    var p, slots := block.pipeline.ec, Gathered(digest, after, net, block);
    hide ShardWritten, StoredShard, ValidConfig, Intact, ReadSlot, ClusterDamaged, NumStripes, Times, Ideal;
    forall i | 0 <= i < p.Total()
      ensures slots[i].Some? ==> slots[i].value == StoredShard(p, segment, i)
      ensures Intact(before, after, net, block, i) ==> slots[i].Some?
    {
      SlotReads(digest, before, after, net, block, i, segment);
    }
    var lost := Lost(before, after, net, block);
    var all := Range(p.Total());
    assert |all - lost| >= p.data;
    assert all - lost <= Present(slots);
    assert |Present(slots)| == |all - lost| + |Present(slots) - (all - lost)|;
  }

  /** Losing more than p of them leaves it undecodable. */
  lemma GroupLost(digest: Digest, before: Cluster, after: Cluster, net: Network,
      block: BlockLocation, segment: seq<byte>)
    requires Ideal(digest) && ClusterDamaged(before, after) && GroupWritten(digest, before, block, segment)
    requires block.extent.length == |segment| && Fits(block.pipeline.ec, |segment|)
    requires |Lost(before, after, net, block)| > block.pipeline.ec.parity
    ensures ReadError(digest, after, net, block).Some? && ReadError(digest, after, net, block).value.NotEnoughShards?
  {
    var p, slots := block.pipeline.ec, Gathered(digest, after, net, block);
    hide ShardWritten, StoredShard, ValidConfig, Intact, ReadSlot, ClusterDamaged, NumStripes, Times,
      Ideal, ExpectedShardLen, Having;
    forall i | 0 <= i < p.Total() ensures Intact(before, after, net, block, i) <==> slots[i].Some? {
      SlotReads(digest, before, after, net, block, i, segment);
    }
    var lost, all := Lost(before, after, net, block), Range(p.Total());
    assert Present(slots) == all - lost;
    assert |Present(slots)| < p.data;
    TooFewKept(p, |segment|, slots);
  }

  lemma TooFewKept(p: Profile, len: nat, slots: Slots)
    requires p.Layable() && |slots| == p.Total() && |Present(slots)| < p.data
    ensures DecodeError(p, len, slots).Some? && DecodeError(p, len, slots).value.NotEnoughShards?
  {
    var kept := Kept(p, len, slots);
    var have := Having(kept, true, p.Total());
    assert Distinct(have) && Elements(have) <= Present(slots);
    assert |Present(slots)| == |Elements(have)| + |Present(slots) - Elements(have)|;
    if Having(kept, false, p.data) == [] {
      AllDataPresent(p, len, slots);
    }
  }

  lemma AllDataPresent(p: Profile, len: nat, slots: Slots)
    requires p.Layable() && |slots| == p.Total() && Having(Kept(p, len, slots), false, p.data) == []
    ensures |Present(slots)| >= p.data
  {
    var kept := Kept(p, len, slots);
    var missing := Having(kept, false, p.data);
    assert forall i :: 0 <= i < p.data && kept[i].Some? == false ==> i in missing;
    assert forall i :: i in Range(p.data) ==> kept[i].Some?;
    assert Range(p.data) <= Present(slots);
    assert |Present(slots)| == |Range(p.data)| + |Present(slots) - Range(p.data)|;
  }

  /** No group of the object has lost more than p shards. */
  ghost predicate Tolerable(before: Cluster, after: Cluster, net: Network, blocks: seq<BlockLocation>) {
    forall i :: 0 <= i < |blocks| ==> |Lost(before, after, net, blocks[i])| <= blocks[i].pipeline.ec.parity
  }

  ghost predicate AllFit(blocks: seq<BlockLocation>) {
    forall i :: 0 <= i < |blocks| ==> Fits(blocks[i].pipeline.ec, blocks[i].extent.length)
  }

  /** PUT, then any loss of at most p shards in each group, then GET: the same body. */
  lemma StoredSurvives(digest: Digest, before: Cluster, after: Cluster, net: Network,
      blocks: seq<BlockLocation>, body: seq<byte>)
    requires Ideal(digest) && ClusterDamaged(before, after) && Stored(digest, before, blocks, body)
    requires AllFit(blocks) && Tolerable(before, after, net, blocks)
    ensures Readable(digest, after, net, blocks, body)
  {
    hide GroupWritten, GroupReadable, ClusterDamaged, Fits, Lost, Ideal, TotalLen, Segment;
    forall i | 0 <= i < |blocks|
      ensures GroupReadable(digest, after, net, blocks[i], Segment(blocks, body, i))
    {
      GroupSurvives(digest, before, after, net, blocks[i], Segment(blocks, body, i));
    }
  }

  /** Whatever happened to the cluster, reading a stored object gives its body exactly when no group has
      lost more than p shards, and the decoder's shortage error otherwise. */
  lemma StoredIsRead(digest: Digest, before: Cluster, after: Cluster, net: Network, blocks: seq<BlockLocation>,
      body: seq<byte>, r: Result<seq<byte>, GatewayError>)
    requires Ideal(digest) && ClusterDamaged(before, after) && Stored(digest, before, blocks, body) && AllFit(blocks)
    requires ReadOutcome(digest, after, net, blocks, r)
    ensures Tolerable(before, after, net, blocks) ==> r == Ok(body)
    ensures !Tolerable(before, after, net, blocks) ==> r.Err? && r.error.Ec? && r.error.stripe.NotEnoughShards?
  {
    hide Stored, ClusterDamaged, Ideal, Lost, Readable;
    if Tolerable(before, after, net, blocks) {
      hide ReadOutcome, Tolerable, AllFit;
      StoredSurvives(digest, before, after, net, blocks, body);
      ReadableIsRead(digest, after, net, blocks, body, r);
    } else {
      hide GroupDecodesTo, ReadError, TotalLen, Segment, AllFit;
      forall i | 0 <= i < |blocks| ensures GroupExact(digest, before, after, net, blocks[i]) {
        GroupIsExact(digest, before, after, net, blocks, body, i);
      }
      var i :| 0 <= i < |blocks| && |Lost(before, after, net, blocks[i])| > blocks[i].pipeline.ec.parity;
      assert GroupExact(digest, before, after, net, blocks[i]);
      if r.Ok? {
        AllDecode(digest, after, net, blocks, r);
      } else {
        var j :| 0 <= j < |blocks| && ReadError(digest, after, net, blocks[j]) == Some(r.error.stripe);
        assert GroupExact(digest, before, after, net, blocks[j]);
      }
    }
  }

  lemma AllDecode(digest: Digest, nodes: Cluster, net: Network, blocks: seq<BlockLocation>,
      r: Result<seq<byte>, GatewayError>)
    requires ReadOutcome(digest, nodes, net, blocks, r) && r.Ok?
    ensures forall i :: 0 <= i < |blocks| ==> ReadError(digest, nodes, net, blocks[i]).None?
  {
    hide DecodeError, Gathered, Recovers, Kept, TotalLen, Segment;
    forall i | 0 <= i < |blocks| ensures ReadError(digest, nodes, net, blocks[i]).None? {
      assert GroupDecodesTo(digest, nodes, net, blocks[i], Segment(blocks, r.value, i));
    }
  }

  /** Reading the group fails exactly when it lost more than p shards, and then for want of shards. */
  ghost predicate GroupExact(digest: Digest, before: Cluster, after: Cluster, net: Network, block: BlockLocation) {
    var e := ReadError(digest, after, net, block);
    && (e.None? <==> |Lost(before, after, net, block)| <= block.pipeline.ec.parity)
    && (e.Some? ==> e.value.NotEnoughShards?)
  }

  lemma GroupIsExact(digest: Digest, before: Cluster, after: Cluster, net: Network,
      blocks: seq<BlockLocation>, body: seq<byte>, i: nat)
    requires Ideal(digest) && ClusterDamaged(before, after) && Stored(digest, before, blocks, body)
      && AllFit(blocks) && i < |blocks|
    ensures GroupExact(digest, before, after, net, blocks[i])
  {
    hide ClusterDamaged, Ideal, Lost, GroupWritten, GroupReadable, Gathered, DecodeError, Fits, TotalLen, Segment;
    var segment := Segment(blocks, body, i);
    if |Lost(before, after, net, blocks[i])| <= blocks[i].pipeline.ec.parity {
      GroupSurvives(digest, before, after, net, blocks[i], segment);
      ReadableDecodes(digest, after, net, blocks[i], segment, segment);
    } else {
      GroupLost(digest, before, after, net, blocks[i], segment);
    }
  }

  // ---- dead and unreachable datanodes ----

  /** No endpoint serves two slots. */
  predicate Spread(pipeline: Pipeline) {
    forall s, t :: 1 <= s < t <= pipeline.ec.Total() ==>
      EndpointFor(pipeline.members, s) != EndpointFor(pipeline.members, t)
  }

  lemma {:induction false} SlotsOn(pipeline: Pipeline, lost: set<nat>, bad: set<string>)
    requires Spread(pipeline)
    requires forall i :: i in lost ==> i < pipeline.ec.Total() && OnBad(pipeline, i, bad)
    ensures |lost| <= |bad|
    decreases |lost|
  {
    if lost != {} {
      var i :| i in lost;
      var e := EndpointFor(pipeline.members, i + 1).value;
      hide EndpointFor;
      forall j | j in lost - {i} ensures OnBad(pipeline, j, bad - {e}) {
        assert OnBad(pipeline, j, bad);
      }
      SlotsOn(pipeline, lost - {i}, bad - {e});
    }
  }

  ghost predicate OnBad(pipeline: Pipeline, i: nat, bad: set<string>) {
    EndpointFor(pipeline.members, i + 1).Some? && EndpointFor(pipeline.members, i + 1).value in bad
  }

  /** With a pipeline that spreads its slots, any p datanodes may be dead or out of reach, in any mix. */
  lemma DeadMembersTolerable(digest: Digest, before: Cluster, blocks: seq<BlockLocation>, body: seq<byte>,
      dead: set<string>, cut: set<string>)
    requires Stored(digest, before, blocks, body) && AllFit(blocks)
    requires forall i :: 0 <= i < |blocks| ==>
      Spread(blocks[i].pipeline) && |dead + cut| <= blocks[i].pipeline.ec.parity
    ensures ClusterDamaged(before, before - dead)
    ensures Tolerable(before, before - dead, (e, id) => e !in cut, blocks)
  {
    var net: Network := (e, id) => e !in cut;
    forall i | 0 <= i < |blocks|
      ensures |Lost(before, before - dead, net, blocks[i])| <= blocks[i].pipeline.ec.parity
    {
      hide Spread, GroupWritten, Segment, TotalLen, Fits;
      DeadSlots(digest, before, blocks[i], Segment(blocks, body, i), dead, cut, net);
      SlotsOn(blocks[i].pipeline, Lost(before, before - dead, net, blocks[i]), dead + cut);
    }
  }

  /** Only the slots of dead or unreachable members are lost. */
  lemma DeadSlots(digest: Digest, before: Cluster, block: BlockLocation, segment: seq<byte>, dead: set<string>,
      cut: set<string>, net: Network)
    requires GroupWritten(digest, before, block, segment) && Fits(block.pipeline.ec, |segment|)
    requires forall e, id :: net(e, id) == (e !in cut)
    ensures forall i :: i in Lost(before, before - dead, net, block) ==>
      i < block.pipeline.ec.Total() && OnBad(block.pipeline, i, dead + cut)
  {
    forall i | i in Lost(before, before - dead, net, block) ensures OnBad(block.pipeline, i, dead + cut) {
      hide StoredShard, Fits, ValidConfig, EndpointFor;
      assert ShardWritten(digest, before, block, i + 1, segment);
      ShardBounded(block.pipeline.ec, segment, i);
    }
  }

  lemma {:induction false} PrefixBounded(p: Profile, len: nat, i: nat, s: nat)
    ensures PrefixLen(p, len, i, s) <= Times(s, p.chunkSize)
  {
    if s > 0 { PrefixBounded(p, len, i, s - 1); }
  }

  lemma ShardBounded(p: Profile, segment: seq<byte>, i: nat)
    requires Fits(p, |segment|) && ValidConfig(p.Config()) && i < p.Total()
    ensures |StoredShard(p, segment, i)| <= ISIZE_MAX
  {
    StoredShardLen(p, segment, i);
    PrefixBounded(p, |segment|, i, NumStripes(p, |segment|));
    if i < p.data { DataLenClosedForm(p, |segment|, i); }
  }

  // ---- round trips through the gateway ----

  lemma BlockWithinBody(blocks: seq<BlockLocation>, i: nat)
    requires i < |blocks|
    ensures blocks[i].extent.length <= TotalLen(blocks)
  {
    TotalLenMono(blocks, i + 1);
    TotalLenNext(blocks, i);
  }

  /** Blocks of a body that fits, fit. */
  lemma BlocksFit(digest: Digest, nodes: Cluster, pipeline: Pipeline, blocks: seq<BlockLocation>, body: seq<byte>)
    requires Stored(digest, nodes, blocks, body) && OnPipeline(blocks, pipeline)
    requires pipeline.ec.Layable() ==> Fits(pipeline.ec, |body|)
    ensures AllFit(blocks) && forall i :: 0 <= i < |blocks| ==> blocks[i].extent.length <= USIZE_MAX
  {
    hide ShardWritten, TotalLen, Segment, ValidConfig, Times, NumStripes;
    forall i | 0 <= i < |blocks| ensures Fits(blocks[i].pipeline.ec, blocks[i].extent.length) {
      assert GroupWritten(digest, nodes, blocks[i], Segment(blocks, body, i));
      BlockWithinBody(blocks, i);
      ShorterFits(pipeline.ec, blocks[i].extent.length, |body|);
    }
  }

  /** GET an object the gateway holds from what is left of the cluster. */
  method GetHeld(backend: Backend, name: KeyName, after: Cluster, net: Network)
      returns (got: Result<seq<byte>, GatewayError>)
    requires backend.Valid() && name in backend.objects && Ideal(backend.digest)
    requires backend.om.cfg.pipeline.ec.Layable() ==> Fits(backend.om.cfg.pipeline.ec, |backend.objects[name]|)
    ensures name in backend.om.keys && ReadOutcome(backend.digest, after, net, backend.om.keys[name].blocks, got)
    ensures ClusterDamaged(backend.nodes, after) ==>
      if Tolerable(backend.nodes, after, net, backend.om.keys[name].blocks) then got == Ok(backend.objects[name])
      else got.Err? && got.error.Ec? && got.error.stripe.NotEnoughShards?
  {
    hide Stored, ClusterDamaged, Tolerable, Ideal, ReadOutcome, PartsHeld, AllBelow, Fits;
    ghost var blocks, body := backend.om.keys[name].blocks, backend.objects[name];
    BlocksFit(backend.digest, backend.nodes, backend.om.cfg.pipeline, blocks, body);
    got := GetObject(backend.om, backend.digest, after, net, name);
    if ClusterDamaged(backend.nodes, after) {
      StoredIsRead(backend.digest, backend.nodes, after, net, blocks, body, got);
    }
  }

  /** PUT, any damage, GET: the body if and only if no group lost more than p shards. */
  method PutThenGet(backend: Backend, name: KeyName, body: seq<byte>, etag: string,
      lose: Cluster -> Cluster, net: Network)
    returns (put: Result<(), GatewayError>, got: Result<seq<byte>, GatewayError>)
    requires backend.groupSize > 0 && backend.Valid() && Ideal(backend.digest)
    requires backend.om.cfg.pipeline.ec.Layable() ==> Fits(backend.om.cfg.pipeline.ec, |body|)
    modifies backend, backend.om
    ensures backend.Valid() && (put.Ok? ==> name in backend.om.keys)
    ensures put.Ok? && ClusterDamaged(backend.nodes, lose(backend.nodes)) ==>
      (got == Ok(body) <==> Tolerable(backend.nodes, lose(backend.nodes), net, backend.om.keys[name].blocks))
    ensures var first, size := old(backend.om.nextContainer), backend.groupSize;
      backend.Quiet() && BodyReady(old(backend.nodes), backend.om.cfg.pipeline, first, |body|, size) ==> put.Ok?
  {
    hide ClusterDamaged, Tolerable, Ideal, BodyReady, Backend.Valid, Fits, ReadOutcome;
    put := backend.PutObject(name, body, etag);
    if put.Err? {
      return put, Err(put.error);
    }
    got := GetHeld(backend, name, lose(backend.nodes), net);
  }

  // ---- a multipart upload, from its first part to its GET ----

  function Joined(bodies: seq<seq<byte>>): seq<byte> {
    if bodies == [] then [] else Joined(bodies[..|bodies| - 1]) + bodies[|bodies| - 1]
  }

  /** Parts 1 to n of the upload hold the first n bodies. */
  ghost predicate PartsAre(parts: map<(nat, nat), seq<byte>>, upload: nat, bodies: seq<seq<byte>>, n: nat)
    requires n <= |bodies|
  {
    forall i :: 0 <= i < n ==> PartIs(parts, upload, i + 1, bodies[i])
  }

  ghost predicate PartIs(parts: map<(nat, nat), seq<byte>>, upload: nat, number: nat, body: seq<byte>) {
    (upload, number) in parts && parts[(upload, number)] == body
  }

  lemma NextPart(parts: map<(nat, nat), seq<byte>>, upload: nat, bodies: seq<seq<byte>>, n: nat)
    requires n < |bodies| && PartsAre(parts, upload, bodies, n)
    ensures PartsAre(parts[(upload, n + 1) := bodies[n]], upload, bodies, n + 1)
  {
    forall i | 0 <= i < n ensures PartIs(parts[(upload, n + 1) := bodies[n]], upload, i + 1, bodies[i]) {
      assert PartIs(parts, upload, i + 1, bodies[i]);
    }
  }

  function Numbers(n: nat): (r: seq<nat>)
    ensures |r| == n && forall i :: 0 <= i < n ==> r[i] == i + 1
  {
    seq(n, i => i + 1)
  }

  lemma {:induction false} JoinedParts(parts: map<(nat, nat), seq<byte>>, upload: nat, bodies: seq<seq<byte>>, n: nat)
    requires n <= |bodies| && PartsAre(parts, upload, bodies, n)
    ensures AllKnown(parts, upload, Refs(Numbers(n)))
      && JoinedBodies(parts, upload, Refs(Numbers(n))) == Joined(bodies[..n])
  {
    if n > 0 {
      assert PartsAre(parts, upload, bodies, n - 1);
      JoinedParts(parts, upload, bodies, n - 1);
      var refs := Refs(Numbers(n));
      assert PartIs(parts, upload, n, bodies[n - 1]);
      forall i | 0 <= i < |refs| ensures (upload, refs[i].number) in parts {
        assert PartIs(parts, upload, i + 1, bodies[i]);
      }
      assert refs[..n - 1] == Refs(Numbers(n - 1));
      assert bodies[..n][..n - 1] == bodies[..n - 1];
    }
  }

  lemma NoParts(parts: map<(nat, nat), seq<byte>>, upload: nat, bodies: seq<seq<byte>>)
    ensures PartsAre(parts, upload, bodies, 0)
  {}

  lemma CompletedJoins(objects: map<KeyName, seq<byte>>, parts: map<(nat, nat), seq<byte>>, name: KeyName,
      upload: nat, bodies: seq<seq<byte>>)
    requires PartsAre(parts, upload, bodies, |bodies|)
    ensures AfterComplete(objects, parts, name, upload, Refs(Numbers(|bodies|))) == objects[name := Joined(bodies)]
  {
    JoinedParts(parts, upload, bodies, |bodies|);
    assert bodies[..|bodies|] == bodies;
  }

  /** There are parts, not too many, and all but the last are large enough. */
  predicate Uploadable(bodies: seq<seq<byte>>) {
    1 <= |bodies| <= MAX_PART_NUMBER && forall i :: 0 <= i < |bodies| - 1 ==> |bodies[i]| >= MIN_PART_SIZE
  }

  /** The pipeline takes every part; each part's first group has a container of its own. */
  ghost predicate UploadReady(nodes: Cluster, pipeline: Pipeline, first: nat, bodies: seq<seq<byte>>, groupSize: nat) {
    forall i :: 0 <= i < |bodies| ==> BodyReady(nodes, pipeline, first + i, |bodies[i]|, groupSize)
  }

  /** The upload records parts 1 to n with the sizes of the first n bodies. */
  predicate SizesAre(uploads: map<nat, Upload>, upload: nat, bodies: seq<seq<byte>>, n: nat)
    requires n <= |bodies|
  {
    upload in uploads && forall i :: 0 <= i < n ==> SizeIs(uploads[upload].parts, i + 1, |bodies[i]|)
  }

  predicate SizeIs(parts: map<nat, Part>, number: nat, size: nat) {
    number in parts && parts[number].size == size
  }

  lemma NextSize(uploads: map<nat, Upload>, upload: nat, bodies: seq<seq<byte>>, n: nat, part: Part)
    requires n < |bodies| && SizesAre(uploads, upload, bodies, n) && part.size == |bodies[n]|
    ensures SizesAre(uploads[upload := uploads[upload].(parts := uploads[upload].parts[n + 1 := part])], upload, bodies,
      n + 1)
  {
    var parts := uploads[upload].parts;
    forall i | 0 <= i < n ensures SizeIs(parts[n + 1 := part], i + 1, |bodies[i]|) {
      assert SizeIs(parts, i + 1, |bodies[i]|);
    }
  }

  lemma CanComplete(om: OmState, upload: nat, bodies: seq<seq<byte>>)
    requires SizesAre(om.uploads, upload, bodies, |bodies|) && Uploadable(bodies)
    ensures CompleteError(om, upload, Refs(Numbers(|bodies|))).None?
  {
    var refs, parts := Refs(Numbers(|bodies|)), om.uploads[upload].parts;
    forall i | 0 <= i < |bodies| ensures refs[i].number in parts && parts[refs[i].number].size == |bodies[i]| {
      assert SizeIs(parts, i + 1, |bodies[i]|);
    }
    NoBadPart(parts, refs, 0);
    hide FirstBadPart;
  }

  /** Upload body n as the next part. */
  method UploadNext(backend: Backend, upload: nat, bodies: seq<seq<byte>>, n: nat, etag: string, ghost nodes0: Cluster,
      ghost first: nat) returns (r: Result<(), GatewayError>)
    requires backend.groupSize > 0 && backend.Valid() && n < |bodies|
    requires PartsAre(backend.parts, upload, bodies, n) && SizesAre(backend.om.uploads, upload, bodies, n)
    requires StillReceptive(nodes0, backend.nodes) && backend.om.nextContainer == first + n
    modifies backend, backend.om
    ensures backend.Valid() && backend.objects == old(backend.objects)
    ensures r.Ok? ==> PartsAre(backend.parts, upload, bodies, n + 1)
    ensures r.Ok? ==> SizesAre(backend.om.uploads, upload, bodies, n + 1)
    ensures r.Ok? ==> StillReceptive(nodes0, backend.nodes) && backend.om.nextContainer == first + n + 1
    ensures backend.Quiet() && Uploadable(bodies) ==>
      UploadReady(nodes0, backend.om.cfg.pipeline, first, bodies, backend.groupSize) ==> r.Ok?
  {
    hide Backend.Valid, Stored, OnlyFrom, StillReceptive, BodyReady, PartsAre, Backend.Quiet;
    ghost var uploads, nodes1 := backend.om.uploads, backend.nodes;
    NextPart(backend.parts, upload, bodies, n);
    if UploadReady(nodes0, backend.om.cfg.pipeline, first, bodies, backend.groupSize) {
      BodyStaysReady(nodes0, nodes1, backend.om.cfg.pipeline, first + n, |bodies[n]|, backend.groupSize);
    }
    r := backend.UploadPart(upload, n + 1, bodies[n], etag);
    if r.Ok? {
      NextSize(uploads, upload, bodies, n, backend.om.uploads[upload].parts[n + 1]);
      ReceptiveTrans(nodes0, nodes1, backend.nodes);
    }
  }

  /** Initiate, upload every body as the next part, and complete. */
  method UploadAll(backend: Backend, name: KeyName, bodies: seq<seq<byte>>, etags: nat -> string)
      returns (r: Result<string, GatewayError>)
    requires backend.groupSize > 0 && backend.Valid()
    modifies backend, backend.om
    ensures backend.Valid()
    ensures r.Ok? ==> backend.objects == old(backend.objects)[name := Joined(bodies)] && name in backend.om.keys
    ensures r.Err? ==> backend.objects == old(backend.objects)
    ensures var first, size := old(backend.om.nextContainer), backend.groupSize;
      backend.Quiet() && Uploadable(bodies) ==>
        UploadReady(old(backend.nodes), backend.om.cfg.pipeline, first, bodies, size) ==> r.Ok?
  {
    hide Backend.Valid, Joined, Stored, StillReceptive, PartsAre, AfterComplete, CompleteError,
      Backend.Quiet, Uploadable, UploadReady;
    var u := backend.InitiateUpload(name);
    if u.Err? {
      return Err(u.error);
    }
    NoParts(backend.parts, u.value, bodies);
    SameReceptive(backend.nodes);
    for i := 0 to |bodies|
      invariant backend.Valid() && backend.objects == old(backend.objects)
      invariant PartsAre(backend.parts, u.value, bodies, i) && SizesAre(backend.om.uploads, u.value, bodies, i)
      invariant StillReceptive(old(backend.nodes), backend.nodes)
        && backend.om.nextContainer == old(backend.om.nextContainer) + i
    {
      hide SizesAre;
      var p := UploadNext(backend, u.value, bodies, i, etags(i), old(backend.nodes), old(backend.om.nextContainer));
      if p.Err? {
        return Err(p.error);
      }
    }
    hide SizesAre;
    CompletedJoins(backend.objects, backend.parts, name, u.value, bodies);
    if Uploadable(bodies) {
      CanComplete(backend.om.View(), u.value, bodies);
    }
    r := backend.CompleteUpload(name, u.value, Numbers(|bodies|));
  }

  /** Upload, complete, any damage, GET: the concatenation if and only if no group lost more than p shards. */
  method UploadThenGet(backend: Backend, name: KeyName, bodies: seq<seq<byte>>, etags: nat -> string,
      lose: Cluster -> Cluster, net: Network)
    returns (put: Result<string, GatewayError>, got: Result<seq<byte>, GatewayError>)
    requires backend.groupSize > 0 && backend.Valid() && Ideal(backend.digest)
    requires backend.om.cfg.pipeline.ec.Layable() ==> Fits(backend.om.cfg.pipeline.ec, |Joined(bodies)|)
    modifies backend, backend.om
    ensures backend.Valid() && (put.Ok? ==> name in backend.om.keys)
    ensures put.Ok? && ClusterDamaged(backend.nodes, lose(backend.nodes)) ==>
      (got == Ok(Joined(bodies)) <==> Tolerable(backend.nodes, lose(backend.nodes), net, backend.om.keys[name].blocks))
    ensures var first, size := old(backend.om.nextContainer), backend.groupSize;
      backend.Quiet() && Uploadable(bodies) ==>
        UploadReady(old(backend.nodes), backend.om.cfg.pipeline, first, bodies, size) ==> put.Ok?
  {
    hide ClusterDamaged, Tolerable, Ideal, Backend.Valid, Fits, Joined, ReadOutcome, Uploadable, UploadReady;
    put := UploadAll(backend, name, bodies, etags);
    if put.Err? {
      return put, Err(put.error);
    }
    got := GetHeld(backend, name, lose(backend.nodes), net);
  }
}
