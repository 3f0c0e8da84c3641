/** The object data path of crates/ozone-s3-gw/src/backend.rs: bodies are cut into block groups,
    each group is encoded, and its shards go to the pipeline members by replica index. */
module Gateway {
  import opened Wrappers
  import opened ReedSolomon
  import opened Checksum
  import opened Layout
  import opened Shards
  import opened ShardBytes
  import opened Stripe
  import opened MetaStore
  import opened Datanode
  import opened Om

  type Cluster = map<string, Node>

  datatype GatewayError =
    | NoMember(slot: nat)
    | Unreachable(endpoint: string)
    | Refused(error: StorageError)
    | Corrupt(checksum: ChecksumError)
    | Ec(stripe: StripeError)
    | Manager(om: OmError)
    | ManagerDown

  /** The first member that holds this replica index, wherever it stands in the list. */
  function EndpointFor(members: seq<DatanodeSlot>, slot: nat): Option<string> {
    if members == [] then None
    else if members[0].replicaIndex == slot then Some(members[0].endpoint)
    else EndpointFor(members[1..], slot)
  }

  /** Member x is the first that holds the replica index. */
  ghost predicate Holder(members: seq<DatanodeSlot>, slot: nat, x: nat) {
    && x < |members| && members[x].replicaIndex == slot
    && forall y: nat :: y < x ==> members[y].replicaIndex != slot
  }

  /** No member holds the replica index. */
  predicate Unassigned(members: seq<DatanodeSlot>, slot: nat) {
    forall x: nat :: x < |members| ==> members[x].replicaIndex != slot
  }

  /** A slot's endpoint is that of the first member with its replica index; there is none only if no member has it. */
  lemma {:induction false} EndpointIs(members: seq<DatanodeSlot>, slot: nat)
    ensures var e := EndpointFor(members, slot);
      && (e.None? <==> Unassigned(members, slot))
      && (e.Some? ==> exists x: nat :: Holder(members, slot, x) && members[x].endpoint == e.value)
  {
    if members != [] {
      var rest := members[1..];
      assert forall x: nat :: x < |rest| ==> rest[x] == members[x + 1];
      if members[0].replicaIndex == slot {
        assert Holder(members, slot, 0);
      } else {
        EndpointIs(rest, slot);
        if EndpointFor(rest, slot).Some? {
          var x: nat :| Holder(rest, slot, x) && rest[x].endpoint == EndpointFor(rest, slot).value;
          HolderShifts(members, slot, x);
        }
        assert Unassigned(rest, slot) <==> Unassigned(members, slot) by {
          if Unassigned(members, slot) {
            forall x: nat | x < |rest| ensures rest[x].replicaIndex != slot {
              assert members[x + 1].replicaIndex != slot;
            }
          }
          if Unassigned(rest, slot) {
            forall x: nat | x < |members| ensures members[x].replicaIndex != slot {
              if x > 0 { assert rest[x - 1].replicaIndex != slot; }
            }
          }
        }
      }
    }
  }

  lemma HolderShifts(members: seq<DatanodeSlot>, slot: nat, x: nat)
    requires members != [] && members[0].replicaIndex != slot && Holder(members[1..], slot, x)
    ensures Holder(members, slot, x + 1)
  {
    var rest := members[1..];
    assert forall y: nat :: y < |rest| ==> rest[y] == members[y + 1];
    forall y: nat | y < x + 1 ensures members[y].replicaIndex != slot {
      if y > 0 { assert rest[y - 1].replicaIndex != slot; }
    }
  }

  lemma EndpointOf(members: seq<DatanodeSlot>, slot: nat, x: nat)
    requires Holder(members, slot, x)
    ensures EndpointFor(members, slot) == Some(members[x].endpoint)
  {
    EndpointIs(members, slot);
    hide EndpointFor;
  }

  ghost predicate DistinctIndices(members: seq<DatanodeSlot>) {
    forall x, y :: 0 <= x < |members| && 0 <= y < |members| && members[x].replicaIndex == members[y].replicaIndex ==>
      x == y
  }

  /** The order in which members with distinct replica indices are listed does not matter. */
  lemma EndpointIgnoresOrder(a: seq<DatanodeSlot>, b: seq<DatanodeSlot>, slot: nat)
    requires DistinctIndices(a) && DistinctIndices(b) && forall m :: m in a <==> m in b
    ensures EndpointFor(a, slot) == EndpointFor(b, slot)
  {
    EndpointIs(a, slot);
    EndpointIs(b, slot);
    hide EndpointFor;
    if x: nat :| x < |a| && a[x].replicaIndex == slot {
      assert a[x] in b;
      var y: nat :| y < |b| && b[y] == a[x];
      assert Holder(a, slot, x) && Holder(b, slot, y);
      EndpointOf(a, slot, x);
      EndpointOf(b, slot, y);
    } else {
      forall y: nat | y < |b| ensures b[y].replicaIndex != slot { assert b[y] in a; }
    }
  }

  function ShardId(block: BlockLocation, slot: nat): BlockId {
    BlockId(block.extent.container, block.extent.local, slot)
  }

  // ---- what is stored ----

  /** The node of the slot's member holds the segment's shard and its record. */
  ghost predicate ShardWritten(digest: Digest, nodes: Cluster, block: BlockLocation, slot: nat, segment: seq<byte>) {
    var p, id, e := block.pipeline.ec, ShardId(block, slot), EndpointFor(block.pipeline.members, slot);
    && 1 <= slot <= p.Total() && p.Layable() && ValidConfig(p.Config())
    && e.Some? && e.value in nodes
    && id in nodes[e.value].chunks && nodes[e.value].chunks[id] == StoredShard(p, segment, slot - 1)
    && id in nodes[e.value].meta.blocks
    && nodes[e.value].meta.blocks[id] == RecordFor(digest, p, id, |segment|, StoredShard(p, segment, slot - 1))
  }

  /** The node at this endpoint holds shard slot - 1 of the segment and its record, under the block's own id. */
  ghost predicate NodeHolds(digest: Digest, nodes: Cluster, endpoint: string, block: BlockLocation, slot: nat,
      segment: seq<byte>)
    requires 1 <= slot <= block.pipeline.ec.Total() && block.pipeline.ec.Layable()
      && ValidConfig(block.pipeline.ec.Config())
  {
    var shard := StoredShard(block.pipeline.ec, segment, slot - 1);
    var id := BlockId(block.extent.container, block.extent.local, slot);
    && endpoint in nodes
    && id in nodes[endpoint].chunks && nodes[endpoint].chunks[id] == shard
    && id in nodes[endpoint].meta.blocks
    && nodes[endpoint].meta.blocks[id] == RecordFor(digest, block.pipeline.ec, id, |segment|, shard)
  }

  ghost predicate MemberHolds(digest: Digest, nodes: Cluster, block: BlockLocation, slot: nat, segment: seq<byte>)
    requires 1 <= slot <= block.pipeline.ec.Total() && block.pipeline.ec.Layable()
      && ValidConfig(block.pipeline.ec.Config())
  {
    exists x: nat ::
      && Holder(block.pipeline.members, slot, x)
      && NodeHolds(digest, nodes, block.pipeline.members[x].endpoint, block, slot, segment)
  }

  /** A shard is written if and only if the first member with that replica index holds it. */
  lemma WrittenIs(digest: Digest, nodes: Cluster, block: BlockLocation, slot: nat, segment: seq<byte>)
    requires 1 <= slot <= block.pipeline.ec.Total() && block.pipeline.ec.Layable()
      && ValidConfig(block.pipeline.ec.Config())
    ensures ShardWritten(digest, nodes, block, slot, segment) <==> MemberHolds(digest, nodes, block, slot, segment)
  {
    hide StoredShard, RecordFor, ValidConfig, EndpointFor, Holder, Unassigned;
    var members := block.pipeline.members;
    EndpointIs(members, slot);
    forall x: nat | Holder(members, slot, x)
      ensures x < |members| && EndpointFor(members, slot) == Some(members[x].endpoint)
    {
      HolderIn(members, slot, x);
      EndpointOf(members, slot, x);
    }
  }

  lemma HolderIn(members: seq<DatanodeSlot>, slot: nat, x: nat)
    requires Holder(members, slot, x)
    ensures x < |members|
  {}

  ghost predicate GroupWritten(digest: Digest, nodes: Cluster, block: BlockLocation, segment: seq<byte>) {
    && block.pipeline.ec.Layable() && ValidConfig(block.pipeline.ec.Config())
    && forall slot :: 1 <= slot <= block.pipeline.ec.Total() ==> ShardWritten(digest, nodes, block, slot, segment)
  }

  function TotalLen(blocks: seq<BlockLocation>): nat {
    if blocks == [] then 0 else TotalLen(blocks[..|blocks| - 1]) + blocks[|blocks| - 1].extent.length
  }

  lemma {:induction false} TotalLenMono(blocks: seq<BlockLocation>, i: nat)
    requires i <= |blocks|
    ensures TotalLen(blocks[..i]) <= TotalLen(blocks)
  {
    if i == |blocks| {
      assert blocks[..i] == blocks;
    } else {
      TotalLenMono(blocks[..|blocks| - 1], i);
      assert blocks[..|blocks| - 1][..i] == blocks[..i];
    }
  }

  /** The bytes of the body that the i-th block covers. */
  function Segment(blocks: seq<BlockLocation>, body: seq<byte>, i: nat): (r: seq<byte>)
    requires i < |blocks| && |body| == TotalLen(blocks)
    ensures |r| == blocks[i].extent.length
  {
    TotalLenMono(blocks, i + 1);
    TotalLenNext(blocks, i);
    body[TotalLen(blocks[..i])..TotalLen(blocks[..i + 1])]
  }

  lemma TotalLenNext(blocks: seq<BlockLocation>, i: nat)
    requires i < |blocks|
    ensures TotalLen(blocks[..i + 1]) == TotalLen(blocks[..i]) + blocks[i].extent.length
  {
    assert blocks[..i + 1][..i] == blocks[..i];
  }

  /** Block by block, the cluster holds the encoded body. */
  ghost predicate Stored(digest: Digest, nodes: Cluster, blocks: seq<BlockLocation>, body: seq<byte>) {
    && |body| == TotalLen(blocks)
    && forall i :: 0 <= i < |blocks| ==> GroupWritten(digest, nodes, blocks[i], Segment(blocks, body, i))
  }

  lemma {:induction false} TotalLenJoin(a: seq<BlockLocation>, b: seq<BlockLocation>)
    ensures TotalLen(a + b) == TotalLen(a) + TotalLen(b)
  {
    if b == [] {
      assert a + b == a;
    } else {
      var n := |b| - 1;
      TotalLenJoin(a, b[..n]);
      assert (a + b)[..|a| + n] == a + b[..n];
    }
  }

  lemma PrefixOfJoin(a: seq<BlockLocation>, b: seq<BlockLocation>, j: nat)
    requires j <= |b|
    ensures (a + b)[..|a| + j] == a + b[..j]
  {}

  lemma SegmentAt(blocks: seq<BlockLocation>, body: seq<byte>, i: nat, lo: nat)
    requires i < |blocks| && |body| == TotalLen(blocks) && lo == TotalLen(blocks[..i])
    ensures lo + blocks[i].extent.length <= |body| && Segment(blocks, body, i) == body[lo..lo + blocks[i].extent.length]
  {
    TotalLenNext(blocks, i);
    TotalLenMono(blocks, i + 1);
    hide TotalLen;
  }

  lemma FirstSegments(a: seq<BlockLocation>, x: seq<byte>, b: seq<BlockLocation>, y: seq<byte>, i: nat)
    requires |x| == TotalLen(a) && |x + y| == TotalLen(a + b) && i < |a|
    ensures Segment(a + b, x + y, i) == Segment(a, x, i)
  {
    assert (a + b)[..i] == a[..i];
    hide TotalLen, Segment;
    var lo := TotalLen(a[..i]);
    SegmentAt(a + b, x + y, i, lo);
    SegmentAt(a, x, i, lo);
    SliceOfJoin(x, y, lo, lo + a[i].extent.length);
  }

  lemma LastSegments(a: seq<BlockLocation>, x: seq<byte>, b: seq<BlockLocation>, y: seq<byte>, j: nat)
    requires |x| == TotalLen(a) && |y| == TotalLen(b) && |x + y| == TotalLen(a + b) && j < |b|
    ensures Segment(a + b, x + y, |a| + j) == Segment(b, y, j)
  {
    hide TotalLen, Segment;
    PrefixOfJoin(a, b, j);
    TotalLenJoin(a, b[..j]);
    var lo := TotalLen(b[..j]);
    SegmentAt(a + b, x + y, |a| + j, |x| + lo);
    SegmentAt(b, y, j, lo);
    SliceOfJoin(x, y, |x| + lo, |x| + lo + b[j].extent.length);
  }

  lemma SliceOfJoin(x: seq<byte>, y: seq<byte>, i: nat, j: nat)
    requires i <= j <= |x| + |y|
    ensures j <= |x| ==> (x + y)[i..j] == x[i..j]
    ensures i >= |x| ==> (x + y)[i..j] == y[i - |x|..j - |x|]
  {}

  /** Bodies stored one after the other read as one. */
  lemma StoredJoin(digest: Digest, nodes: Cluster, a: seq<BlockLocation>, x: seq<byte>,
      b: seq<BlockLocation>, y: seq<byte>)
    requires Stored(digest, nodes, a, x) && Stored(digest, nodes, b, y)
    ensures Stored(digest, nodes, a + b, x + y)
  {
    hide GroupWritten, TotalLen, Segment;
    TotalLenJoin(a, b);
    forall i | 0 <= i < |a + b|
      ensures GroupWritten(digest, nodes, (a + b)[i], Segment(a + b, x + y, i))
    {
      if i < |a| {
        FirstSegments(a, x, b, y, i);
      } else {
        LastSegments(a, x, b, y, i - |a|);
      }
    }
  }

  /** The two clusters agree on everything stored under this id. */
  ghost predicate SameAt(m: Cluster, n: Cluster, id: BlockId) {
    m.Keys == n.Keys && forall e :: e in m ==> NodeSameAt(m[e], n[e], id)
  }

  predicate NodeSameAt(m: Node, n: Node, id: BlockId) {
    && (id in m.chunks <==> id in n.chunks) && (id in m.chunks ==> m.chunks[id] == n.chunks[id])
    && (id in m.meta.blocks <==> id in n.meta.blocks) && (id in m.meta.blocks ==>
      m.meta.blocks[id] == n.meta.blocks[id])
  }

  lemma StillWritten(digest: Digest, m: Cluster, n: Cluster, block: BlockLocation, slot: nat, segment: seq<byte>)
    requires ShardWritten(digest, m, block, slot, segment) && SameAt(m, n, ShardId(block, slot))
    ensures ShardWritten(digest, n, block, slot, segment)
  {
    hide StoredShard, RecordFor, ValidConfig;
    var e := EndpointFor(block.pipeline.members, slot).value;
    assert NodeSameAt(m[e], n[e], ShardId(block, slot));
  }

  /** Writing under one local id leaves the rest of the cluster alone. */
  ghost predicate OnlyLocal(m: Cluster, n: Cluster, local: nat) {
    m.Keys == n.Keys && forall id: BlockId :: id.local != local ==> SameAt(m, n, id)
  }

  /** Only local ids from `from` on have been written. */
  ghost predicate OnlyFrom(m: Cluster, n: Cluster, from: nat) {
    m.Keys == n.Keys && forall id: BlockId :: id.local < from ==> SameAt(m, n, id)
  }

  lemma Unchanged(m: Cluster, id: BlockId)
    ensures SameAt(m, m, id)
  {}

  lemma CreateFrame(m: Meta, info: ContainerInfo)
    ensures Create(m, info).0.blocks == m.blocks
  {}

  lemma PutOne(m: Meta, bd: BlockData)
    ensures PutBlock(m, bd).0.blocks == if PutBlock(m, bd).1.Ok? then m.blocks[bd.id := bd] else m.blocks
  {
    hide ChunkBytes;
  }

  lemma NodeChanged(m: Cluster, n: Cluster, e: string, id: BlockId)
    requires e in m && e in n && n == m[e := n[e]]
    requires n[e].chunks - {id} == m[e].chunks - {id} && n[e].meta.blocks - {id} == m[e].meta.blocks - {id}
    ensures forall other :: other != id ==> SameAt(m, n, other)
  {
    forall other | other != id
      ensures NodeSameAt(m[e], n[e], other)
    {
      assert other in m[e].chunks <==> other in m[e].chunks - {id};
      assert other in n[e].chunks <==> other in n[e].chunks - {id};
      assert other in m[e].meta.blocks <==> other in m[e].meta.blocks - {id};
      assert other in n[e].meta.blocks <==> other in n[e].meta.blocks - {id};
    }
  }

  /** The shard and its record, as `write_chunk` and `put_block` leave them. */
  lemma NowWritten(digest: Digest, nodes: Cluster, block: BlockLocation, slot: nat, segment: seq<byte>, e: string)
    requires 1 <= slot <= block.pipeline.ec.Total() && block.pipeline.ec.Layable()
      && ValidConfig(block.pipeline.ec.Config())
    requires EndpointFor(block.pipeline.members, slot) == Some(e) && e in nodes
    requires var p, id := block.pipeline.ec, ShardId(block, slot);
             var shard := StoredShard(p, segment, slot - 1);
             && id in nodes[e].chunks && nodes[e].chunks[id] == shard
             && id in nodes[e].meta.blocks && nodes[e].meta.blocks[id] == RecordFor(digest, p, id, |segment|, shard)
    ensures ShardWritten(digest, nodes, block, slot, segment)
  {}

  lemma RecordShape(digest: Digest, p: Profile, id: BlockId, len: nat, bytes: seq<byte>)
    ensures var bd := RecordFor(digest, p, id, len, bytes);
      bd.id == id && |bd.chunks| == 1 && bd.chunks[0].checksum.Some?
  {}

  lemma RecordVerifies(digest: Digest, p: Profile, id: BlockId, len: nat, bytes: seq<byte>)
    ensures VerifyOutcome(digest, bytes, RecordFor(digest, p, id, len, bytes).chunks[0].checksum.value).Ok?
  {
    VerifyOwn(digest, bytes, p.chunkSize);
  }

  lemma SameTrans(l: Cluster, m: Cluster, n: Cluster, id: BlockId)
    requires SameAt(l, m, id) && SameAt(m, n, id)
    ensures SameAt(l, n, id)
  {
    forall e | e in l ensures NodeSameAt(l[e], n[e], id) {
      assert NodeSameAt(l[e], m[e], id) && NodeSameAt(m[e], n[e], id);
    }
  }

  lemma GroupStays(digest: Digest, m: Cluster, n: Cluster, block: BlockLocation, segment: seq<byte>)
    requires GroupWritten(digest, m, block, segment)
    requires forall slot :: 1 <= slot <= block.pipeline.ec.Total() ==> SameAt(m, n, ShardId(block, slot))
    ensures GroupWritten(digest, n, block, segment)
  {
    hide ShardWritten, SameAt, ValidConfig;
    forall slot | 1 <= slot <= block.pipeline.ec.Total()
      ensures ShardWritten(digest, n, block, slot, segment)
    {
      StillWritten(digest, m, n, block, slot, segment);
    }
  }

  /** What is stored under other local ids stays stored. */
  lemma StoredStays(digest: Digest, m: Cluster, n: Cluster, blocks: seq<BlockLocation>, body: seq<byte>)
    requires Stored(digest, m, blocks, body)
    requires forall i, slot :: 0 <= i < |blocks| && 1 <= slot <= blocks[i].pipeline.ec.Total() ==>
      SameAt(m, n, ShardId(blocks[i], slot))
    ensures Stored(digest, n, blocks, body)
  {
    hide GroupWritten, TotalLen, Segment, SameAt, ShardId;
    forall i | 0 <= i < |blocks|
      ensures GroupWritten(digest, n, blocks[i], Segment(blocks, body, i))
    {
      GroupStays(digest, m, n, blocks[i], Segment(blocks, body, i));
    }
  }

  /** A group does not depend on the length recorded in its location. */
  lemma GroupResized(digest: Digest, nodes: Cluster, block: BlockLocation, segment: seq<byte>, len: nat)
    requires GroupWritten(digest, nodes, block, segment)
    ensures GroupWritten(digest, nodes, block.(extent := block.extent.(length := len)), segment)
  {
    hide ValidConfig, StoredShard;
    var resized := block.(extent := block.extent.(length := len));
    forall slot | 1 <= slot <= block.pipeline.ec.Total()
      ensures ShardWritten(digest, nodes, resized, slot, segment)
    {
      assert ShardWritten(digest, nodes, block, slot, segment);
    }
  }

  lemma OneGroup(digest: Digest, nodes: Cluster, block: BlockLocation, segment: seq<byte>)
    requires GroupWritten(digest, nodes, block, segment) && block.extent.length == |segment|
    ensures Stored(digest, nodes, [block], segment)
  {
    hide GroupWritten;
    var blocks := [block];
    assert blocks[..0] == [] && blocks[..1] == blocks;
    assert Segment(blocks, segment, 0) == segment;
  }

  /** Every block was allocated between the two counters. */
  predicate LocalsWithin(extents: seq<Extent>, from: nat, to: nat) {
    forall i :: 0 <= i < |extents| ==> from <= extents[i].local < to
  }

  /** Extent i of a body cut into groups: its block's ids, and how much of the body it takes. */
  predicate Placed(extents: seq<Extent>, i: nat, groupSize: nat, container: nat, local: nat)
    requires i < |extents|
  {
    && extents[i].container == (if i == 0 then container else 1) && extents[i].local == local + i
    && extents[i].offset == 0 && 0 < extents[i].length <= groupSize
    && (i + 1 < |extents| ==> extents[i].length == groupSize)
  }

  /** Every group but the last is full; the first goes to `container`, the rest to container 1, in new blocks. */
  ghost predicate CutInto(extents: seq<Extent>, groupSize: nat, container: nat, local: nat) {
    forall i: nat :: i < |extents| ==> Placed(extents, i, groupSize, container, local)
  }

  lemma CutNone(groupSize: nat, container: nat, local: nat)
    ensures CutInto([], groupSize, container, local)
  {}

  lemma CutNext(extents: seq<Extent>, next: Extent, groupSize: nat, container: nat, local: nat)
    requires CutInto(extents, groupSize, container, local)
    requires extents != [] ==> extents[|extents| - 1].length == groupSize
    requires next.container == (if extents == [] then container else 1) && next.local == local + |extents|
    requires next.offset == 0 && 0 < next.length <= groupSize
    ensures CutInto(extents + [next], groupSize, container, local)
  {
    var all := extents + [next];
    forall i: nat | i < |all| ensures Placed(all, i, groupSize, container, local) {
      if i < |extents| { assert Placed(extents, i, groupSize, container, local); }
    }
  }

  /** One more group after the ones already stored. */
  lemma StoreNext(digest: Digest, m: Cluster, n: Cluster, pipeline: Pipeline, extents: seq<Extent>, done: seq<byte>,
      next: Extent, segment: seq<byte>, from: nat)
    requires Stored(digest, m, Attached(pipeline, extents), done) && LocalsWithin(extents, from, next.local)
      && OnlyLocal(m, n, next.local)
    requires GroupWritten(digest, n, BlockLocation(next, pipeline), segment) && next.length == |segment|
    ensures Stored(digest, n, Attached(pipeline, extents + [next]), done + segment)
  {
    hide SameAt, GroupWritten, Stored;
    var blocks, block := Attached(pipeline, extents), BlockLocation(next, pipeline);
    StoredStays(digest, m, n, blocks, done);
    OneGroup(digest, n, block, segment);
    StoredJoin(digest, n, blocks, done, [block], segment);
    assert Attached(pipeline, extents + [next]) == blocks + [block];
  }

  lemma OnlyFromNext(l: Cluster, m: Cluster, n: Cluster, from: nat, local: nat)
    requires OnlyFrom(l, m, from) && OnlyLocal(m, n, local) && from <= local
    ensures OnlyFrom(l, n, from)
  {
    hide SameAt;
    forall id: BlockId | id.local < from ensures SameAt(l, n, id) {
      SameTrans(l, m, n, id);
    }
  }

  predicate BlocksBelow(blocks: seq<BlockLocation>, to: nat) {
    forall i :: 0 <= i < |blocks| ==> blocks[i].extent.local < to
  }

  lemma Undisturbed(digest: Digest, m: Cluster, n: Cluster, blocks: seq<BlockLocation>, body: seq<byte>, from: nat)
    requires Stored(digest, m, blocks, body) && BlocksBelow(blocks, from) && OnlyFrom(m, n, from)
    ensures Stored(digest, n, blocks, body)
  {
    hide SameAt, Stored;
    StoredStays(digest, m, n, blocks, body);
  }

  // ---- when a write gets through ----

  predicate Receptive(n: Node, c: nat) {
    c in n.meta.containers ==> n.meta.containers[c].info.state.Open?
  }

  /** No node has become less receptive. */
  ghost predicate StillReceptive(m: Cluster, n: Cluster) {
    m.Keys == n.Keys && forall e, c :: e in m && Receptive(m[e], c) ==> Receptive(n[e], c)
  }

  /** The slot has a member, and its node takes the container. */
  ghost predicate SlotReady(nodes: Cluster, pipeline: Pipeline, c: nat, slot: nat) {
    var e := EndpointFor(pipeline.members, slot);
    e.Some? && e.value in nodes && Receptive(nodes[e.value], c)
  }

  /** Every slot takes shards of container c. */
  ghost predicate PipelineReady(nodes: Cluster, pipeline: Pipeline, c: nat) {
    && pipeline.ec.Layable() && ValidConfig(pipeline.ec.Config())
    && forall slot :: 1 <= slot <= pipeline.ec.Total() ==> SlotReady(nodes, pipeline, c, slot)
  }

  lemma StaysReady(m: Cluster, n: Cluster, pipeline: Pipeline, c: nat)
    requires StillReceptive(m, n)
    ensures PipelineReady(m, pipeline, c) ==> PipelineReady(n, pipeline, c)
  {
    hide Receptive, ValidConfig;
    if PipelineReady(m, pipeline, c) {
      forall slot | 1 <= slot <= pipeline.ec.Total() ensures SlotReady(n, pipeline, c, slot) {
        assert SlotReady(m, pipeline, c, slot);
      }
    }
  }

  /** The pipeline takes a body of this length whose first group goes to container `first`; later groups go to container
      1. */
  ghost predicate BodyReady(nodes: Cluster, pipeline: Pipeline, first: nat, len: nat, groupSize: nat) {
    (len > 0 ==> PipelineReady(nodes, pipeline, first)) && (len > groupSize ==> PipelineReady(nodes, pipeline, 1))
  }

  lemma BodyStaysReady(m: Cluster, n: Cluster, pipeline: Pipeline, first: nat, len: nat, groupSize: nat)
    requires StillReceptive(m, n) && BodyReady(m, pipeline, first, len, groupSize)
    ensures BodyReady(n, pipeline, first, len, groupSize)
  {
    hide StillReceptive, PipelineReady;
    StaysReady(m, n, pipeline, first);
    StaysReady(m, n, pipeline, 1);
  }

  // ---- what the gateway holds ----

  /** Every committed block was allocated, so the next block is new; so is the next upload. */
  ghost predicate AllBelow(om: OmState) {
    && IdsBelow(om)
    && (forall name :: name in om.keys ==> BlocksBelow(om.keys[name].blocks, om.nextLocal))
    && (forall u, n :: u in om.uploads && n in om.uploads[u].parts ==>
      LocalsWithin(om.uploads[u].parts[n].extents, 0, om.nextLocal))
  }

  /** These objects are stored under their keys. */
  ghost predicate ObjectsHeld(digest: Digest, nodes: Cluster, pipeline: Pipeline, om: OmState,
      objects: map<KeyName, seq<byte>>) {
    forall name :: name in objects ==>
      name in om.keys && OnPipeline(om.keys[name].blocks, pipeline)
        && Stored(digest, nodes, om.keys[name].blocks, objects[name])
  }

  predicate OnPipeline(blocks: seq<BlockLocation>, pipeline: Pipeline) {
    forall i :: 0 <= i < |blocks| ==> blocks[i].pipeline == pipeline
  }

  /** These bodies are stored as parts of their uploads. */
  ghost predicate PartsHeld(digest: Digest, nodes: Cluster, pipeline: Pipeline, om: OmState,
      parts: map<(nat, nat), seq<byte>>) {
    forall q :: q in parts ==> PartHeld(digest, nodes, pipeline, om, q, parts[q])
  }

  ghost predicate PartHeld(digest: Digest, nodes: Cluster, pipeline: Pipeline, om: OmState,
      q: (nat, nat), body: seq<byte>) {
    && q.0 in om.uploads && q.1 in om.uploads[q.0].parts
    && Stored(digest, nodes, Attached(pipeline, om.uploads[q.0].parts[q.1].extents), body)
  }

  /** New blocks disturb nothing that is held. */
  lemma HeldStays(digest: Digest, m: Cluster, n: Cluster, pipeline: Pipeline, om: OmState,
      objects: map<KeyName, seq<byte>>, parts: map<(nat, nat), seq<byte>>)
    requires AllBelow(om) && OnlyFrom(m, n, om.nextLocal)
    requires ObjectsHeld(digest, m, pipeline, om, objects) && PartsHeld(digest, m, pipeline, om, parts)
    ensures ObjectsHeld(digest, n, pipeline, om, objects) && PartsHeld(digest, n, pipeline, om, parts)
  {
    hide Stored, OnlyFrom;
    forall name | name in objects ensures Stored(digest, n, om.keys[name].blocks, objects[name]) {
      Undisturbed(digest, m, n, om.keys[name].blocks, objects[name], om.nextLocal);
    }
    forall q | q in parts ensures PartHeld(digest, n, pipeline, om, q, parts[q]) {
      assert PartHeld(digest, m, pipeline, om, q, parts[q]);
      Undisturbed(digest, m, n, Attached(pipeline, om.uploads[q.0].parts[q.1].extents), parts[q], om.nextLocal);
    }
  }

  /** Allocating more leaves what was allocated below the counter. */
  lemma StaysBelow(om: OmState, next: OmState)
    requires AllBelow(om) && next.keys == om.keys && next.uploads == om.uploads
    requires om.nextLocal <= next.nextLocal && om.nextUpload <= next.nextUpload
    ensures AllBelow(next)
  {}

  /** A committed key is held beside the others. */
  lemma CommitHolds(digest: Digest, nodes: Cluster, cfg: Config, om: OmState, objects: map<KeyName, seq<byte>>,
      parts: map<(nat, nat), seq<byte>>,
    name: KeyName, extents: seq<Extent>, etag: string, body: seq<byte>)
    requires AllBelow(om) && ObjectsHeld(digest, nodes, cfg.pipeline, om, objects)
      && PartsHeld(digest, nodes, cfg.pipeline, om, parts)
    requires Stored(digest, nodes, Attached(cfg.pipeline, extents), body) && LocalsWithin(extents, 0, om.nextLocal)
    ensures var next := CommitKey(cfg, om, name, extents, |body|, etag);
            && AllBelow(next) && ObjectsHeld(digest, nodes, cfg.pipeline, next, objects[name := body])
            && PartsHeld(digest, nodes, cfg.pipeline, next, parts)
  {
    hide Stored;
  }

  /** So is a committed part. */
  lemma PartHolds(digest: Digest, nodes: Cluster, pipeline: Pipeline, om: OmState, objects: map<KeyName, seq<byte>>,
      parts: map<(nat, nat), seq<byte>>,
    upload: nat, number: nat, part: Part, body: seq<byte>)
    requires AllBelow(om) && ObjectsHeld(digest, nodes, pipeline, om, objects)
      && PartsHeld(digest, nodes, pipeline, om, parts)
    requires Stored(digest, nodes, Attached(pipeline, part.extents), body)
      && LocalsWithin(part.extents, 0, om.nextLocal)
    ensures var (next, r) := CommitPart(om, upload, number, part);
            && AllBelow(next) && ObjectsHeld(digest, nodes, pipeline, next, objects)
            && (r.Ok? ==> PartsHeld(digest, nodes, pipeline, next, parts[(upload, number) := body]))
            && (r.Err? ==> next == om)
  {
    hide Stored;
    var (next, c) := CommitPart(om, upload, number, part);
    if c.Ok? {
      var now := parts[(upload, number) := body];
      forall q | q in now ensures PartHeld(digest, nodes, pipeline, next, q, now[q]) {
        if q != (upload, number) {
          assert PartHeld(digest, nodes, pipeline, om, q, parts[q]);
        }
      }
    }
  }

  lemma InitiateHolds(digest: Digest, nodes: Cluster, pipeline: Pipeline, om: OmState, objects: map<KeyName, seq<byte>>,
      parts: map<(nat, nat), seq<byte>>, name: KeyName)
    requires AllBelow(om) && ObjectsHeld(digest, nodes, pipeline, om, objects)
      && PartsHeld(digest, nodes, pipeline, om, parts)
    ensures var next := Initiate(om, name);
            AllBelow(next) && ObjectsHeld(digest, nodes, pipeline, next, objects)
              && PartsHeld(digest, nodes, pipeline, next, parts)
  {
    hide Stored;
    var next := Initiate(om, name);
    forall q | q in parts ensures PartHeld(digest, nodes, pipeline, next, q, parts[q]) {
      assert PartHeld(digest, nodes, pipeline, om, q, parts[q]);
    }
  }

  /** The bodies of the listed parts are all known. */
  predicate AllKnown(parts: map<(nat, nat), seq<byte>>, upload: nat, refs: seq<PartRef>) {
    forall i :: 0 <= i < |refs| ==> (upload, refs[i].number) in parts
  }

  /** The listed parts' bodies, in listed order. */
  function JoinedBodies(parts: map<(nat, nat), seq<byte>>, upload: nat, refs: seq<PartRef>): seq<byte>
    requires AllKnown(parts, upload, refs)
  {
    if refs == [] then []
    else JoinedBodies(parts, upload, refs[..|refs| - 1]) + parts[(upload, refs[|refs| - 1].number)]
  }

  /** The blocks stitched for a completed upload store the concatenation of its listed parts' bodies. */
  lemma {:induction false} CompletedIsConcatenation(digest: Digest, nodes: Cluster, pipeline: Pipeline, om: OmState,
    parts: map<(nat, nat), seq<byte>>, upload: nat, refs: seq<PartRef>)
    requires PartsHeld(digest, nodes, pipeline, om, parts) && AllKnown(parts, upload, refs)
    requires upload in om.uploads && AllListed(om.uploads[upload].parts, refs)
    ensures Stored(digest, nodes, Attached(pipeline, StitchedExtents(om.uploads[upload].parts, refs)),
      JoinedBodies(parts, upload, refs))
  {
    hide Stored;
    var listed := om.uploads[upload].parts;
    if refs == [] {
      NothingStored(digest, nodes, pipeline);
    } else {
      var init, last := refs[..|refs| - 1], refs[|refs| - 1].number;
      CompletedIsConcatenation(digest, nodes, pipeline, om, parts, upload, init);
      assert PartHeld(digest, nodes, pipeline, om, (upload, last), parts[(upload, last)]);
      var a, b := StitchedExtents(listed, init), listed[last].extents;
      StoredJoin(digest, nodes, Attached(pipeline, a), JoinedBodies(parts, upload, init),
        Attached(pipeline, b), parts[(upload, last)]);
      assert Attached(pipeline, a + b) == Attached(pipeline, a) + Attached(pipeline, b);
    }
  }

  lemma {:induction false} StitchedWithin(parts: map<nat, Part>, refs: seq<PartRef>, to: nat)
    requires AllListed(parts, refs) && forall n :: n in parts ==> LocalsWithin(parts[n].extents, 0, to)
    ensures LocalsWithin(StitchedExtents(parts, refs), 0, to)
  {
    if refs != [] {
      StitchedWithin(parts, refs[..|refs| - 1], to);
    }
  }

  /** What is held once a complete succeeds: the stitched object, if its parts' bodies are known. */
  ghost function AfterComplete(objects: map<KeyName, seq<byte>>, parts: map<(nat, nat), seq<byte>>, name: KeyName,
      upload: nat, refs: seq<PartRef>): map<KeyName, seq<byte>> {
    if AllKnown(parts, upload, refs) then objects[name := JoinedBodies(parts, upload, refs)] else objects - {name}
  }

  ghost function WithoutUpload(parts: map<(nat, nat), seq<byte>>, upload: nat): (r: map<(nat, nat), seq<byte>>)
    ensures forall q :: q in r <==> q in parts && q.0 != upload
    ensures forall q :: q in r ==> r[q] == parts[q]
  {
    map q | q in parts && q.0 != upload :: parts[q]
  }

  lemma CompleteHolds(digest: Digest, nodes: Cluster, cfg: Config, om: OmState, objects: map<KeyName, seq<byte>>,
      parts: map<(nat, nat), seq<byte>>,
    name: KeyName, upload: nat, refs: seq<PartRef>)
    requires AllBelow(om) && ObjectsHeld(digest, nodes, cfg.pipeline, om, objects)
      && PartsHeld(digest, nodes, cfg.pipeline, om, parts)
    requires Complete(cfg, om, name, upload, refs).1.Ok?
    ensures var next := Complete(cfg, om, name, upload, refs).0;
            && AllBelow(next) && ObjectsHeld(digest, nodes, cfg.pipeline, next,
              AfterComplete(objects, parts, name, upload, refs))
            && PartsHeld(digest, nodes, cfg.pipeline, next, WithoutUpload(parts, upload))
  {
    hide Stored, Etags, StitchedSize, PartHeld;
    var next, listed := Complete(cfg, om, name, upload, refs).0, om.uploads[upload].parts;
    NoBadPart(listed, refs, 0);
    StitchedWithin(listed, refs, om.nextLocal);
    if AllKnown(parts, upload, refs) {
      CompletedIsConcatenation(digest, nodes, cfg.pipeline, om, parts, upload, refs);
    }
    hide StitchedExtents, JoinedBodies, FirstBadPart, LocalsWithin, WithoutUpload;
    AbortHolds(digest, nodes, cfg.pipeline, om, objects, parts, upload);
    SameParts(digest, nodes, cfg.pipeline, om.(uploads := om.uploads - {upload}), next, WithoutUpload(parts, upload));
  }

  lemma AbortHolds(digest: Digest, nodes: Cluster, pipeline: Pipeline, om: OmState, objects: map<KeyName, seq<byte>>,
      parts: map<(nat, nat), seq<byte>>, upload: nat)
    requires AllBelow(om) && ObjectsHeld(digest, nodes, pipeline, om, objects)
      && PartsHeld(digest, nodes, pipeline, om, parts)
    ensures var next := om.(uploads := om.uploads - {upload});
            && AllBelow(next) && ObjectsHeld(digest, nodes, pipeline, next, objects)
            && PartsHeld(digest, nodes, pipeline, next, WithoutUpload(parts, upload))
  {
    hide Stored;
    var next, rest := om.(uploads := om.uploads - {upload}), WithoutUpload(parts, upload);
    forall q | q in rest ensures PartHeld(digest, nodes, pipeline, next, q, rest[q]) {
      assert PartHeld(digest, nodes, pipeline, om, q, parts[q]);
    }
  }

  lemma SameReceptive(m: Cluster)
    ensures StillReceptive(m, m)
  {}

  lemma NewOpenIs(c: nat, ec: Profile)
    ensures NewOpen(c, ec).id == c && NewOpen(c, ec).state.Open?
  {}

  /** Creating the container and putting the record leave the node as receptive as it was. */
  lemma NodeReceptive(m: Cluster, n: Cluster, e: string, info: ContainerInfo, bd: BlockData)
    requires e in m && e in n && n == m[e := n[e]] && info.state.Open? && info.id == bd.id.container
    requires n[e].meta == Create(m[e].meta, info).0 || n[e].meta == PutBlock(Create(m[e].meta, info).0, bd).0
    ensures StillReceptive(m, n)
    ensures Receptive(m[e], info.id) ==> PutBlock(Create(m[e].meta, info).0, bd).1.Ok?
  {
    hide ChunkBytes;
  }

  lemma ReceptiveTrans(l: Cluster, m: Cluster, n: Cluster)
    requires StillReceptive(l, m) && StillReceptive(m, n)
    ensures StillReceptive(l, n)
  {}

  class Backend {
    const om: CompliantOm
    const digest: Digest
    const groupSize: nat
    const faults: nat -> bool
    var nodes: Cluster
    var clock: nat
    /** The bodies of objects and of (upload, part number) pairs stored through this gateway. */
    ghost var objects: map<KeyName, seq<byte>>
    ghost var parts: map<(nat, nat), seq<byte>>

    constructor (om: CompliantOm, digest: Digest, groupSize: nat, faults: nat -> bool, nodes: Cluster)
      requires AllBelow(om.View())
      ensures this.om == om && this.digest == digest && this.groupSize == groupSize
        && this.faults == faults && this.nodes == nodes
      ensures Valid() && objects == map[] && parts == map[]
    {
      this.om, this.digest, this.groupSize, this.faults, this.nodes, this.clock := om,
        digest, groupSize, faults, nodes, 0;
      objects, parts := map[], map[];
    }

    /** Everything the gateway stored is still there, and nothing allocated next can disturb it. */
    ghost predicate Valid()
      reads this, om
    {
      && AllBelow(om.View()) && ObjectsHeld(digest, nodes, om.cfg.pipeline, om.View(), objects)
      && PartsHeld(digest, nodes, om.cfg.pipeline, om.View(), parts)
    }

    /** No remote call fails. */
    ghost predicate Quiet() {
      forall n :: !faults(n)
    }

    /** Whether the next remote call gets through. */
    method Attempt() returns (ok: bool)
      modifies this`clock
      ensures ok == !faults(old(clock)) && clock == old(clock) + 1
    {
      ok := !faults(clock);
      clock := clock + 1;
    }

    /** Create the container on the node; one that exists already will do. */
    method EnsureContainer(e: string, ec: Profile, c: nat) returns (ok: bool)
      requires e in nodes
      modifies this`nodes, this`clock
      ensures ok ==> nodes == old(nodes)[e := Node(Create(old(nodes)[e].meta, NewOpen(c, ec)).0, old(nodes)[e].chunks)]
      ensures !ok ==> nodes == old(nodes)
      ensures Quiet() ==> ok
    {
      ok := Attempt();
      if ok {
        var (meta, _) := Create(nodes[e].meta, NewOpen(c, ec));
        nodes := nodes[e := Node(meta, nodes[e].chunks)];
      }
    }

    /** Create the container if needed, write one shard, then its record. */
    method StoreShard(e: string, ec: Profile, id: BlockId, shard: seq<byte>, len: nat)
        returns (r: Result<(), GatewayError>)
      requires e in nodes
      modifies this`nodes, this`clock
      ensures nodes.Keys == old(nodes.Keys) && StillReceptive(old(nodes), nodes)
      ensures forall other :: other != id ==> SameAt(old(nodes), nodes, other)
      ensures r.Ok? ==> id in nodes[e].chunks && nodes[e].chunks[id] == shard
      ensures r.Ok? ==> id in nodes[e].meta.blocks && nodes[e].meta.blocks[id] == RecordFor(digest, ec, id, len, shard)
      ensures Quiet() && Receptive(old(nodes)[e], id.container) ==> r.Ok?
      ensures r.Err? ==> !r.error.NoMember?
    {
      hide VerifyOutcome, PutBlock, Create, SameAt, RecordFor, NewOpen, Receptive, StillReceptive;
      ghost var nodes0 := nodes;
      forall other ensures SameAt(nodes, nodes, other) { Unchanged(nodes, other); }
      SameReceptive(nodes);
      NewOpenIs(id.container, ec);
      CreateFrame(nodes[e].meta, NewOpen(id.container, ec));
      var record := RecordFor(digest, ec, id, len, shard);
      RecordShape(digest, ec, id, len, shard);
      var ok := EnsureContainer(e, ec, id.container);
      if !ok {
        return Err(Unreachable(e));
      }
      NodeChanged(nodes0, nodes, e, id);
      NodeReceptive(nodes0, nodes, e, NewOpen(id.container, ec), record);
      ok := Attempt();
      if !ok {
        return Err(Unreachable(e));
      }
      var v := Verify(digest, shard, record.chunks[0].checksum.value);
      if v.Err? {
        r := Err(Corrupt(v.error));
        RecordVerifies(digest, ec, id, len, shard);
        return;
      }
      r := WriteAndPut(e, id, shard, record, nodes0, NewOpen(id.container, ec));
    }

    /** The bytes, then the record, on a node whose container is in place. */
    method WriteAndPut(e: string, id: BlockId, shard: seq<byte>, record: BlockData, ghost before: Cluster,
        ghost info: ContainerInfo) returns (r: Result<(), GatewayError>)
      requires e in nodes && e in before && record.id == id && info.state.Open? && info.id == id.container
      requires nodes == before[e := Node(Create(before[e].meta, info).0, before[e].chunks)]
      modifies this`nodes, this`clock
      ensures nodes.Keys == before.Keys && StillReceptive(before, nodes)
      ensures forall other :: other != id ==> SameAt(before, nodes, other)
      ensures r.Ok? ==> id in nodes[e].chunks && nodes[e].chunks[id] == shard
      ensures r.Ok? ==> id in nodes[e].meta.blocks && nodes[e].meta.blocks[id] == record
      ensures Quiet() && Receptive(before[e], id.container) ==> r.Ok?
      ensures r.Err? ==> !r.error.NoMember?
    {
      hide PutBlock, Create, SameAt, Receptive, StillReceptive;
      CreateFrame(before[e].meta, info);
      var node := nodes[e];
      nodes := nodes[e := Node(node.meta, node.chunks[id := shard])];
      NodeChanged(before, nodes, e, id);
      NodeReceptive(before, nodes, e, info, record);
      var ok := Attempt();
      if !ok {
        return Err(Unreachable(e));
      }
      PutOne(node.meta, record);
      var (m, put) := PutBlock(node.meta, record);
      nodes := nodes[e := Node(m, node.chunks[id := shard])];
      NodeChanged(before, nodes, e, id);
      NodeReceptive(before, nodes, e, info, record);
      if put.Err? {
        return Err(Refused(put.error));
      }
      return Ok(());
    }

    /** Find the slot's member and store the shard there. */
    method WriteSlot(block: BlockLocation, slot: nat, shard: seq<byte>, ghost segment: seq<byte>, len: nat)
        returns (r: Result<(), GatewayError>)
      requires 1 <= slot <= block.pipeline.ec.Total() && block.pipeline.ec.Layable()
        && ValidConfig(block.pipeline.ec.Config())
      requires shard == StoredShard(block.pipeline.ec, segment, slot - 1) && len == |segment|
      modifies this`nodes, this`clock
      ensures nodes.Keys == old(nodes.Keys) && StillReceptive(old(nodes), nodes)
      ensures forall id :: id != ShardId(block, slot) ==> SameAt(old(nodes), nodes, id)
      ensures r.Ok? ==> ShardWritten(digest, nodes, block, slot, segment)
      ensures r.Ok? ==> MemberHolds(digest, nodes, block, slot, segment)
      ensures r == Err(NoMember(slot)) <==> Unassigned(block.pipeline.members, slot)
      ensures r == Err(NoMember(slot)) ==> nodes == old(nodes)
      ensures Quiet() && SlotReady(old(nodes), block.pipeline, block.extent.container, slot) ==> r.Ok?
    {
      hide StoredShard, ValidConfig, SameAt, ShardWritten, EndpointFor, RecordFor, Receptive, StillReceptive,
        MemberHolds, Unassigned;
      EndpointIs(block.pipeline.members, slot);
      forall other ensures SameAt(nodes, nodes, other) { Unchanged(nodes, other); }
      SameReceptive(nodes);
      var e := EndpointFor(block.pipeline.members, slot);
      if e.None? {
        return Err(NoMember(slot));
      }
      var ok := Attempt();
      if !ok || e.value !in nodes {
        return Err(Unreachable(e.value));
      }
      r := StoreShard(e.value, block.pipeline.ec, ShardId(block, slot), shard, len);
      if r.Ok? {
        NowWritten(digest, nodes, block, slot, segment, e.value);
        WrittenIs(digest, nodes, block, slot, segment);
      }
    }

    /** Encode one segment and write its shards, slot by slot. */
    method WriteBlockGroup(block: BlockLocation, segment: seq<byte>) returns (r: Result<Extent, GatewayError>)
      modifies this`nodes, this`clock
      ensures OnlyLocal(old(nodes), nodes, block.extent.local)
      ensures r.Ok? ==> r.value == block.extent.(length := |segment|)
      ensures r.Ok? ==> GroupWritten(digest, nodes, BlockLocation(r.value, block.pipeline), segment)
      ensures StillReceptive(old(nodes), nodes)
      ensures Quiet() && PipelineReady(old(nodes), block.pipeline, block.extent.container) ==> r.Ok?
    {
      hide SameAt, ShardWritten, ValidConfig, StoredShard, StillReceptive, SlotReady, Quiet, MemberHolds, Unassigned,
        HoldsData, HoldsParity;
      SameReceptive(nodes);
      var ec := block.pipeline.ec;
      forall id ensures SameAt(nodes, nodes, id) { Unchanged(nodes, id); }
      var shards := EncodeObject(ec, segment);
      if shards.Err? {
        return Err(Ec(shards.error));
      }
      for slot := 1 to ec.Total() + 1
        invariant nodes.Keys == old(nodes.Keys)
        invariant forall id: BlockId :: id.local != block.extent.local ==> SameAt(old(nodes), nodes, id)
        invariant forall s :: 1 <= s < slot ==> ShardWritten(digest, nodes, block, s, segment)
        invariant StillReceptive(old(nodes), nodes)
      {
        StaysReady(old(nodes), nodes, block.pipeline, block.extent.container);
        var shard := if slot <= ec.data then shards.value.data[slot - 1] else shards.value.parity[slot - 1 - ec.data];
        ghost var before := nodes;
        var w := WriteSlot(block, slot, shard, segment, |segment|);
        ReceptiveTrans(old(nodes), before, nodes);
        forall id: BlockId | id.local != block.extent.local
          ensures SameAt(old(nodes), nodes, id)
        {
          SameTrans(old(nodes), before, nodes, id);
        }
        if w.Err? {
          return Err(w.error);
        }
        forall s | 1 <= s < slot
          ensures ShardWritten(digest, nodes, block, s, segment)
        {
          StillWritten(digest, before, nodes, block, s, segment);
        }
      }
      GroupResized(digest, nodes, block, segment, |segment|);
      return Ok(block.extent.(length := |segment|));
    }

    /** Cut the body into block groups, allocate a block for each and write them in order. */
    method AllocateAndWrite(body: seq<byte>) returns (r: Result<seq<Extent>, GatewayError>)
      requires groupSize > 0
      modifies this`nodes, this`clock, om
      ensures om.keys == old(om.keys) && om.uploads == old(om.uploads) && om.nextUpload == old(om.nextUpload)
      ensures old(om.nextLocal) <= om.nextLocal && OnlyFrom(old(nodes), nodes, old(om.nextLocal))
      ensures StillReceptive(old(nodes), nodes)
      ensures r.Ok? ==> LocalsWithin(r.value, old(om.nextLocal), om.nextLocal)
      ensures r.Ok? ==> om.nextContainer == old(om.nextContainer) + 1
      ensures r.Ok? ==> CutInto(r.value, groupSize, old(om.nextContainer), old(om.nextLocal))
      ensures r.Ok? ==> Stored(digest, nodes, Attached(om.cfg.pipeline, r.value), body)
      ensures Quiet() && BodyReady(old(nodes), om.cfg.pipeline, old(om.nextContainer), |body|, groupSize) ==> r.Ok?
    {
      hide SameAt, GroupWritten, Stored, OnlyLocal, OnlyFrom, StillReceptive, PipelineReady, CutInto;
      SameReceptive(nodes);
      CutNone(groupSize, om.nextContainer, om.nextLocal);
      FromSame(nodes, om.nextLocal);
      var ok := Attempt();
      if !ok {
        return Err(ManagerDown);
      }
      var client, first := om.Open();
      var preAllocated := [first];
      var extents: seq<Extent>, pos := [], 0;
      NothingStored(digest, nodes, om.cfg.pipeline);
      assert body[..0] == [];
      while pos < |body|
        invariant pos <= |body|
        invariant om.keys == old(om.keys) && om.uploads == old(om.uploads) && om.nextUpload == old(om.nextUpload)
        invariant old(om.nextLocal) <= om.nextLocal && OnlyFrom(old(nodes), nodes, old(om.nextLocal))
        invariant preAllocated == [] || (preAllocated == [first] && extents == [] && first.extent.local ==
          old(om.nextLocal) < om.nextLocal)
        invariant preAllocated == [] ==> pos == |body| || pos >= groupSize
        invariant first.pipeline == om.cfg.pipeline && first.extent.container == old(om.nextContainer)
        invariant om.nextContainer == old(om.nextContainer) + 1
        invariant om.nextLocal == old(om.nextLocal) + if preAllocated != [] then 1 else |extents|
        invariant preAllocated == [] ==> extents != []
        invariant extents != [] && pos < |body| ==> extents[|extents| - 1].length == groupSize
        invariant CutInto(extents, groupSize, old(om.nextContainer), old(om.nextLocal))
        invariant LocalsWithin(extents, old(om.nextLocal), om.nextLocal)
        invariant Stored(digest, nodes, Attached(om.cfg.pipeline, extents), body[..pos])
        invariant StillReceptive(old(nodes), nodes)
      {
        StaysReady(old(nodes), nodes, om.cfg.pipeline, old(om.nextContainer));
        StaysReady(old(nodes), nodes, om.cfg.pipeline, 1);
        var segment := body[pos..Min(pos + groupSize, |body|)];
        var block;
        if preAllocated != [] {
          block, preAllocated := preAllocated[0], preAllocated[1..];
        } else {
          ok := Attempt();
          if !ok {
            return Err(ManagerDown);
          }
          block := om.Allocate(1);
        }
        ghost var before := nodes;
        var w := WriteBlockGroup(block, segment);
        ReceptiveTrans(old(nodes), before, nodes);
        OnlyFromNext(old(nodes), before, nodes, old(om.nextLocal), block.extent.local);
        if w.Err? {
          return Err(w.error);
        }
        StoreNext(digest, before, nodes, om.cfg.pipeline, extents, body[..pos], w.value, segment, old(om.nextLocal));
        assert body[..pos] + segment == body[..pos + |segment|];
        CutNext(extents, w.value, groupSize, old(om.nextContainer), old(om.nextLocal));
        extents, pos := extents + [w.value], pos + |segment|;
      }
      assert body[..|body|] == body;
      return Ok(extents);
    }

    /** PUT: store the body, then commit the key. A failed PUT commits nothing, and no PUT disturbs what is held. */
    method PutObject(name: KeyName, body: seq<byte>, etag: string) returns (r: Result<(), GatewayError>)
      requires groupSize > 0 && Valid()
      modifies this, om
      ensures Valid() && parts == old(parts)
      ensures objects == if r.Ok? then old(objects)[name := body] else old(objects)
      ensures r.Err? ==> om.keys == old(om.keys)
      ensures r.Ok? ==> name in om.keys && om.keys == old(om.keys)[name := om.keys[name]]
      ensures r.Ok? ==> OnPipeline(om.keys[name].blocks, om.cfg.pipeline)
      ensures r.Ok? ==> om.keys[name].size == |body| && om.keys[name].etag == etag
      ensures r.Ok? ==> Stored(digest, nodes, om.keys[name].blocks, body)
      ensures forall other, b ::
        other in old(om.keys) && other != name && Stored(digest, old(nodes), old(om.keys)[other].blocks, b) ==>
        other in om.keys && Stored(digest, nodes, om.keys[other].blocks, b)
      ensures om.uploads == old(om.uploads) && StillReceptive(old(nodes), nodes)
      ensures Quiet() && BodyReady(old(nodes), om.cfg.pipeline, old(om.nextContainer), |body|, groupSize) ==> r.Ok?
    {
      hide Stored, OnlyFrom, PipelineReady, ObjectsHeld, PartsHeld, AllBelow, StillReceptive, BodyReady, LocalsWithin;
      ghost var om0, nodes0 := om.View(), nodes;
      var w := AllocateAndWrite(body);
      forall other, b | other in om.keys && Stored(digest, nodes0, om.keys[other].blocks, b)
        ensures Stored(digest, nodes, om.keys[other].blocks, b)
      {
        KeyBelow(om0, other);
        Undisturbed(digest, nodes0, nodes, om.keys[other].blocks, b, om0.nextLocal);
      }
      HeldStays(digest, nodes0, nodes, om.cfg.pipeline, om0, objects, parts);
      StaysBelow(om0, om.View());
      SameHeld(digest, nodes, om.cfg.pipeline, om0, om.View(), objects, parts);
      if w.Err? {
        return Err(w.error);
      }
      var ok := Attempt();
      if !ok {
        return Err(ManagerDown);
      }
      WithinWiden(w.value, om0.nextLocal, om.nextLocal);
      CommitHolds(digest, nodes, om.cfg, om.View(), objects, parts, name, w.value, etag, body);
      om.Commit(name, w.value, |body|, etag);
      objects := objects[name := body];
      return Ok(());
    }

    method InitiateUpload(name: KeyName) returns (r: Result<nat, GatewayError>)
      requires Valid()
      modifies this, om
      ensures Valid() && objects == old(objects) && parts == old(parts) && nodes == old(nodes)
      ensures om.nextContainer == old(om.nextContainer) && om.keys == old(om.keys)
      ensures r.Err? ==> om.uploads == old(om.uploads)
      ensures r.Ok? ==> r.value !in old(om.uploads) && om.uploads == old(om.uploads)[r.value := Upload(name, map[])]
      ensures Quiet() ==> r.Ok?
    {
      hide ObjectsHeld, PartsHeld;
      var ok := Attempt();
      if !ok {
        return Err(ManagerDown);
      }
      InitiateHolds(digest, nodes, om.cfg.pipeline, om.View(), objects, parts, name);
      var upload := om.InitiateUpload(name);
      return Ok(upload);
    }

    /** Store one part's body, then record it under its upload; earlier parts and other objects stay held. */
    method UploadPart(upload: nat, number: nat, body: seq<byte>, etag: string) returns (r: Result<(), GatewayError>)
      requires groupSize > 0 && Valid()
      modifies this, om
      ensures Valid() && objects == old(objects)
      ensures parts == if r.Ok? then old(parts)[(upload, number) := body] else old(parts)
      ensures om.keys == old(om.keys) && OnlyFrom(old(nodes), nodes, old(om.nextLocal))
        && StillReceptive(old(nodes), nodes)
      ensures r.Ok? ==> om.nextContainer == old(om.nextContainer) + 1
      ensures r.Err? ==> om.uploads == old(om.uploads)
      ensures r.Ok? ==> upload in old(om.uploads) && upload in om.uploads && number in om.uploads[upload].parts
      ensures r.Ok? ==>
        var part := om.uploads[upload].parts[number];
        && part.size == |body| && part.etag == etag
        && var was := old(om.uploads)[upload];
        && om.uploads == old(om.uploads)[upload := was.(parts := was.parts[number := part])]
        && Stored(digest, nodes, Attached(om.cfg.pipeline, part.extents), body)
      ensures Quiet() && upload in old(om.uploads) && 1 <= number <= MAX_PART_NUMBER ==>
        BodyReady(old(nodes), om.cfg.pipeline, old(om.nextContainer), |body|, groupSize) ==> r.Ok?
    {
      hide Stored, OnlyFrom, PipelineReady, ObjectsHeld, PartsHeld, AllBelow, StillReceptive, BodyReady, LocalsWithin;
      if !(1 <= number <= MAX_PART_NUMBER) {
        FromSame(nodes, om.nextLocal);
        SameReceptive(nodes);
        return Err(Manager(InvalidRequest));
      }
      ghost var om0, nodes0 := om.View(), nodes;
      var w := AllocateAndWrite(body);
      HeldStays(digest, nodes0, nodes, om.cfg.pipeline, om0, objects, parts);
      StaysBelow(om0, om.View());
      SameHeld(digest, nodes, om.cfg.pipeline, om0, om.View(), objects, parts);
      if w.Err? {
        return Err(w.error);
      }
      var ok := Attempt();
      if !ok {
        return Err(ManagerDown);
      }
      var part := Part(w.value, |body|, etag);
      WithinWiden(w.value, om0.nextLocal, om.nextLocal);
      PartHolds(digest, nodes, om.cfg.pipeline, om.View(), objects, parts, upload, number, part, body);
      var c := om.CommitUploadPart(upload, number, part);
      if c.Err? {
        return Err(Manager(c.error));
      }
      parts := parts[(upload, number) := body];
      return Ok(());
    }

    /** Stitch the listed parts into the key: its object is then the concatenation of their bodies. */
    method CompleteUpload(name: KeyName, upload: nat, numbers: seq<nat>) returns (r: Result<string, GatewayError>)
      requires Valid()
      modifies this, om
      ensures Valid() && nodes == old(nodes)
      ensures r.Err? ==> om.keys == old(om.keys) && om.uploads == old(om.uploads)
      ensures r.Err? ==> objects == old(objects) && parts == old(parts)
      ensures r.Ok? ==> objects == AfterComplete(old(objects), old(parts), name, upload, Refs(numbers))
      ensures r.Ok? ==> parts == WithoutUpload(old(parts), upload)
      ensures r.Ok? ==> name in om.keys && om.keys == old(om.keys)[name := om.keys[name]]
      ensures r.Ok? ==> om.uploads == old(om.uploads) - {upload}
      ensures r.Ok? ==> OnPipeline(om.keys[name].blocks, om.cfg.pipeline)
      ensures Quiet() && CompleteError(old(om.View()), upload, Refs(numbers)).None? ==> r.Ok?
    {
      hide Stored, ObjectsHeld, PartsHeld, AllBelow, StitchedExtents, StitchedSize, Etags, JoinedBodies;
      if numbers == [] || !InOrder(Refs(numbers)) {
        return Err(Manager(InvalidRequest));
      }
      var ok := Attempt();
      if !ok {
        return Err(ManagerDown);
      }
      ghost var om0, refs := om.View(), Refs(numbers);
      var c := om.CompleteUpload(name, upload, Refs(numbers));
      if c.Err? {
        return Err(Manager(c.error));
      }
      CompleteHolds(digest, nodes, om.cfg, om0, objects, parts, name, upload, refs);
      objects, parts := AfterComplete(objects, parts, name, upload, refs), WithoutUpload(parts, upload);
      return Ok(c.value);
    }

    method AbortUpload(upload: nat) returns (r: Result<(), GatewayError>)
      requires Valid()
      modifies this, om
      ensures Valid() && objects == old(objects) && nodes == old(nodes) && om.keys == old(om.keys)
      ensures parts == if r.Ok? then WithoutUpload(old(parts), upload) else old(parts)
      ensures om.uploads == if r.Ok? then old(om.uploads) - {upload} else old(om.uploads)
    {
      hide ObjectsHeld, PartsHeld, AllBelow;
      var ok := Attempt();
      if !ok {
        return Err(ManagerDown);
      }
      AbortHolds(digest, nodes, om.cfg.pipeline, om.View(), objects, parts, upload);
      om.AbortUpload(upload);
      parts := WithoutUpload(parts, upload);
      return Ok(());
    }
  }

  /** The gateway forwards part numbers only; the OM supplies the stored etags. */
  function Refs(numbers: seq<nat>): (r: seq<PartRef>)
    ensures |r| == |numbers|
  {
    seq(|numbers|, i requires 0 <= i < |numbers| => PartRef(numbers[i], ""))
  }

  lemma KeyBelow(om: OmState, name: KeyName)
    requires AllBelow(om) && name in om.keys
    ensures BlocksBelow(om.keys[name].blocks, om.nextLocal)
  {}

  lemma WithinWiden(extents: seq<Extent>, from: nat, to: nat)
    requires LocalsWithin(extents, from, to)
    ensures LocalsWithin(extents, 0, to)
  {}

  /** What is held depends on the keys and uploads only. */
  lemma SameHeld(digest: Digest, nodes: Cluster, pipeline: Pipeline, om: OmState, next: OmState,
      objects: map<KeyName, seq<byte>>, parts: map<(nat, nat), seq<byte>>)
    requires next.keys == om.keys && next.uploads == om.uploads
    requires ObjectsHeld(digest, nodes, pipeline, om, objects) && PartsHeld(digest, nodes, pipeline, om, parts)
    ensures ObjectsHeld(digest, nodes, pipeline, next, objects) && PartsHeld(digest, nodes, pipeline, next, parts)
  {
    hide Stored, PartsHeld;
    SameParts(digest, nodes, pipeline, om, next, parts);
  }

  lemma SameParts(digest: Digest, nodes: Cluster, pipeline: Pipeline, om: OmState, next: OmState,
      parts: map<(nat, nat), seq<byte>>)
    requires next.uploads == om.uploads && PartsHeld(digest, nodes, pipeline, om, parts)
    ensures PartsHeld(digest, nodes, pipeline, next, parts)
  {
    hide Stored;
    forall q | q in parts ensures PartHeld(digest, nodes, pipeline, next, q, parts[q]) {
      assert PartHeld(digest, nodes, pipeline, om, q, parts[q]);
    }
  }

  lemma FromSame(m: Cluster, from: nat)
    ensures OnlyFrom(m, m, from)
  {}

  lemma NothingStored(digest: Digest, nodes: Cluster, pipeline: Pipeline)
    ensures Stored(digest, nodes, Attached(pipeline, []), [])
  {}
}
