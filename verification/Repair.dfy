/** Rebuilding a container's missing shards on this datanode: crates/ozone-dn-server/src/repair.rs. */
module Repair {
  import opened Wrappers
  import opened ReedSolomon
  import opened Checksum
  import opened Layout
  import opened Shards
  import opened Stripe
  import opened Decode
  import opened Distance
  import Mds
  import opened MetaStore
  import opened Datanode
  import opened Survey
  import opened Survivors

  datatype RepairError =
    | ContainerAbsent(container: nat)
    | TooFewShards(have: nat, need: nat)
    | ContainerNotWritable(container: nat, state: ContainerState)
    | Ec(ec: StripeError)
    | Storage(storage: StorageError)

  /** Storage calls that can fail. */
  datatype Call = CallGet | CallCreate | CallWrite | CallPut | CallDropMeta | CallDropChunks | CallClose

  /** The object the survivors of a group decode to. */
  ghost predicate DecodesTo(p: Profile, len: nat, slots: Slots, obj: seq<byte>) {
    && DecodeError(p, len, slots).None? && p.Layable() && ValidConfig(p.Config())
    && Recovers(p, len, Kept(p, len, slots), obj)
  }

  /** bytes is the shard of that slot that re-encoding the decoded group gives. */
  ghost predicate RebuiltShard(p: Profile, len: nat, slots: Slots, slot: nat, bytes: seq<byte>) {
    1 <= slot <= p.Total() && exists obj :: DecodesTo(p, len, slots, obj) && bytes == StoredShard(p, obj, slot - 1)
  }

  ghost predicate Targeted(input: ReconstructInput, id: BlockId) {
    id.container == input.container && id.slot in input.missing && 1 <= id.slot <= input.ec.Total()
  }

  /** Group l's shard in slot id.slot is stored whole, with its record. */
  ghost predicate Stored(digest: Digest, input: ReconstructInput, f: Found, id: BlockId, meta: Meta,
      chunks: map<BlockId, seq<byte>>) {
    && id.local in f.shards && id.local in f.lengths
    && id in chunks && id in meta.blocks
    && RebuiltShard(input.ec, f.lengths[id.local], f.shards[id.local], id.slot, chunks[id])
    && meta.blocks[id] == RecordFor(digest, input.ec, id, f.lengths[id.local], chunks[id])
  }

  /** A group with at least k survivors read. */
  predicate Recoverable(p: Profile, slots: Slots) {
    |Having(slots, true, |slots|)| >= p.data
  }

  /** Only container c may differ, and its state and configuration do not. */
  ghost predicate SameLifecycle(c: nat, m: Meta, n: Meta) {
    && m.containers.Keys == n.containers.Keys
    && (forall k :: k in m.containers && k != c ==> n.containers[k] == m.containers[k])
    && (c in m.containers ==> n.containers[c].info.state == m.containers[c].info.state)
    && (c in m.containers ==> n.containers[c].info.ec == m.containers[c].info.ec)
  }

  /** A chunk is the old one, or a targeted shard rebuilt from the survey. */
  ghost predicate ChunkFramed(input: ReconstructInput, f: Found, locals: set<nat>, c0: map<BlockId, seq<byte>>,
      c: map<BlockId, seq<byte>>, id: BlockId) {
    || ((id in c <==> id in c0) && (id in c ==> c[id] == c0[id]))
    || (Targeted(input, id) && id.local in locals && id.local in f.shards && id.local in f.lengths && id in c
        && RebuiltShard(input.ec, f.lengths[id.local], f.shards[id.local], id.slot, c[id]))
  }

  /** A record is the old one, or the record of such a shard. */
  ghost predicate BlockFramed(digest: Digest, input: ReconstructInput, f: Found, locals: set<nat>,
      m0: Meta, m: Meta, id: BlockId) {
    || ((id in m.blocks <==> id in m0.blocks) && (id in m.blocks ==> m.blocks[id] == m0.blocks[id]))
    || (Targeted(input, id) && id.local in locals && id.local in f.shards && id.local in f.lengths && id in m.blocks
        && exists bytes :: RebuiltShard(input.ec, f.lengths[id.local], f.shards[id.local], id.slot, bytes)
                        && m.blocks[id] == RecordFor(digest, input.ec, id, f.lengths[id.local], bytes))
  }

  ghost predicate Framed(digest: Digest, input: ReconstructInput, f: Found, locals: set<nat>, m0: Meta,
      c0: map<BlockId, seq<byte>>, m: Meta, c: map<BlockId, seq<byte>>) {
    && SameLifecycle(input.container, m0, m)
    && (forall id :: ChunkFramed(input, f, locals, c0, c, id))
    && (forall id :: BlockFramed(digest, input, f, locals, m0, m, id))
  }

  lemma FramedTrans(digest: Digest, input: ReconstructInput, f: Found, l1: set<nat>, l2: set<nat>,
    m0: Meta, c0: map<BlockId, seq<byte>>, m1: Meta, c1: map<BlockId, seq<byte>>, m2: Meta, c2: map<BlockId, seq<byte>>)
    requires Framed(digest, input, f, l1, m0, c0, m1, c1) && Framed(digest, input, f, l2, m1, c1, m2, c2)
    ensures Framed(digest, input, f, l1 + l2, m0, c0, m2, c2)
  {
    hide RebuiltShard, RecordFor, Targeted;
    forall id
      ensures ChunkFramed(input, f, l1 + l2, c0, c2, id)
    {
      assert ChunkFramed(input, f, l1, c0, c1, id) && ChunkFramed(input, f, l2, c1, c2, id);
    }
    forall id
      ensures BlockFramed(digest, input, f, l1 + l2, m0, m2, id)
    {
      assert BlockFramed(digest, input, f, l1, m0, m1, id) && BlockFramed(digest, input, f, l2, m1, m2, id);
    }
  }

  lemma PutFrame(m: Meta, bd: BlockData)
    ensures SameLifecycle(bd.id.container, m, PutBlock(m, bd).0)
    ensures forall id :: id != bd.id ==> (id in PutBlock(m, bd).0.blocks <==> id in m.blocks)
    ensures forall id :: id != bd.id && id in m.blocks ==> PutBlock(m, bd).0.blocks[id] == m.blocks[id]
    ensures PutBlock(m, bd).1.Ok? ==> bd.id in PutBlock(m, bd).0.blocks && PutBlock(m, bd).0.blocks[bd.id] == bd
    ensures PutBlock(m, bd).1.Err? ==> PutBlock(m, bd).0 == m
    ensures Consistent(m) ==> Consistent(PutBlock(m, bd).0)
  {
    if Consistent(m) { PutBlockKeeps(m, bd); }
    hide Consistent, ChunkBytes;
  }

  lemma ShardFrame(digest: Digest, input: ReconstructInput, f: Found, id: BlockId, shard: seq<byte>,
    m0: Meta, c0: map<BlockId, seq<byte>>, m: Meta, c: map<BlockId, seq<byte>>)
    requires Targeted(input, id) && id.local in f.shards && id.local in f.lengths
    requires RebuiltShard(input.ec, f.lengths[id.local], f.shards[id.local], id.slot, shard)
    requires c == c0 || c == c0[id := shard]
    requires m == m0 || m == PutBlock(m0, RecordFor(digest, input.ec, id, f.lengths[id.local], shard)).0
    ensures Framed(digest, input, f, {id.local}, m0, c0, m, c)
  {
    var bd := RecordFor(digest, input.ec, id, f.lengths[id.local], shard);
    assert bd.id == id;
    PutFrame(m0, bd);
    hide RebuiltShard, RecordFor, PutBlock;
    forall i
      ensures BlockFramed(digest, input, f, {id.local}, m0, m, i)
    {
    }
  }

  // ---- when a rebuild gets through ----

  /** No storage call fails. */
  ghost predicate NoFaults(faults: (Call, nat) -> bool) {
    forall call, n :: !faults(call, n)
  }

  /** No shard write and no record put fails. */
  ghost predicate WritesSucceed(faults: (Call, nat) -> bool) {
    forall n :: !faults(CallWrite, n) && !faults(CallPut, n)
  }

  /** Nothing but a close ever fails. */
  ghost predicate OnlyCloses(faults: (Call, nat) -> bool) {
    forall call, n :: faults(call, n) ==> call.CallClose?
  }

  lemma NoneFail(faults: (Call, nat) -> bool, n: nat)
    ensures NoFaults(faults) ==> WritesSucceed(faults) && forall call :: !faults(call, n)
    ensures OnlyCloses(faults) ==> WritesSucceed(faults) && forall call :: faults(call, n) ==> call.CallClose?
  {}

  predicate GroupDecodes(input: ReconstructInput, f: Found, l: nat) {
    ValidConfig(input.ec.Config()) && l in f.shards && l in f.lengths
      && DecodeError(input.ec, f.lengths[l], f.shards[l]).None?
  }

  /** Every group with k survivors decodes. */
  ghost predicate Decodable(input: ReconstructInput, f: Found) {
    forall l :: l in f.shards && Recoverable(input.ec, f.shards[l]) ==> GroupDecodes(input, f, l)
  }

  lemma PutSucceeds(m: Meta, bd: BlockData)
    ensures OpenHere(m, bd.id.container) ==> PutBlock(m, bd).1.Ok?
  {
    hide ChunkBytes;
  }

  lemma StaysOpen(digest: Digest, input: ReconstructInput, f: Found, locals: set<nat>, m0: Meta,
      c0: map<BlockId, seq<byte>>, m: Meta, c: map<BlockId, seq<byte>>)
    requires Framed(digest, input, f, locals, m0, c0, m, c)
    ensures OpenHere(m0, input.container) ==> OpenHere(m, input.container)
  {
    hide ChunkFramed, BlockFramed;
  }

  predicate OpenHere(m: Meta, c: nat) {
    c in m.containers && m.containers[c].info.state.Writable()
  }

  /** The shards of one group that the peers serve, source by source; a later source of a slot wins. */
  function GroupReads(input: ReconstructInput, peers: Peers, local: nat, sources: seq<Source>): (r: Slots)
    ensures |r| == input.ec.Total()
  {
    if sources == [] then Blank(input.ec.Total())
    else
      var before := GroupReads(input, peers, local, sources[..|sources| - 1]);
      var s := sources[|sources| - 1];
      if !Asked(input, s) then before
      else
        var b := peers.read(s.endpoint, BlockId(input.container, local, s.slot));
        if b.Some? then before[s.slot - 1 := b] else before
  }

  ghost predicate SmallSlots(slots: Slots) {
    forall i :: 0 <= i < |slots| && slots[i].Some? ==> |slots[i].value| <= ISIZE_MAX
  }

  lemma {:induction false} GroupReadsSmall(input: ReconstructInput, peers: Peers, local: nat, sources: seq<Source>)
    requires Representable(peers)
    ensures SmallSlots(GroupReads(input, peers, local, sources))
  {
    if sources != [] {
      GroupReadsSmall(input, peers, local, sources[..|sources| - 1]);
      var s, before := sources[|sources| - 1], GroupReads(input, peers, local, sources[..|sources| - 1]);
      var b := peers.read(s.endpoint, BlockId(input.container, local, s.slot));
      assert b.Some? ==> |b.value| <= ISIZE_MAX;
      assert GroupReads(input, peers, local, sources) == if Asked(input, s)
        && b.Some? then before[s.slot - 1 := b] else before;
    }
  }

  /** Source x serves slot t of the group. */
  predicate Supplies(input: ReconstructInput, peers: Peers, local: nat, x: nat, t: nat) {
    Eligible(input, x) && input.sources[x].slot == t && Answer(input, peers, x, local).Some?
  }

  /** The buffer is what the last of the first n sources that serves the slot answered. */
  ghost predicate LastSupplied(input: ReconstructInput, peers: Peers, local: nat, n: nat, t: nat,
      b: Option<seq<byte>>) {
    exists x: nat ::
      && x < n && Supplies(input, peers, local, x, t) && Answer(input, peers, x, local) == b
      && forall y: nat :: x < y < n ==> !Supplies(input, peers, local, y, t)
  }

  /** A buffer is gathered for a slot exactly if some eligible source serves it, and it is the last one served. */
  lemma {:induction false} GatheredIsKnown(input: ReconstructInput, peers: Peers, local: nat, n: nat, t: nat)
    requires n <= |input.sources| && 1 <= t <= input.ec.Total()
    ensures var b := GroupReads(input, peers, local, input.sources[..n])[t - 1];
      && (b.Some? <==> exists x: nat :: x < n && Supplies(input, peers, local, x, t))
      && (b.Some? ==> LastSupplied(input, peers, local, n, t, b))
  {
    if n > 0 {
      assert input.sources[..n][..n - 1] == input.sources[..n - 1];
      GatheredIsKnown(input, peers, local, n - 1, t);
      var before := GroupReads(input, peers, local, input.sources[..n - 1])[t - 1];
      var now := GroupReads(input, peers, local, input.sources[..n])[t - 1];
      assert now == if Supplies(input, peers, local, n - 1, t) then Answer(input, peers, n - 1, local) else before;
      hide GroupReads, Supplies;
      if Supplies(input, peers, local, n - 1, t) {
        assert LastSupplied(input, peers, local, n, t, now);
      } else if before.Some? {
        var x: nat :| x < n - 1 && Supplies(input, peers, local, x, t) && Answer(input, peers, x, local) == before
          && forall y: nat :: x < y < n - 1 ==> !Supplies(input, peers, local, y, t);
      }
    }
  }

  lemma KnownCount(input: ReconstructInput, peers: Peers, local: nat)
    ensures var slots := GroupReads(input, peers, local, input.sources);
      |Having(slots, true, |slots|)| == |KnownSlots(input, peers, local)|
  {
    hide Having, GroupReads;
    var slots := GroupReads(input, peers, local, input.sources);
    HavingCount(slots, |slots|);
    assert input.sources[..|input.sources|] == input.sources;
    forall t | 1 <= t <= |slots| ensures Present(slots, t) <==> t in KnownSlots(input, peers, local) {
      GatheredIsKnown(input, peers, local, |input.sources|, t);
      if x: nat :| Eligible(input, x) && Answer(input, peers, x, local).Some? && input.sources[x].slot == t {
        assert Supplies(input, peers, local, x, t);
      }
    }
    assert PresentSlots(slots, |slots|) == KnownSlots(input, peers, local);
  }

  function KnownGroup(input: ReconstructInput, local: nat, len: nat, peers: Peers): Found {
    Found(map[local := GroupReads(input, peers, local, input.sources)], map[local := len])
  }

  /** Enough peers serve the group, and what they serve decodes. */
  predicate KnownGroupReads(input: ReconstructInput, peers: Peers, local: nat, len: nat) {
    Recoverable(input.ec, GroupReads(input, peers, local, input.sources))
      && GroupDecodes(input, KnownGroup(input, local, len, peers), local)
  }

  function ValidSlots(input: ReconstructInput): seq<nat> {
    InRangeOnly(input.missing, input.ec.Total())
  }

  /** The slots from 1 to total, in the order given. */
  function InRangeOnly(slots: seq<nat>, total: nat): seq<nat> {
    if slots == [] then []
    else InRangeOnly(slots[..|slots| - 1], total) + if 1 <= slots[|slots| - 1] <= total
      then [slots[|slots| - 1]] else []
  }

  lemma InRangeSnoc(a: seq<nat>, slot: nat, total: nat)
    ensures InRangeOnly(a + [slot], total) == InRangeOnly(a, total) + if 1 <= slot <= total then [slot] else []
  {
    assert (a + [slot])[..|a|] == a;
  }

  lemma SlotsRegroup(a: seq<nat>, b: seq<nat>, c: seq<nat>)
    ensures a + (b + c) == a + b + c
  {}

  lemma InRangeNone(total: nat)
    ensures InRangeOnly([], total) == []
  {}

  /** Slots are kept or dropped one by one, each by its own number, and keep their order. */
  lemma {:induction false} InRangeJoin(a: seq<nat>, b: seq<nat>, total: nat)
    ensures InRangeOnly(a + b, total) == InRangeOnly(a, total) + InRangeOnly(b, total)
  {
    hide *;
    if b == [] {
      InRangeNone(total);
      assert a + b == a;
    } else {
      var init, last := b[..|b| - 1], b[|b| - 1];
      InRangeJoin(a, init, total);
      InRangeSnoc(init, last, total);
      InRangeSnoc(a + init, last, total);
      assert b == init + [last];
      SlotsRegroup(a, init, [last]);
      SlotsRegroup(InRangeOnly(a, total), InRangeOnly(init, total), if 1 <= last <= total then [last] else []);
    }
  }

  lemma InRangeOne(slot: nat, total: nat)
    ensures InRangeOnly([slot], total) == if slot == 0 || slot > total then [] else [slot]
  {
    assert InRangeOnly([slot][..0], total) == [];
  }

  method AskPeers(input: ReconstructInput, peers: Peers, local: nat) returns (slots: Slots)
    requires Representable(peers)
    ensures slots == GroupReads(input, peers, local, input.sources) && SmallSlots(slots)
  {
    slots := Blank(input.ec.Total());
    for i := 0 to |input.sources|
      invariant slots == GroupReads(input, peers, local, input.sources[..i])
    {
      var s := input.sources[i];
      assert input.sources[..i + 1][..i] == input.sources[..i];
      if s.slot == 0 || s.slot > input.ec.Total() || s.slot in input.missing {
        continue;
      }
      var b := peers.read(s.endpoint, BlockId(input.container, local, s.slot));
      if b.Some? {
        slots := slots[s.slot - 1 := b];
      }
    }
    assert input.sources[..|input.sources|] == input.sources;
    GroupReadsSmall(input, peers, local, input.sources);
  }

  class Target {
    var meta: Meta
    var chunks: map<BlockId, seq<byte>>
    var clock: nat
    const digest: Digest
    const faults: (Call, nat) -> bool

    constructor (meta: Meta, chunks: map<BlockId, seq<byte>>, digest: Digest, faults: (Call, nat) -> bool)
      ensures this.meta == meta && this.chunks == chunks && this.digest == digest && this.faults == faults && clock == 0
    {
      this.meta, this.chunks, this.clock, this.digest, this.faults := meta, chunks, 0, digest, faults;
    }

    method Attempt(call: Call) returns (ok: bool)
      modifies this`clock
      ensures ok == !faults(call, old(clock)) && clock == old(clock) + 1
    {
      ok := !faults(call, clock);
      clock := clock + 1;
    }

    /** Write one rebuilt shard, then its record. */
    method PersistShard(p: Profile, id: BlockId, len: nat, shard: seq<byte>) returns (r: Result<(), RepairError>)
      modifies this
      ensures clock >= old(clock)
      ensures chunks == old(chunks) || chunks == old(chunks)[id := shard]
      ensures meta == old(meta) || meta == PutBlock(old(meta), RecordFor(digest, p, id, len, shard)).0
      ensures r.Ok? ==> chunks == old(chunks)[id := shard]
      ensures r.Ok? ==> meta == PutBlock(old(meta), RecordFor(digest, p, id, len, shard)).0
      ensures r.Ok? ==> PutBlock(old(meta), RecordFor(digest, p, id, len, shard)).1.Ok?
      ensures WritesSucceed(faults) && OpenHere(old(meta), id.container) ==> r.Ok?
    {
      hide PutBlock;
      PutSucceeds(meta, RecordFor(digest, p, id, len, shard));
      var ok := Attempt(CallWrite);
      if !ok {
        return Err(Storage(IoFailure));
      }
      chunks := chunks[id := shard];
      ok := Attempt(CallPut);
      if !ok {
        return Err(Storage(IoFailure));
      }
      var bd := RecordFor(digest, p, id, len, shard);
      var (m, v) := PutBlock(meta, bd);
      meta := m;
      if v.Err? {
        return Err(Storage(v.error));
      }
      return Ok(());
    }

    /** Decode one group and persist its missing slots. */
    method RebuildGroup(input: ReconstructInput, f: Found, l: nat) returns (r: Result<(), RepairError>)
      requires l in f.shards && l in f.lengths && |f.shards[l]| == input.ec.Total() && f.lengths[l] <= USIZE_MAX
      requires forall i :: 0 <= i < |f.shards[l]| && f.shards[l][i].Some? ==> |f.shards[l][i].value| <= ISIZE_MAX
      requires Consistent(meta)
      modifies this
      ensures clock >= old(clock)
      ensures Consistent(meta)
      ensures Framed(digest, input, f, {l}, old(meta), old(chunks), meta, chunks)
      ensures r.Ok? ==> GroupStored(digest, input, f, l, meta, chunks)
      ensures WritesSucceed(faults) && OpenHere(old(meta), input.container) && GroupDecodes(input, f, l) ==> r.Ok?
    {
      var p, len := input.ec, f.lengths[l];
      var d := DecodeObject(p, len, f.shards[l]);
      FramedSame(digest, input, f, {l}, meta, chunks);
      if d.Err? {
        return Err(Ec(d.error));
      }
      var e := EncodeObject(p, d.value);
      if e.Err? {
        return Err(Ec(e.error));
      }
      assert DecodesTo(p, len, f.shards[l], d.value);
      r := PersistSlots(input, f, l, d.value, e.value);
    }

    method PersistSlots(input: ReconstructInput, f: Found, l: nat, ghost obj: seq<byte>, encoded: EncodedShards)
        returns (r: Result<(), RepairError>)
      requires l in f.shards && l in f.lengths && DecodesTo(input.ec, f.lengths[l], f.shards[l], obj)
      requires |encoded.data| == input.ec.data && |encoded.parity| == input.ec.parity
      requires forall i :: 0 <= i < input.ec.data ==> encoded.data[i] == StoredShard(input.ec, obj, i)
      requires forall j :: 0 <= j < input.ec.parity ==>
        encoded.parity[j] == StoredShard(input.ec, obj, input.ec.data + j)
      requires Consistent(meta)
      modifies this
      ensures clock >= old(clock)
      ensures Consistent(meta)
      ensures Framed(digest, input, f, {l}, old(meta), old(chunks), meta, chunks)
      ensures r.Ok? ==> GroupStored(digest, input, f, l, meta, chunks)
      ensures WritesSucceed(faults) && OpenHere(old(meta), input.container) ==> r.Ok?
    {
      hide Consistent, Framed, PutBlock, RecordFor, DecodesTo, StoredShard, RebuiltShard, WritesSucceed, OpenHere;
      var p, len, k := input.ec, f.lengths[l], input.ec.data;
      FramedSame(digest, input, f, {l}, meta, chunks);
      for i := 0 to |input.missing|
        invariant clock >= old(clock)
        invariant Consistent(meta)
        invariant Framed(digest, input, f, {l}, old(meta), old(chunks), meta, chunks)
        invariant forall j :: 0 <= j < i && 1 <= input.missing[j] <= p.Total() ==>
          Stored(digest, input, f, BlockId(input.container, l, input.missing[j]), meta, chunks)
      {
        var s := input.missing[i];
        if s == 0 || s > p.Total() {
          continue;
        }
        var shard := if s <= k then encoded.data[s - 1] else encoded.parity[s - 1 - k];
        var id := BlockId(input.container, l, s);
        RebuiltBy(p, len, f.shards[l], s, obj, shard);
        StaysOpen(digest, input, f, {l}, old(meta), old(chunks), meta, chunks);
        ghost var m1, c1 := meta, chunks;
        var w := PersistShard(p, id, len, shard);
        PutFrame(m1, RecordFor(digest, p, id, len, shard));
        RecordId(digest, p, id, len, shard);
        ShardFrame(digest, input, f, id, shard, m1, c1, meta, chunks);
        FramedTrans(digest, input, f, {l}, {l}, old(meta), old(chunks), m1, c1, meta, chunks);
        assert {l} + {l} == {l};
        if w.Err? {
          return w;
        }
      }
      return Ok(());
    }

    /** Rebuild group l if it is recoverable. */
    method RebuildNext(input: ReconstructInput, f: Found, l: nat, rebuilt: seq<nat>, ghost done: set<nat>,
        ghost m0: Meta, ghost c0: map<BlockId, seq<byte>>)
      returns (r: Result<seq<nat>, RepairError>)
      requires SurveyShaped(input, f) && Consistent(meta) && l in f.shards
        && (forall d :: d in done ==> d < l) && done <= f.shards.Keys
      requires Progress(digest, input, f, done, rebuilt, m0, c0, meta, chunks)
      modifies this
      ensures clock >= old(clock)
      ensures Consistent(meta)
      ensures r.Ok? ==> r.value == if Recoverable(input.ec, f.shards[l]) then rebuilt + [l] else rebuilt
      ensures r.Ok? ==> Progress(digest, input, f, done + {l}, r.value, m0, c0, meta, chunks)
      ensures Framed(digest, input, f, f.shards.Keys, m0, c0, meta, chunks)
      ensures WritesSucceed(faults) && OpenHere(m0, input.container) && Decodable(input, f) ==> r.Ok?
    {
      hide Consistent, Framed, StoredAll, Recoverable, GroupStored, SurveyShaped, WritesSucceed, OpenHere, GroupDecodes;
      StaysOpen(digest, input, f, done, m0, c0, meta, chunks);
      if !Recoverable(input.ec, f.shards[l]) {
        FramedWiden(digest, input, f, done, done + {l}, m0, c0, meta, chunks);
        FramedWiden(digest, input, f, done, f.shards.Keys, m0, c0, meta, chunks);
        return Ok(rebuilt);
      }
      GroupShaped(input, f, l);
      ghost var m1, c1 := meta, chunks;
      var g := RebuildGroup(input, f, l);
      FramedTrans(digest, input, f, done, {l}, m0, c0, m1, c1, meta, chunks);
      FramedWiden(digest, input, f, done + {l}, f.shards.Keys, m0, c0, meta, chunks);
      if g.Err? {
        return Err(g.error);
      }
      StoredGrows(digest, input, f, rebuilt, l, m1, c1, meta, chunks);
      IncreasingSnoc(rebuilt, l);
      return Ok(rebuilt + [l]);
    }

    /** Rebuild every recoverable group, in ascending local id order. */
    method RebuildGroups(input: ReconstructInput, f: Found) returns (r: Result<seq<nat>, RepairError>)
      requires SurveyShaped(input, f) && Consistent(meta)
      modifies this
      ensures clock >= old(clock)
      ensures Consistent(meta)
      ensures Framed(digest, input, f, f.shards.Keys, old(meta), old(chunks), meta, chunks)
      ensures r.Ok? ==> AllRebuilt(digest, input, f, r.value, meta, chunks) && RebuiltCounted(input, f, r.value)
      ensures WritesSucceed(faults) && OpenHere(old(meta), input.container) && Decodable(input, f) ==> r.Ok?
    {
      hide *;
      var rebuilt: seq<nat> := [];
      var todo := f.shards.Keys;
      ghost var done: set<nat> := {};
      ProgressStart(digest, input, f, meta, chunks);
      while todo != {}
        invariant clock >= old(clock)
        invariant Visited(f.shards.Keys, done, todo) && Consistent(meta)
        invariant Progress(digest, input, f, done, rebuilt, old(meta), old(chunks), meta, chunks)
        decreases |todo|
      {
        var l := Least(todo);
        VisitLeast(f.shards.Keys, done, todo, l);
        var g := RebuildNext(input, f, l, rebuilt, done, old(meta), old(chunks));
        if g.Err? {
          return g;
        }
        rebuilt := g.value;
        todo, done := todo - {l}, done + {l};
      }
      VisitedAll(f.shards.Keys, done);
      ProgressDone(digest, input, f, rebuilt, old(meta), old(chunks), meta, chunks);
      RebuiltParts(digest, input, f, rebuilt, meta, chunks);
      RebuiltAreCounted(input, f, rebuilt);
      return Ok(rebuilt);
    }

    /** Rebuild one known group into a container that is already open here. */
    method ReconstructAndPersist(input: ReconstructInput, local: nat, len: nat, peers: Peers)
        returns (r: Result<seq<nat>, RepairError>)
      requires Consistent(meta) && Representable(peers) && len <= USIZE_MAX
      modifies this
      ensures Consistent(meta)
      ensures Framed(digest, input, KnownGroup(input, local, len, peers), {local}, old(meta), old(chunks), meta, chunks)
      ensures !OpenHere(old(meta), input.container) ==> r.Err? && meta == old(meta) && chunks == old(chunks)
      ensures !Recoverable(input.ec, GroupReads(input, peers, local, input.sources)) ==>
        r.Err? && meta == old(meta) && chunks == old(chunks)
      ensures r.Ok? ==> |KnownSlots(input, peers, local)| >= input.ec.data
      ensures NoFaults(faults) && OpenHere(old(meta), input.container) ==>
        |KnownSlots(input, peers, local)| < input.ec.data ==>
          r == Err(TooFewShards(|KnownSlots(input, peers, local)|, input.ec.data))
      ensures r.Ok? ==> r.value == ValidSlots(input)
      ensures r.Ok? ==> GroupStored(digest, input, KnownGroup(input, local, len, peers), local, meta, chunks)
      ensures NoFaults(faults) && OpenHere(old(meta), input.container) && KnownGroupReads(input, peers, local, len) ==>
        r.Ok?
    {
      hide Consistent, Framed, GroupStored, Having, GroupDecodes, KnownSlots;
      KnownCount(input, peers, local);
      ghost var f := KnownGroup(input, local, len, peers);
      FramedSame(digest, input, f, {local}, meta, chunks);
      var ok := Attempt(CallGet);
      if !ok {
        return Err(Storage(IoFailure));
      }
      if input.container !in meta.containers {
        return Err(ContainerAbsent(input.container));
      }
      if !meta.containers[input.container].info.state.Writable() {
        return Err(ContainerNotWritable(input.container, meta.containers[input.container].info.state));
      }
      var slots := AskPeers(input, peers, local);
      var have := |Having(slots, true, |slots|)|;
      if have < input.ec.data {
        return Err(TooFewShards(have, input.ec.data));
      }
      var g := RebuildGroup(input, Found(map[local := slots], map[local := len]), local);
      if g.Err? {
        return Err(g.error);
      }
      return Ok(ValidSlots(input));
    }

    /** Best-effort removal of a container created for a rebuild: metadata, then bytes. */
    method RollbackCreated(c: nat)
      modifies this
      ensures clock >= old(clock)
      ensures DropsSucceed(faults) ==> meta == DeleteContainer(old(meta), c) && chunks == DropChunks(old(chunks), c)
      ensures meta == old(meta) || meta == DeleteContainer(old(meta), c)
      ensures chunks == old(chunks) || chunks == DropChunks(old(chunks), c)
    {
      var ok := Attempt(CallDropMeta);
      if ok {
        meta := DeleteContainer(meta, c);
      }
      ok := Attempt(CallDropChunks);
      if ok {
        chunks := DropChunks(chunks, c);
      }
    }

    /** Rebuild this datanode's missing slots of a container from its surviving peers. */
    method ReconstructFromSurvivors(input: ReconstructInput, peers: Peers) returns (r: Result<seq<nat>, RepairError>)
      requires Representable(peers) && Consistent(meta)
      modifies this
      ensures clock >= old(clock)
      ensures Consistent(meta)
      ensures OthersUntouched(input.container, old(meta), old(chunks), meta, chunks)
      ensures var f, c := SurveyOf(input, peers), input.container;
        && (f.shards == map[] ==> r == Ok([]) && meta == old(meta) && chunks == old(chunks))
        && (c in old(meta).containers && !old(meta).containers[c].info.state.Open? ==>
          meta == old(meta) && chunks == old(chunks))
        && (c in old(meta).containers && old(meta).containers[c].info.state.Closed? && r.Ok? ==> r.value == [])
        && (c in old(meta).containers ==> Framed(digest, input, f, f.shards.Keys, old(meta), old(chunks), meta, chunks))
        && (c in old(meta).containers && !OpenHere(old(meta), c) && !ClosedHere(old(meta), c) ==>
              f.shards == map[] || r.Err?)
        && (r.Ok? && (c !in old(meta).containers || old(meta).containers[c].info.state.Open?) ==>
          RebuiltExactly(input, f, r.value))
        && (r.Ok? && r.value != [] ==> AllRebuilt(digest, input, f, r.value, meta, chunks))
      ensures r.Ok? && (input.container !in old(meta).containers || OpenHere(old(meta), input.container)) ==>
        RebuiltServed(input, peers, r.value)
      ensures input.container !in old(meta).containers ==> MadeFor(input, meta)
      ensures ClosedHere(meta, input.container) <==>
        ClosedHere(old(meta), input.container) || (input.container !in old(meta).containers && r.Ok? && r.value != [])
      ensures input.container !in old(meta).containers && DropsSucceed(faults) ==>
        || RolledBack(input.container, old(meta), old(chunks), meta, chunks)
        || (r.Ok? && r.value != [] && ClosedHere(meta, input.container))
        || (LeftOpen(digest, input, SurveyOf(input, peers), meta, chunks) && r.Err? && exists n :: faults(CallClose, n))
      ensures var f := SurveyOf(input, peers);
        input.container !in old(meta).containers && OnlyCloses(faults) && Decodable(input, f) ==>
          SomeRecoverable(input, f) ==>
            clock > old(clock) && CloseDecides(digest, input, f, !faults(CallClose, clock - 1), r, meta, chunks)
      ensures NoFaults(faults) && Decodable(input, SurveyOf(input, peers)) ==>
        input.container !in old(meta).containers || OpenHere(old(meta), input.container) ==> r.Ok?
    {
      hide Consistent, Framed, StoredAll, RebuiltExactly, AbsorbAll, Decodable, LeftOpen, NoFaults, OnlyCloses,
        OthersUntouched, WritesSucceed, RebuiltServed;
      NoneFail(faults, clock);
      var c := input.container;
      var f := Gather(input, peers);
      SurveyIsShaped(input, peers);
      FramedSame(digest, input, f, f.shards.Keys, meta, chunks);
      UntouchedSame(c, meta, chunks);
      if f.shards == map[] {
        NothingToRebuild(input, f);
        RebuiltAreServed(input, peers, []);
        return Ok([]);
      }
      var ok := Attempt(CallGet);
      if !ok {
        return Err(Storage(IoFailure));
      }
      if c in meta.containers {
        var state := meta.containers[c].info.state;
        if state.Closed? {
          return Ok([]);
        }
        if !state.Writable() {
          return Err(ContainerNotWritable(c, state));
        }
        r := RebuildGroups(input, f);
        FramedUntouched(digest, input, f, old(meta), old(chunks), meta, chunks);
        if r.Ok? { RebuiltAreServed(input, peers, r.value); }
        return;
      }
      r := RebuildAbsent(input, f);
      if r.Ok? { RebuiltAreServed(input, peers, r.value); }
    }

    /** Create the container, rebuild into it, then close it, or roll it back. */
    method RebuildAbsent(input: ReconstructInput, f: Found) returns (r: Result<seq<nat>, RepairError>)
      requires SurveyShaped(input, f) && Consistent(meta) && input.container !in meta.containers
      modifies this
      ensures clock >= old(clock)
      ensures Consistent(meta)
      ensures OthersUntouched(input.container, old(meta), old(chunks), meta, chunks)
      ensures r.Ok? ==> RebuiltExactly(input, f, r.value)
      ensures r.Ok? && r.value != [] ==> AllRebuilt(digest, input, f, r.value, meta, chunks)
      ensures ClosedHere(meta, input.container) <==> r.Ok? && r.value != []
      ensures MadeFor(input, meta)
      ensures DropsSucceed(faults) ==>
        || RolledBack(input.container, old(meta), old(chunks), meta, chunks)
        || (r.Ok? && r.value != [] && ClosedHere(meta, input.container))
        || (LeftOpen(digest, input, f, meta, chunks) && r.Err? && exists n :: faults(CallClose, n))
      ensures NoFaults(faults) && Decodable(input, f) ==> r.Ok?
      ensures OnlyCloses(faults) && Decodable(input, f) && SomeRecoverable(input, f) ==>
        clock > old(clock) && CloseDecides(digest, input, f, !faults(CallClose, clock - 1), r, meta, chunks)
    {
      hide *;
      NoneFail(faults, clock);
      var c := input.container;
      var info := NewOpen(c, input.ec);
      UntouchedSame(c, meta, chunks);
      NotClosed(meta, c);
      MadeAbsent(input, meta);
      RolledSame(c, meta, chunks);
      var ok := Attempt(CallCreate);
      if !ok {
        return Err(Storage(IoFailure));
      }
      Created(meta, c, input.ec);
      MadeAbsent(input, meta);
      meta := Create(meta, info).0;
      ghost var m1 := meta;
      r := RebuildGroups(input, f);
      FramedUntouched(digest, input, f, m1, old(chunks), meta, chunks);
      RollbackUntouched(c, old(meta), old(chunks), info, meta, chunks);
      RollbackRestores(c, old(meta), old(chunks), meta, chunks);
      StaysOpen(digest, input, f, f.shards.Keys, m1, old(chunks), meta, chunks);
      MadeStays(digest, input, f, f.shards.Keys, m1, old(chunks), meta, chunks);
      NotClosed(meta, c);
      NotClosed(old(meta), c);
      Rolled(c, old(meta), old(chunks), chunks);
      CleanupMeans(faults, clock);
      CleanupMeans(faults, clock + 1);
      if r.Err? {
        RollbackCreated(c);
        return;
      }
      RebuiltParts(digest, input, f, r.value, meta, chunks);
      if r.value == [] {
        RollbackCreated(c);
        return;
      }
      NoneFail(faults, clock);
      ok := Attempt(CallClose);
      if !ok {
        StaysAsItIs(digest, input, f, r.value, meta, chunks);
        r := Err(Storage(IoFailure));
        Decided(digest, input, f, false, r, meta, chunks);
        return;
      }
      ClosingKeeps(digest, input, f, r.value, old(meta), old(chunks), meta, chunks);
      meta := SetState(meta, c, Closed).0;
      Decided(digest, input, f, true, r, meta, chunks);
    }
  }

  /** A container a failed close left open stays open, and a closed one stays closed, however often the command is
      delivered again, whatever the peers answer and whichever calls fail. */
  method Redeliver(t: Target, input: ReconstructInput, answers: seq<Peers>)
    requires Consistent(t.meta) && (OpenHere(t.meta, input.container) || ClosedHere(t.meta, input.container))
    requires forall i :: 0 <= i < |answers| ==> Representable(answers[i])
    modifies t
    ensures Consistent(t.meta)
    ensures OpenHere(t.meta, input.container) <==> OpenHere(old(t.meta), input.container)
    ensures ClosedHere(t.meta, input.container) <==> ClosedHere(old(t.meta), input.container)
  {
    hide Consistent, Representable, OthersUntouched, Framed, RebuiltExactly, StoredAll, LeftOpen,
      AbsorbAll, Decodable, SomeRecoverable, CloseDecides;
    for i := 0 to |answers|
      invariant Consistent(t.meta)
      invariant OpenHere(t.meta, input.container) <==> OpenHere(old(t.meta), input.container)
      invariant ClosedHere(t.meta, input.container) <==> ClosedHere(old(t.meta), input.container)
    {
      ghost var m0, c0, f := t.meta, t.chunks, SurveyOf(input, answers[i]);
      var _ := t.ReconstructFromSurvivors(input, answers[i]);
      StaysOpen(t.digest, input, f, f.shards.Keys, m0, c0, t.meta, t.chunks);
    }
  }

  /** Nothing but closes fails. The first delivery fails if and only if its own close does, call `at`; then it leaves
      the container complete but open (`left`), and no later delivery closes it, although later closes may succeed. */
  method CloseFailsThenRedelivered(t: Target, input: ReconstructInput, peers: Peers, again: seq<Peers>)
      returns (first: Result<seq<nat>, RepairError>, ghost at: nat, ghost left: (Meta, map<BlockId, seq<byte>>))
    requires Consistent(t.meta) && input.container !in t.meta.containers && OnlyCloses(t.faults)
    requires Representable(peers) && forall i :: 0 <= i < |again| ==> Representable(again[i])
    requires Decodable(input, SurveyOf(input, peers)) && SomeRecoverable(input, SurveyOf(input, peers))
    modifies t
    ensures old(t.clock) <= at && (first.Err? <==> t.faults(CallClose, at))
    ensures first.Err? ==> LeftOpen(t.digest, input, SurveyOf(input, peers), left.0, left.1)
    ensures first.Err? ==> OpenHere(t.meta, input.container) && !ClosedHere(t.meta, input.container)
    ensures first.Ok? ==> first.value != [] && ClosedHere(t.meta, input.container)
  {
    hide Consistent, Representable, OthersUntouched, Framed, RebuiltExactly, StoredAll, AbsorbAll,
      Decodable, SomeRecoverable, OnlyCloses;
    first := t.ReconstructFromSurvivors(input, peers);
    at, left := t.clock - 1, (t.meta, t.chunks);
    assert CloseDecides(t.digest, input, SurveyOf(input, peers), !t.faults(CallClose, at), first, t.meta, t.chunks);
    Redeliver(t, input, again);
  }

  /** The container, if it is here, carries the configuration it is rebuilt with. */
  predicate MadeFor(input: ReconstructInput, m: Meta) {
    input.container in m.containers ==> m.containers[input.container].info.ec == Some(input.ec)
  }

  lemma MadeStays(digest: Digest, input: ReconstructInput, f: Found, locals: set<nat>, m0: Meta,
      c0: map<BlockId, seq<byte>>, m: Meta, c: map<BlockId, seq<byte>>)
    requires Framed(digest, input, f, locals, m0, c0, m, c) && MadeFor(input, m0)
    ensures MadeFor(input, m) && MadeFor(input, DeleteContainer(m, input.container))
      && MadeFor(input, SetState(m, input.container, Closed).0)
  {
    hide ChunkFramed, BlockFramed;
  }

  lemma MadeAbsent(input: ReconstructInput, m: Meta)
    requires input.container !in m.containers
    ensures MadeFor(input, m) && MadeFor(input, Create(m, NewOpen(input.container, input.ec)).0)
  {}

  /** The container is here, and closed. */
  predicate ClosedHere(m: Meta, c: nat) {
    c in m.containers && m.containers[c].info.state.Closed?
  }

  /** The store's metadata is as it was; of the bytes at most this container's are gone. */
  predicate RolledBack(c: nat, m0: Meta, c0: map<BlockId, seq<byte>>, m: Meta, ch: map<BlockId, seq<byte>>) {
    m == m0 && (ch == c0 || ch == DropChunks(c0, c))
  }

  /** The container is complete but still open: what a failed close leaves. */
  ghost predicate LeftOpen(digest: Digest, input: ReconstructInput, f: Found, m: Meta, ch: map<BlockId, seq<byte>>) {
    OpenHere(m, input.container) && exists rebuilt :: rebuilt != [] && AllRebuilt(digest, input, f, rebuilt, m, ch)
  }

  /** The last call is the close; it alone decides between a finished container and one left open. */
  ghost predicate CloseDecides(digest: Digest, input: ReconstructInput, f: Found, closed: bool,
      r: Result<seq<nat>, RepairError>, m: Meta, ch: map<BlockId, seq<byte>>)
  {
    if closed then r.Ok? && r.value != [] && ClosedHere(m, input.container)
    else r.Err? && LeftOpen(digest, input, f, m, ch)
  }

  ghost predicate SomeRecoverable(input: ReconstructInput, f: Found) {
    exists l :: l in f.shards && Recoverable(input.ec, f.shards[l])
  }

  lemma StaysAsItIs(digest: Digest, input: ReconstructInput, f: Found, rebuilt: seq<nat>,
      m: Meta, ch: map<BlockId, seq<byte>>)
    requires OpenHere(m, input.container) && rebuilt != [] && AllRebuilt(digest, input, f, rebuilt, m, ch)
    ensures LeftOpen(digest, input, f, m, ch)
  {}

  lemma Decided(digest: Digest, input: ReconstructInput, f: Found, closed: bool, r: Result<seq<nat>, RepairError>,
      m: Meta, ch: map<BlockId, seq<byte>>)
    requires closed ==> r.Ok? && r.value != [] && ClosedHere(m, input.container)
    requires !closed ==> r.Err? && LeftOpen(digest, input, f, m, ch)
    ensures CloseDecides(digest, input, f, closed, r, m, ch)
  {}

  lemma NotClosed(m: Meta, c: nat)
    ensures c !in m.containers || OpenHere(m, c) ==> !ClosedHere(m, c)
  {}

  lemma RolledSame(c: nat, m: Meta, ch: map<BlockId, seq<byte>>)
    ensures RolledBack(c, m, ch, m, ch)
  {}

  lemma Rolled(c: nat, m0: Meta, c0: map<BlockId, seq<byte>>, ch: map<BlockId, seq<byte>>)
    requires DropChunks(ch, c) == DropChunks(c0, c)
    ensures RolledBack(c, m0, c0, m0, DropChunks(ch, c))
  {}

  lemma Created(m: Meta, c: nat, ec: Profile)
    requires Consistent(m) && c !in m.containers
    ensures Consistent(Create(m, NewOpen(c, ec)).0)
      && c in Create(m, NewOpen(c, ec)).0.containers && NewOpen(c, ec).id == c
    ensures OpenHere(Create(m, NewOpen(c, ec)).0, c)
  {
    CreateKeeps(m, NewOpen(c, ec));
    hide Consistent;
  }

  lemma RebuiltParts(digest: Digest, input: ReconstructInput, f: Found, rebuilt: seq<nat>,
      m: Meta, c: map<BlockId, seq<byte>>)
    requires AllRebuilt(digest, input, f, rebuilt, m, c)
    ensures RebuiltExactly(input, f, rebuilt) && (SomeRecoverable(input, f) ==> rebuilt != [])
  {
    hide Recoverable, StoredAll;
  }

  lemma CleanupMeans(faults: (Call, nat) -> bool, n: nat)
    ensures DropsSucceed(faults) ==> !faults(CallDropMeta, n) && !faults(CallDropChunks, n)
  {}

  ghost predicate DropsSucceed(faults: (Call, nat) -> bool) {
    forall n :: !faults(CallDropMeta, n) && !faults(CallDropChunks, n)
  }

  /** No other container's record, blocks or bytes change. */
  ghost predicate OthersUntouched(c: nat, m0: Meta, c0: map<BlockId, seq<byte>>, m: Meta, ch: map<BlockId, seq<byte>>) {
    && (forall k :: k != c ==> (k in m.containers <==> k in m0.containers))
    && (forall k :: k != c && k in m.containers ==> m.containers[k] == m0.containers[k])
    && (forall id: BlockId :: id.container != c ==> ((id in m.blocks <==> id in m0.blocks) && (id in ch <==> id in c0)))
    && (forall id: BlockId :: id.container != c && id in m.blocks ==> m.blocks[id] == m0.blocks[id])
    && (forall id: BlockId :: id.container != c && id in ch ==> ch[id] == c0[id])
  }

  lemma UntouchedSame(c: nat, m: Meta, ch: map<BlockId, seq<byte>>)
    ensures OthersUntouched(c, m, ch, m, ch)
  {}

  lemma FramedUntouched(digest: Digest, input: ReconstructInput, f: Found, m0: Meta, c0: map<BlockId, seq<byte>>,
      m: Meta, c: map<BlockId, seq<byte>>)
    requires Framed(digest, input, f, f.shards.Keys, m0, c0, m, c)
    ensures OthersUntouched(input.container, m0, c0, m, c)
    ensures input.container in m0.containers ==> input.container in m.containers
    ensures input.container in m0.containers ==>
      m.containers[input.container].info.state == m0.containers[input.container].info.state
  {
    hide RebuiltShard, RecordFor;
    forall id: BlockId | id.container != input.container
      ensures (id in m.blocks <==> id in m0.blocks) && (id in m.blocks ==> m.blocks[id] == m0.blocks[id])
      ensures (id in c <==> id in c0) && (id in c ==> c[id] == c0[id])
    {
      assert ChunkFramed(input, f, f.shards.Keys, c0, c, id) && BlockFramed(digest, input, f, f.shards.Keys, m0, m, id);
    }
  }

  /** Deleting a container created for the rebuild restores the metadata exactly. */
  lemma RollbackRestores(c: nat, m0: Meta, c0: map<BlockId, seq<byte>>, m: Meta, ch: map<BlockId, seq<byte>>)
    requires Consistent(m0) && c !in m0.containers && Consistent(m)
    requires OthersUntouched(c, m0, c0, m, ch)
    ensures DeleteContainer(m, c) == m0 && Consistent(DeleteContainer(m, c))
    ensures DropChunks(ch, c) == DropChunks(c0, c)
  {
    DeleteContainerKeeps(m, c);
    NoOrphans(m0, c);
    hide Consistent;
    ContainersRestored(c, m0, c0, m, ch);
    BlocksRestored(c, m0, c0, m, ch);
    hide OthersUntouched;
  }

  lemma ContainersRestored(c: nat, m0: Meta, c0: map<BlockId, seq<byte>>, m: Meta, ch: map<BlockId, seq<byte>>)
    requires c !in m0.containers && OthersUntouched(c, m0, c0, m, ch)
    ensures DeleteContainer(m, c).containers == m0.containers
    ensures DropChunks(ch, c) == DropChunks(c0, c)
  {
    assert (m.containers - {c}).Keys == m0.containers.Keys;
  }

  lemma BlocksRestored(c: nat, m0: Meta, c0: map<BlockId, seq<byte>>, m: Meta, ch: map<BlockId, seq<byte>>)
    requires OthersUntouched(c, m0, c0, m, ch) && forall b :: b in m0.blocks ==> b.container != c
    ensures DeleteContainer(m, c).blocks == m0.blocks
  {
    assert DeleteContainer(m, c).blocks.Keys == m0.blocks.Keys;
  }

  lemma NoOrphans(m: Meta, c: nat)
    requires Consistent(m) && c !in m.containers
    ensures forall b :: b in m.blocks ==> b.container != c
  {}

  lemma NothingToRebuild(input: ReconstructInput, f: Found)
    requires f.shards == map[]
    ensures RebuiltExactly(input, f, [])
  {}

  lemma RollbackUntouched(c: nat, m0: Meta, c0: map<BlockId, seq<byte>>, info: ContainerInfo,
      m: Meta, ch: map<BlockId, seq<byte>>)
    requires c !in m0.containers && info.id == c && OthersUntouched(c, Create(m0, info).0, c0, m, ch)
    ensures OthersUntouched(c, m0, c0, m, ch) && OthersUntouched(c, m0, c0, m0, ch)
    ensures OthersUntouched(c, m0, c0, m, DropChunks(ch, c)) && OthersUntouched(c, m0, c0, m0, DropChunks(ch, c))
  {}

  lemma ClosingKeeps(digest: Digest, input: ReconstructInput, f: Found, rebuilt: seq<nat>, m0: Meta,
      c0: map<BlockId, seq<byte>>, m: Meta, ch: map<BlockId, seq<byte>>)
    requires Consistent(m) && input.container in m.containers && AllRebuilt(digest, input, f, rebuilt, m, ch)
    requires OthersUntouched(input.container, m0, c0, m, ch)
    ensures Consistent(SetState(m, input.container, Closed).0)
    ensures OthersUntouched(input.container, m0, c0, SetState(m, input.container, Closed).0, ch)
    ensures ClosedHere(SetState(m, input.container, Closed).0, input.container)
    ensures AllRebuilt(digest, input, f, rebuilt, SetState(m, input.container, Closed).0, ch)
  {
    SetStateKeeps(m, input.container, Closed);
    ClosingKeepsShards(digest, input, f, rebuilt, m, ch);
    ClosingKeepsOthers(input.container, m0, c0, m, ch);
    hide AllRebuilt, Consistent, OthersUntouched;
  }

  lemma ClosingKeepsOthers(c: nat, m0: Meta, c0: map<BlockId, seq<byte>>, m: Meta, ch: map<BlockId, seq<byte>>)
    requires c in m.containers && OthersUntouched(c, m0, c0, m, ch)
    ensures OthersUntouched(c, m0, c0, SetState(m, c, Closed).0, ch)
  {}

  lemma ClosingKeepsShards(digest: Digest, input: ReconstructInput, f: Found, rebuilt: seq<nat>,
      m: Meta, ch: map<BlockId, seq<byte>>)
    requires input.container in m.containers && AllRebuilt(digest, input, f, rebuilt, m, ch)
    ensures AllRebuilt(digest, input, f, rebuilt, SetState(m, input.container, Closed).0, ch)
  {
    hide RebuiltShard, RecordFor;
    var n := SetState(m, input.container, Closed).0;
    forall l | l in rebuilt
      ensures GroupStored(digest, input, f, l, n, ch)
    {
      assert GroupStored(digest, input, f, l, m, ch);
    }
  }

  /** Byte vectors are at most isize::MAX long and recorded lengths fit a u64. */
  ghost predicate Representable(peers: Peers) {
    && (forall e, b :: peers.read(e, b).Some? ==> |peers.read(e, b).value| <= ISIZE_MAX)
    && (forall e, c, i ::
          peers.list(e, c).Some? && 0 <= i < |peers.list(e, c).value| && peers.list(e, c).value[i].groupLen.Some? ==>
          peers.list(e, c).value[i].groupLen.value <= USIZE_MAX)
  }

  ghost predicate SmallVisits(vs: seq<Visit>) {
    forall i :: 0 <= i < |vs| ==> vs[i].len <= USIZE_MAX && (vs[i].bytes.Some? ==> |vs[i].bytes.value| <= ISIZE_MAX)
  }

  lemma {:induction false} BlockVisitsSmall(input: ReconstructInput, peers: Peers, s: Source, blocks: seq<BlockData>)
    requires Representable(peers)
    requires forall i :: 0 <= i < |blocks| && blocks[i].groupLen.Some? ==> blocks[i].groupLen.value <= USIZE_MAX
    ensures SmallVisits(BlockVisits(input, peers, s, blocks))
  {
    if blocks != [] { BlockVisitsSmall(input, peers, s, blocks[..|blocks| - 1]); }
  }

  lemma {:induction false} AllVisitsSmall(input: ReconstructInput, peers: Peers, sources: seq<Source>)
    requires Representable(peers)
    ensures SmallVisits(AllVisits(input, peers, sources))
  {
    if sources != [] {
      var s := sources[|sources| - 1];
      AllVisitsSmall(input, peers, sources[..|sources| - 1]);
      match peers.list(s.endpoint, input.container)
      case None =>
      case Some(blocks) => BlockVisitsSmall(input, peers, s, blocks);
    }
  }

  lemma SurveyIsShaped(input: ReconstructInput, peers: Peers)
    requires Representable(peers)
    ensures SurveyShaped(input, SurveyOf(input, peers))
  {
    var total, vs, f := input.ec.Total(), AllVisits(input, peers, input.sources), SurveyOf(input, peers);
    AllVisitsInRange(input, peers, input.sources);
    AllVisitsSmall(input, peers, input.sources);
    hide AbsorbAll, AllVisits, Representable;
    forall l
      ensures l in f.shards ==> l in f.lengths
      ensures l in f.lengths ==> f.lengths[l] <= USIZE_MAX
    {
      LengthIsMinimum(total, vs, l);
    }
    forall l, i | l in f.shards && 0 <= i < |f.shards[l]| && f.shards[l][i].Some?
      ensures |f.shards[l][i].value| <= ISIZE_MAX
    {
      ShardsWereRead(total, vs, l, i);
    }
  }

  function DropChunks(chunks: map<BlockId, seq<byte>>, c: nat): map<BlockId, seq<byte>> {
    map id | id in chunks && id.container != c :: chunks[id]
  }

  /** A survey's maps have the shape the rebuild relies on. */
  ghost predicate SurveyShaped(input: ReconstructInput, f: Found) {
    && Shaped(input.ec.Total(), f) && f.shards.Keys <= f.lengths.Keys
    && (forall l :: l in f.lengths ==> f.lengths[l] <= USIZE_MAX)
    && (forall l, i :: l in f.shards && 0 <= i < |f.shards[l]| && f.shards[l][i].Some? ==>
      |f.shards[l][i].value| <= ISIZE_MAX)
  }

  lemma GroupShaped(input: ReconstructInput, f: Found, l: nat)
    requires SurveyShaped(input, f) && l in f.shards
    ensures l in f.lengths && |f.shards[l]| == input.ec.Total() && f.lengths[l] <= USIZE_MAX
    ensures forall i :: 0 <= i < |f.shards[l]| && f.shards[l][i].Some? ==> |f.shards[l][i].value| <= ISIZE_MAX
  {}

  /** Exactly the recoverable groups were rebuilt, in order, and every missing slot of each is stored. */
  ghost predicate AllRebuilt(digest: Digest, input: ReconstructInput, f: Found, rebuilt: seq<nat>, meta: Meta,
      chunks: map<BlockId, seq<byte>>) {
    && RebuiltExactly(input, f, rebuilt)
    && StoredAll(digest, input, f, rebuilt, meta, chunks)
  }

  /** The groups with at least k survivors, ascending. */
  ghost predicate RebuiltExactly(input: ReconstructInput, f: Found, rebuilt: seq<nat>) {
    && (forall l :: l in rebuilt <==> l in f.shards && Recoverable(input.ec, f.shards[l]))
    && Increasing(rebuilt)
  }

  /** The groups rebuilt are those of which at least k slots hold a buffer. */
  ghost predicate RebuiltCounted(input: ReconstructInput, f: Found, rebuilt: seq<nat>) {
    forall l :: l in rebuilt <==> l in f.shards && |PresentSlots(f.shards[l], |f.shards[l]|)| >= input.ec.data
  }

  /** The groups rebuilt are those of which the peers serve at least k distinct slots. */
  ghost predicate RebuiltServed(input: ReconstructInput, peers: Peers, rebuilt: seq<nat>) {
    forall l :: l in rebuilt <==>
      ServedSlots(input, peers, l) != {} && |ServedSlots(input, peers, l)| >= input.ec.data
  }

  lemma RebuiltAreCounted(input: ReconstructInput, f: Found, rebuilt: seq<nat>)
    requires RebuiltExactly(input, f, rebuilt)
    ensures RebuiltCounted(input, f, rebuilt)
  {
    hide PresentSlots, Having, Increasing;
    forall l | l in f.shards
      ensures Recoverable(input.ec, f.shards[l]) <==> |PresentSlots(f.shards[l], |f.shards[l]|)| >= input.ec.data
    {
      HavingCount(f.shards[l], |f.shards[l]|);
    }
  }

  lemma RebuiltAreServed(input: ReconstructInput, peers: Peers, rebuilt: seq<nat>)
    requires RebuiltExactly(input, SurveyOf(input, peers), rebuilt)
    ensures RebuiltServed(input, peers, rebuilt)
  {
    hide ServedSlots, Having, Increasing, AbsorbAll, AllVisits;
    var f := SurveyOf(input, peers);
    forall l
      ensures (l in f.shards && Recoverable(input.ec, f.shards[l])) <==>
        ServedSlots(input, peers, l) != {} && |ServedSlots(input, peers, l)| >= input.ec.data
    {
      FoundIffServed(input, peers, l);
      if l in f.shards { SurvivorCount(input, peers, l); }
    }
  }

  /** Every valid missing slot of group l is stored. */
  ghost predicate GroupStored(digest: Digest, input: ReconstructInput, f: Found, l: nat, meta: Meta,
      chunks: map<BlockId, seq<byte>>) {
    forall slot :: slot in input.missing && 1 <= slot <= input.ec.Total() ==>
      Stored(digest, input, f, BlockId(input.container, l, slot), meta, chunks)
  }

  ghost predicate StoredAll(digest: Digest, input: ReconstructInput, f: Found, rebuilt: seq<nat>, meta: Meta,
      chunks: map<BlockId, seq<byte>>) {
    forall l :: l in rebuilt ==> GroupStored(digest, input, f, l, meta, chunks)
  }

  /** Where a rebuild stands once the groups in `done` have been visited. */
  ghost predicate Progress(digest: Digest, input: ReconstructInput, f: Found, done: set<nat>, rebuilt: seq<nat>,
    m0: Meta, c0: map<BlockId, seq<byte>>, m: Meta, c: map<BlockId, seq<byte>>) {
    && Framed(digest, input, f, done, m0, c0, m, c)
    && StoredAll(digest, input, f, rebuilt, m, c)
    && (forall l :: l in rebuilt <==> l in done && l in f.shards && Recoverable(input.ec, f.shards[l]))
    && Increasing(rebuilt)
  }

  ghost predicate Increasing(s: seq<nat>) {
    forall i, j :: 0 <= i < j < |s| ==> s[i] < s[j]
  }

  lemma IncreasingSnoc(s: seq<nat>, x: nat)
    requires Increasing(s) && forall y :: y in s ==> y < x
    ensures Increasing(s + [x])
  {
    forall i | 0 <= i < |s| ensures s[i] < x { assert s[i] in s; }
  }

  /** The keys, split into those visited and the larger ones still to visit. */
  ghost predicate Visited(keys: set<nat>, done: set<nat>, todo: set<nat>) {
    done + todo == keys && done !! todo && forall d, t :: d in done && t in todo ==> d < t
  }

  lemma VisitedAll(keys: set<nat>, done: set<nat>)
    requires Visited(keys, done, {})
    ensures done == keys
  {}

  lemma VisitLeast(keys: set<nat>, done: set<nat>, todo: set<nat>, l: nat)
    requires Visited(keys, done, todo) && l in todo && forall x :: x in todo ==> l <= x
    ensures Visited(keys, done + {l}, todo - {l})
    ensures l in keys && done <= keys && forall d :: d in done ==> d < l
  {}

  lemma ProgressStart(digest: Digest, input: ReconstructInput, f: Found, m: Meta, c: map<BlockId, seq<byte>>)
    ensures Progress(digest, input, f, {}, [], m, c, m, c)
    ensures Visited(f.shards.Keys, {}, f.shards.Keys)
  {
    FramedSame(digest, input, f, {}, m, c);
    hide Framed, Recoverable;
  }

  lemma ProgressDone(digest: Digest, input: ReconstructInput, f: Found, rebuilt: seq<nat>, m0: Meta,
      c0: map<BlockId, seq<byte>>, m: Meta, c: map<BlockId, seq<byte>>)
    requires Progress(digest, input, f, f.shards.Keys, rebuilt, m0, c0, m, c)
    ensures Framed(digest, input, f, f.shards.Keys, m0, c0, m, c) && AllRebuilt(digest, input, f, rebuilt, m, c)
  {
    hide Framed, StoredAll, Recoverable;
  }

  /** Rebuilding one more group keeps the earlier ones stored. */
  lemma StoredGrows(digest: Digest, input: ReconstructInput, f: Found, rebuilt: seq<nat>, l: nat, m0: Meta,
      c0: map<BlockId, seq<byte>>, m: Meta, c: map<BlockId, seq<byte>>)
    requires StoredAll(digest, input, f, rebuilt, m0, c0) && l !in rebuilt
    requires Framed(digest, input, f, {l}, m0, c0, m, c) && GroupStored(digest, input, f, l, m, c)
    ensures StoredAll(digest, input, f, rebuilt + [l], m, c)
  {
    hide Framed, Stored;
    forall k | k in rebuilt
      ensures GroupStored(digest, input, f, k, m, c)
    {
      assert GroupStored(digest, input, f, k, m0, c0);
      forall slot | slot in input.missing && 1 <= slot <= input.ec.Total()
        ensures Stored(digest, input, f, BlockId(input.container, k, slot), m, c)
      {
        StoredKept(digest, input, f, l, BlockId(input.container, k, slot), m0, c0, m, c);
      }
    }
  }

  lemma FramedWiden(digest: Digest, input: ReconstructInput, f: Found, l1: set<nat>, l2: set<nat>, m0: Meta,
      c0: map<BlockId, seq<byte>>, m: Meta, c: map<BlockId, seq<byte>>)
    requires l1 <= l2 && Framed(digest, input, f, l1, m0, c0, m, c)
    ensures Framed(digest, input, f, l2, m0, c0, m, c)
  {
    hide RebuiltShard, RecordFor, Targeted;
    forall id
      ensures ChunkFramed(input, f, l2, c0, c, id) && BlockFramed(digest, input, f, l2, m0, m, id)
    {
      assert ChunkFramed(input, f, l1, c0, c, id) && BlockFramed(digest, input, f, l1, m0, m, id);
    }
  }

  lemma StoredKept(digest: Digest, input: ReconstructInput, f: Found, l: nat, id: BlockId, m0: Meta,
      c0: map<BlockId, seq<byte>>, m: Meta, c: map<BlockId, seq<byte>>)
    requires Stored(digest, input, f, id, m0, c0) && id.local != l && Framed(digest, input, f, {l}, m0, c0, m, c)
    ensures Stored(digest, input, f, id, m, c)
  {
    hide RebuiltShard, RecordFor, Targeted;
    assert ChunkFramed(input, f, {l}, c0, c, id) && BlockFramed(digest, input, f, {l}, m0, m, id);
  }

  lemma RecordId(digest: Digest, p: Profile, id: BlockId, len: nat, shard: seq<byte>)
    ensures RecordFor(digest, p, id, len, shard).id == id
  {}

  lemma RebuiltBy(p: Profile, len: nat, slots: Slots, slot: nat, obj: seq<byte>, shard: seq<byte>)
    requires 1 <= slot <= p.Total() && DecodesTo(p, len, slots, obj) && shard == StoredShard(p, obj, slot - 1)
    ensures RebuiltShard(p, len, slots, slot, shard)
  {}

  lemma FramedSame(digest: Digest, input: ReconstructInput, f: Found, locals: set<nat>,
      m: Meta, c: map<BlockId, seq<byte>>)
    ensures Framed(digest, input, f, locals, m, c, m, c)
  {}

  // ---- rebuilding at the minimum recorded length ----

  /** The survey saw group l truthfully: no length below the true one, one exact, every delivered shard true. */
  ghost predicate TrueSurvey(p: Profile, vs: seq<Visit>, l: nat, obj: seq<byte>)
    requires p.Layable() && ValidConfig(p.Config()) && InRange(p.Total(), vs)
  {
    && (forall n :: 0 <= n < |vs| && vs[n].local == l ==> vs[n].len >= |obj|)
    && (exists n :: 0 <= n < |vs| && vs[n].local == l && vs[n].len == |obj|)
    && (forall n :: 0 <= n < |vs| && vs[n].local == l && vs[n].bytes.Some? ==>
      vs[n].bytes.value == StoredShard(p, obj, vs[n].slot - 1))
  }

  /** The minimum recorded length is the true one. */
  lemma MinimumLengthIsTrue(p: Profile, vs: seq<Visit>, l: nat, obj: seq<byte>)
    requires p.Layable() && ValidConfig(p.Config()) && InRange(p.Total(), vs) && TrueSurvey(p, vs, l, obj)
    ensures l in AbsorbAll(p.Total(), vs).lengths && AbsorbAll(p.Total(), vs).lengths[l] == |obj|
  {
    hide AbsorbAll, StoredShard;
    LengthIsMinimum(p.Total(), vs, l);
  }

  /** The buffers found for the group are the object's own shards. */
  lemma FoundShardsAreTrue(p: Profile, vs: seq<Visit>, l: nat, obj: seq<byte>, i: nat)
    requires p.Layable() && ValidConfig(p.Config()) && InRange(p.Total(), vs) && TrueSurvey(p, vs, l, obj)
    requires l in AbsorbAll(p.Total(), vs).shards && i < p.Total() && AbsorbAll(p.Total(), vs).shards[l][i].Some?
    ensures AbsorbAll(p.Total(), vs).shards[l][i].value == StoredShard(p, obj, i)
  {
    hide AbsorbAll, StoredShard;
    ShardsWereRead(p.Total(), vs, l, i);
    var n :| 0 <= n < |vs| && vs[n].local == l && vs[n].slot == i + 1
      && vs[n].bytes == AbsorbAll(p.Total(), vs).shards[l][i];
  }

  /** A shard rebuilt at the true length from buffers that are true or of the wrong size is the original shard. */
  lemma RebuiltIsOriginal(p: Profile, obj: seq<byte>, slots: Slots, slot: nat, bytes: seq<byte>)
    requires p.Layable() && ValidConfig(p.Config()) && |slots| == p.Total()
    requires forall i :: 0 <= i < |slots| && slots[i].Some? && |slots[i].value| == ExpectedShardLen(p, |obj|, i) ==>
      slots[i].value == StoredShard(p, obj, i)
    requires RebuiltShard(p, |obj|, slots, slot, bytes)
    ensures bytes == StoredShard(p, obj, slot - 1)
  {
    hide StoredShard, Recovers, ExpectedShardLen;
    var out :| DecodesTo(p, |obj|, slots, out) && bytes == StoredShard(p, out, slot - 1);
    StoredAreCandidate(p, Kept(p, |obj|, slots), obj);
    RecoversOnly(p, Kept(p, |obj|, slots), obj, out);
  }

  lemma RecoversOnly(p: Profile, kept: Slots, obj: seq<byte>, out: seq<byte>)
    requires p.Layable() && |kept| == p.Total() && Recovers(p, |obj|, kept, out) && Candidate(p, |obj|, kept, obj)
    ensures out == obj
  {}

  /** A group seen truthfully with k survivors decodes, so its rebuild gets through. */
  lemma TrueGroupDecodes(input: ReconstructInput, peers: Peers, l: nat, obj: seq<byte>)
    requires input.ec.Layable() && ValidConfig(input.ec.Config())
    requires InRange(input.ec.Total(), AllVisits(input, peers, input.sources))
    requires TrueSurvey(input.ec, AllVisits(input, peers, input.sources), l, obj)
    requires |obj| <= USIZE_MAX && Times(NumStripes(input.ec, |obj|), input.ec.chunkSize) <= USIZE_MAX
    requires l in SurveyOf(input, peers).shards && Shaped(input.ec.Total(), SurveyOf(input, peers))
    requires Recoverable(input.ec, SurveyOf(input, peers).shards[l])
    ensures GroupDecodes(input, SurveyOf(input, peers), l)
  {
    hide AbsorbAll, AllVisits, StoredShard, TrueSurvey, NumStripes, Times, ExpectedShardLen, DecodeError, Having;
    var p, vs, slots := input.ec, AllVisits(input, peers, input.sources), SurveyOf(input, peers).shards[l];
    MinimumLengthIsTrue(p, vs, l, obj);
    forall i | 0 <= i < p.Total() && slots[i].Some? ensures slots[i].value == StoredShard(p, obj, i) {
      FoundShardsAreTrue(p, vs, l, obj, i);
    }
    TrueSlotsDecode(p, slots, obj);
  }

  lemma TrueSlotsDecode(p: Profile, slots: Slots, obj: seq<byte>)
    requires p.Layable() && ValidConfig(p.Config()) && |slots| == p.Total() && Recoverable(p, slots)
    requires |obj| <= USIZE_MAX && Times(NumStripes(p, |obj|), p.chunkSize) <= USIZE_MAX
    requires forall i :: 0 <= i < |slots| && slots[i].Some? ==> slots[i].value == StoredShard(p, obj, i)
    ensures DecodeError(p, |obj|, slots).None?
  {
    hide StoredShard, NumStripes, Times, ExpectedShardLen, DecodeError;
    var have := Having(slots, true, |slots|);
    var survivors := Mds.Elements(have);
    assert Mds.Distinct(have);
    SurvivorsDecode(p, obj, slots, survivors, obj);
  }

  /** Every slot a truthful reconstruction stores holds the original shard, data or parity. */
  lemma ReconstructionIsExact(digest: Digest, input: ReconstructInput, peers: Peers, obj: seq<byte>, id: BlockId,
      meta: Meta, chunks: map<BlockId, seq<byte>>)
    requires input.ec.Layable() && ValidConfig(input.ec.Config())
    requires InRange(input.ec.Total(), AllVisits(input, peers, input.sources))
    requires TrueSurvey(input.ec, AllVisits(input, peers, input.sources), id.local, obj)
    requires Stored(digest, input, SurveyOf(input, peers), id, meta, chunks)
    ensures chunks[id] == StoredShard(input.ec, obj, id.slot - 1)
    ensures meta.blocks[id] == RecordFor(digest, input.ec, id, |obj|, StoredShard(input.ec, obj, id.slot - 1))
  {
    hide AbsorbAll, AllVisits, StoredShard, RebuiltShard, RecordFor, TrueSurvey;
    var f, vs := SurveyOf(input, peers), AllVisits(input, peers, input.sources);
    MinimumLengthIsTrue(input.ec, vs, id.local, obj);
    forall i | 0 <= i < input.ec.Total() && f.shards[id.local][i].Some?
      ensures f.shards[id.local][i].value == StoredShard(input.ec, obj, i)
    {
      FoundShardsAreTrue(input.ec, vs, id.local, obj, i);
    }
    RebuiltIsOriginal(input.ec, obj, f.shards[id.local], id.slot, chunks[id]);
  }

  /** So it is when a single known group is rebuilt at its true length from true shards. */
  lemma KnownGroupIsExact(digest: Digest, input: ReconstructInput, peers: Peers, obj: seq<byte>, id: BlockId,
      meta: Meta, chunks: map<BlockId, seq<byte>>)
    requires input.ec.Layable() && ValidConfig(input.ec.Config())
    requires var slots := GroupReads(input, peers, id.local, input.sources);
             forall i :: 0 <= i < |slots| && slots[i].Some? ==> slots[i].value == StoredShard(input.ec, obj, i)
    requires GroupStored(digest, input, KnownGroup(input, id.local, |obj|, peers), id.local, meta, chunks)
      && Targeted(input, id)
    ensures id in chunks && chunks[id] == StoredShard(input.ec, obj, id.slot - 1)
    ensures id in meta.blocks && meta.blocks[id] ==
      RecordFor(digest, input.ec, id, |obj|, StoredShard(input.ec, obj, id.slot - 1))
  {
    hide StoredShard, RebuiltShard, GroupReads, RecordFor;
    assert Stored(digest, input, KnownGroup(input, id.local, |obj|, peers), id, meta, chunks);
    RebuiltIsOriginal(input.ec, obj, GroupReads(input, peers, id.local, input.sources), id.slot, chunks[id]);
  }
}
