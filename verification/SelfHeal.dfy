/** The cluster as a state machine: clients write shards, disks rot, containers close and vanish, and
    reconstructions run on any datanode, all interleaved step by step. */
module SelfHeal {
  import opened Wrappers
  import opened ReedSolomon
  import opened Checksum
  import opened Layout
  import opened Shards
  import opened MetaStore
  import opened Datanode
  import opened Survey
  import opened Repair

  /** What was written once and never changes: each container's configuration and each group's bytes. */
  datatype World = World(digest: Digest, ec: map<nat, Profile>, groups: map<(nat, nat), seq<byte>>)

  ghost predicate ValidWorld(w: World) {
    && Ideal(w.digest)
    && (forall c :: c in w.ec ==> w.ec[c].Layable() && ValidConfig(w.ec[c].Config()))
    && (forall g :: g in w.groups ==> g.0 in w.ec && Fits(w.ec[g.0], |w.groups[g]|))
  }

  predicate Known(w: World, id: BlockId) {
    (id.container, id.local) in w.groups && id.container in w.ec && 1 <= id.slot <= w.ec[id.container].Total()
  }

  ghost function TrueShard(w: World, id: BlockId): seq<byte>
    requires ValidWorld(w) && Known(w, id)
  {
    StoredShard(w.ec[id.container], w.groups[(id.container, id.local)], id.slot - 1)
  }

  ghost function TrueRecord(w: World, id: BlockId): BlockData
    requires ValidWorld(w) && Known(w, id)
  {
    RecordFor(w.digest, w.ec[id.container], id, |w.groups[(id.container, id.local)]|, TrueShard(w, id))
  }

  datatype Pending = Pending(id: BlockId, len: nat, bytes: seq<byte>)

  /** A reconstruction in progress on datanode `target`. */
  datatype Job = Job(target: nat, input: ReconstructInput, found: Found, pending: Option<Pending>)

  datatype State = State(nodes: map<nat, Node>, jobs: map<nat, Job>)

  datatype Step =
    | ClientCreate(dn: nat, c: nat)
    | ClientWrite(dn: nat, id: BlockId)
    | ClientPut(dn: nat, id: BlockId)
    | Rot(dn: nat, id: BlockId, bytes: seq<byte>)
    | Lose(dn: nat, id: BlockId)
    | DropRecord(dn: nat, id: BlockId)
    | Close(dn: nat, c: nat)
    | DropMetadata(dn: nat, c: nat)
    | DropBytes(dn: nat, c: nat)
    | Start(j: nat, target: nat, input: ReconstructInput)
    | ListGroup(j: nat, peer: nat, id: BlockId)
    | ReadVerified(j: nat, peer: nat, id: BlockId)
    | ReadUnrecorded(j: nat, peer: nat, id: BlockId)
    | Provision(j: nat)
    | WriteRebuilt(j: nat, id: BlockId, bytes: seq<byte>)
    | PutRebuilt(j: nat)
    | Stop(j: nat)

  function SetMeta(s: State, dn: nat, m: Meta): State
    requires dn in s.nodes
  {
    s.(nodes := s.nodes[dn := s.nodes[dn].(meta := m)])
  }

  function SetChunks(s: State, dn: nat, ch: map<BlockId, seq<byte>>): State
    requires dn in s.nodes
  {
    s.(nodes := s.nodes[dn := s.nodes[dn].(chunks := ch)])
  }

  function SetJob(s: State, j: nat, job: Job): State {
    s.(jobs := s.jobs[j := job])
  }

  function Collect(f: Found, total: nat, id: BlockId, bytes: seq<byte>): Found
    requires Shaped(total, f) && 1 <= id.slot <= total
  {
    var slots := if id.local in f.shards then f.shards[id.local] else Blank(total);
    Found(f.shards[id.local := slots[id.slot - 1 := Some(bytes)]], f.lengths)
  }

  /** Some source of the command holds this slot. */
  predicate Named(input: ReconstructInput, slot: nat) {
    exists i :: 0 <= i < |input.sources| && input.sources[i].slot == slot
  }

  /** The job may ask for this shard: its container, the slot of a source, and one that is not being rebuilt. */
  predicate Asks(job: Job, id: BlockId) {
    && id.container == job.input.container && Asked(job.input, Source(id.slot, "")) && Named(job.input, id.slot)
    && Shaped(job.input.ec.Total(), job.found)
  }

  /** It reads a shard only of a group it has seen listed. */
  predicate Reads(job: Job, id: BlockId) {
    Asks(job, id) && id.local in job.found.lengths
  }

  ghost predicate Next(w: World, s: State, s': State, step: Step)
    requires ValidWorld(w)
  {
    match step
    case ClientCreate(dn, c) =>
      dn in s.nodes && c in w.ec && s' == SetMeta(s, dn, Create(s.nodes[dn].meta, NewOpen(c, w.ec[c])).0)
    case ClientWrite(dn, id) =>
      dn in s.nodes && Known(w, id) && s' == SetChunks(s, dn, s.nodes[dn].chunks[id := TrueShard(w, id)])
    case ClientPut(dn, id) =>
      dn in s.nodes && Known(w, id) && s' == SetMeta(s, dn, PutBlock(s.nodes[dn].meta, TrueRecord(w, id)).0)
    case Rot(dn, id, bytes) =>
      dn in s.nodes && id in s.nodes[dn].chunks && s' == SetChunks(s, dn, s.nodes[dn].chunks[id := bytes])
    case Lose(dn, id) =>
      dn in s.nodes && s' == SetChunks(s, dn, s.nodes[dn].chunks - {id})
    case DropRecord(dn, id) =>
      dn in s.nodes && s' == SetMeta(s, dn, DeleteBlock(s.nodes[dn].meta, id))
    case Close(dn, c) =>
      dn in s.nodes && s' == SetMeta(s, dn, SetState(s.nodes[dn].meta, c, Closed).0)
    case DropMetadata(dn, c) =>
      dn in s.nodes && s' == SetMeta(s, dn, DeleteContainer(s.nodes[dn].meta, c))
    case DropBytes(dn, c) =>
      dn in s.nodes && s' == SetChunks(s, dn, DropChunks(s.nodes[dn].chunks, c))
    case Start(j, target, input) =>
      && target in s.nodes && j !in s.jobs && input.container in w.ec && input.ec == w.ec[input.container]
      && s' == SetJob(s, j, Job(target, input, NOTHING, None))
    case ListGroup(j, peer, id) =>
      && j in s.jobs && peer in s.nodes && Asks(s.jobs[j], id) && id in s.nodes[peer].meta.blocks
      && var bd := s.nodes[peer].meta.blocks[id];
      && bd.groupLen.Some? && bd.groupLen.value > 0
      && s' == SetJob(s, j, s.jobs[j].(found := Absorb(s.jobs[j].input.ec.Total(), s.jobs[j].found,
        Visit(id.slot, id.local, bd.groupLen.value, None))))
    case ReadVerified(j, peer, id) =>
      && j in s.jobs && peer in s.nodes && Reads(s.jobs[j], id) && id in s.nodes[peer].chunks
        && id in s.nodes[peer].meta.blocks
      && Verifies(w.digest, s.nodes[peer].meta.blocks[id], s.nodes[peer].chunks[id])
      && s' == SetJob(s, j, s.jobs[j].(found := Collect(s.jobs[j].found, s.jobs[j].input.ec.Total(),
        id, s.nodes[peer].chunks[id])))
    case ReadUnrecorded(j, peer, id) =>
      && j in s.jobs && peer in s.nodes && Reads(s.jobs[j], id) && id in s.nodes[peer].chunks
        && id !in s.nodes[peer].meta.blocks
      && s' == SetJob(s, j, s.jobs[j].(found := Collect(s.jobs[j].found, s.jobs[j].input.ec.Total(),
        id, s.nodes[peer].chunks[id])))
    case Provision(j) =>
      && j in s.jobs && s.jobs[j].target in s.nodes
      && s' == SetMeta(s, s.jobs[j].target,
        Create(s.nodes[s.jobs[j].target].meta, NewOpen(s.jobs[j].input.container, s.jobs[j].input.ec)).0)
    case WriteRebuilt(j, id, bytes) =>
      && j in s.jobs && s.jobs[j].target in s.nodes
      && var job := s.jobs[j];
      && Targeted(job.input, id) && id.local in job.found.shards && id.local in job.found.lengths
      && RebuiltShard(job.input.ec, job.found.lengths[id.local], job.found.shards[id.local], id.slot, bytes)
      && s' == SetJob(SetChunks(s, job.target, s.nodes[job.target].chunks[id := bytes]), j,
        job.(pending := Some(Pending(id, job.found.lengths[id.local], bytes))))
    case PutRebuilt(j) =>
      && j in s.jobs && s.jobs[j].target in s.nodes && s.jobs[j].pending.Some?
      && var job, q := s.jobs[j], s.jobs[j].pending.value;
      && s' == SetJob(SetMeta(s, job.target,
        PutBlock(s.nodes[job.target].meta,
          RecordFor(w.digest, job.input.ec, q.id, q.len, q.bytes)).0), j, job.(pending := None))
    case Stop(j) =>
      s' == s.(jobs := s.jobs - {j})
  }

  // ---- nothing is ruled out ----

  /** Whatever the state, any datanode may lose any bytes, or find them garbled. */
  lemma BytesMayGo(w: World, s: State, dn: nat, id: BlockId, bytes: seq<byte>)
      returns (lost: State, rotten: State, dropped: State)
    requires ValidWorld(w) && dn in s.nodes && id in s.nodes[dn].chunks
    ensures Next(w, s, lost, Lose(dn, id)) && id !in lost.nodes[dn].chunks
    ensures Next(w, s, rotten, Rot(dn, id, bytes)) && rotten.nodes[dn].chunks == s.nodes[dn].chunks[id := bytes]
    ensures Next(w, s, dropped, DropBytes(dn, id.container))
    ensures forall b :: b in dropped.nodes[dn].chunks ==> b.container != id.container
  {
    var ch := s.nodes[dn].chunks;
    lost, rotten := SetChunks(s, dn, ch - {id}), SetChunks(s, dn, ch[id := bytes]);
    dropped := SetChunks(s, dn, DropChunks(ch, id.container));
  }

  /** It may lose any record or container, or close one. */
  lemma RecordsMayGo(w: World, s: State, dn: nat, id: BlockId) returns (gone: State, dropped: State, closed: State)
    requires ValidWorld(w) && dn in s.nodes
    ensures Next(w, s, gone, DropRecord(dn, id)) && id !in gone.nodes[dn].meta.blocks
    ensures Next(w, s, dropped, DropMetadata(dn, id.container))
    ensures id.container !in dropped.nodes[dn].meta.containers && id !in dropped.nodes[dn].meta.blocks
    ensures Next(w, s, closed, Close(dn, id.container)) && !OpenHere(closed.nodes[dn].meta, id.container)
  {
    var m := s.nodes[dn].meta;
    gone, dropped := SetMeta(s, dn, DeleteBlock(m, id)), SetMeta(s, dn, DeleteContainer(m, id.container));
    closed := SetMeta(s, dn, SetState(m, id.container, Closed).0);
  }

  /** Clients may write any shard and, into an open container, its record. */
  lemma ClientsMayWrite(w: World, s: State, dn: nat, id: BlockId) returns (made: State, written: State, put: State)
    requires ValidWorld(w) && dn in s.nodes && Known(w, id)
    ensures Next(w, s, made, ClientCreate(dn, id.container)) && id.container in made.nodes[dn].meta.containers
    ensures Next(w, s, written, ClientWrite(dn, id))
    ensures written.nodes[dn].chunks == s.nodes[dn].chunks[id := TrueShard(w, id)]
    ensures Next(w, s, put, ClientPut(dn, id))
    ensures OpenHere(s.nodes[dn].meta, id.container) ==>
      put.nodes[dn].meta.blocks == s.nodes[dn].meta.blocks[id := TrueRecord(w, id)]
  {
    assert TrueRecord(w, id).id == id;
    hide TrueRecord, TrueShard;
    var n := s.nodes[dn];
    made := SetMeta(s, dn, Create(n.meta, NewOpen(id.container, w.ec[id.container])).0);
    written := SetChunks(s, dn, n.chunks[id := TrueShard(w, id)]);
    put := SetMeta(s, dn, PutBlock(n.meta, TrueRecord(w, id)).0);
  }

  /** Any datanode may start on any command, and any reconstruction may stop. */
  lemma JobsMayComeAndGo(w: World, s: State, dn: nat, j: nat, input: ReconstructInput) returns (on: State, off: State)
    requires ValidWorld(w) && dn in s.nodes && j !in s.jobs
    requires input.container in w.ec && input.ec == w.ec[input.container]
    ensures Next(w, s, on, Start(j, dn, input)) && on.jobs == s.jobs[j := Job(dn, input, NOTHING, None)]
    ensures Next(w, on, off, Stop(j)) && off.jobs == s.jobs
  {
    on := SetJob(s, j, Job(dn, input, NOTHING, None));
    off := on.(jobs := on.jobs - {j});
  }

  // ---- the invariant ----

  ghost predicate TrueMeta(w: World, m: Meta)
    requires ValidWorld(w)
  {
    forall id :: id in m.blocks ==> Known(w, id) && m.blocks[id] == TrueRecord(w, id)
  }

  /** The shard as the decoder will judge it: true, or of a length it discards. */
  ghost predicate TrueBuffer(w: World, id: BlockId, bytes: seq<byte>)
    requires ValidWorld(w)
  {
    && Known(w, id)
    && (|bytes| == ExpectedShardLen(w.ec[id.container], |w.groups[(id.container, id.local)]|, id.slot - 1) ==>
      bytes == TrueShard(w, id))
  }

  ghost predicate TrueFound(w: World, input: ReconstructInput, f: Found)
    requires ValidWorld(w)
  {
    && Shaped(input.ec.Total(), f)
    && (forall l :: l in f.lengths ==>
      (input.container, l) in w.groups && f.lengths[l] == |w.groups[(input.container, l)]| > 0)
    && (forall l, i :: l in f.shards && 0 <= i < |f.shards[l]| && f.shards[l][i].Some? ==>
          TrueBuffer(w, BlockId(input.container, l, i + 1), f.shards[l][i].value))
  }

  ghost predicate TrueJob(w: World, job: Job)
    requires ValidWorld(w)
  {
    && job.input.container in w.ec && job.input.ec == w.ec[job.input.container]
    && TrueFound(w, job.input, job.found)
    && (job.pending.Some? ==> TruePending(w, job.input.container, job.pending.value))
  }

  ghost predicate TruePending(w: World, c: nat, q: Pending)
    requires ValidWorld(w)
  {
    && Known(w, q.id) && q.id.container == c
    && q.len == |w.groups[(q.id.container, q.id.local)]|
    && q.bytes == TrueShard(w, q.id)
  }

  /** Every record and every in-flight reconstruction speaks of the true shards. */
  ghost predicate Good(w: World, s: State)
    requires ValidWorld(w)
  {
    && (forall dn :: dn in s.nodes ==> TrueMeta(w, s.nodes[dn].meta))
    && (forall j :: j in s.jobs ==> TrueJob(w, s.jobs[j]))
  }

  /** A shard at rest that matches its recorded digest is the original one. */
  ghost predicate Safe(w: World, s: State)
    requires ValidWorld(w)
  {
    forall dn, id :: AtRest(w, s, dn, id) ==> Known(w, id) && s.nodes[dn].chunks[id] == TrueShard(w, id)
  }

  /** Datanode dn holds bytes for the shard, and they match the digest it recorded. */
  predicate AtRest(w: World, s: State, dn: nat, id: BlockId) {
    && dn in s.nodes && id in s.nodes[dn].chunks && id in s.nodes[dn].meta.blocks
    && Verifies(w.digest, s.nodes[dn].meta.blocks[id], s.nodes[dn].chunks[id])
  }

  /** A true record accepts only the true shard. */
  lemma TrueRecordAccepts(w: World, id: BlockId, bytes: seq<byte>)
    requires ValidWorld(w) && Known(w, id) && Verifies(w.digest, TrueRecord(w, id), bytes)
    ensures bytes == TrueShard(w, id)
  {
    VerifyIsEquality(w.digest, TrueShard(w, id), bytes, w.ec[id.container].chunkSize);
    hide StoredShard, VerifyOutcome;
  }

  lemma GoodIsSafe(w: World, s: State)
    requires ValidWorld(w) && Good(w, s)
    ensures Safe(w, s)
  {
    hide TrueShard, TrueRecord, Verifies, Known;
    forall dn, id | AtRest(w, s, dn, id)
      ensures Known(w, id) && s.nodes[dn].chunks[id] == TrueShard(w, id)
    {
      assert TrueMeta(w, s.nodes[dn].meta);
      TrueRecordAccepts(w, id, s.nodes[dn].chunks[id]);
    }
  }

  // ---- every step keeps it ----

  lemma FewerRecords(w: World, m: Meta, n: Meta)
    requires ValidWorld(w) && TrueMeta(w, m)
    requires forall id :: id in n.blocks ==> id in m.blocks && n.blocks[id] == m.blocks[id]
    ensures TrueMeta(w, n)
  {
    hide TrueRecord, Known;
  }

  lemma OneMoreRecord(w: World, m: Meta, id: BlockId)
    requires ValidWorld(w) && TrueMeta(w, m) && Known(w, id)
    ensures TrueMeta(w, PutBlock(m, TrueRecord(w, id)).0)
  {
    assert TrueRecord(w, id).id == id;
    hide TrueRecord, Known;
  }

  lemma MetaUpdate(w: World, s: State, dn: nat, m: Meta)
    requires ValidWorld(w) && Good(w, s) && dn in s.nodes && TrueMeta(w, m)
    ensures Good(w, SetMeta(s, dn, m))
  {
    hide TrueMeta, TrueJob;
  }

  lemma ChunkUpdate(w: World, s: State, dn: nat, ch: map<BlockId, seq<byte>>)
    requires ValidWorld(w) && Good(w, s) && dn in s.nodes
    ensures Good(w, SetChunks(s, dn, ch))
  {
    hide TrueMeta, TrueJob;
  }

  lemma JobUpdate(w: World, s: State, j: nat, job: Job)
    requires ValidWorld(w) && Good(w, s) && TrueJob(w, job)
    ensures Good(w, SetJob(s, j, job))
  {
    hide TrueMeta, TrueJob;
  }

  lemma ListKeeps(w: World, job: Job, id: BlockId, len: nat)
    requires ValidWorld(w) && TrueJob(w, job) && Asks(job, id) && Known(w, id)
    requires len == |w.groups[(id.container, id.local)]| > 0
    ensures TrueJob(w, job.(found := Absorb(job.input.ec.Total(), job.found, Visit(id.slot, id.local, len, None))))
  {
    hide TrueBuffer, TruePending;
  }

  lemma CollectKeeps(w: World, job: Job, id: BlockId, bytes: seq<byte>)
    requires ValidWorld(w) && TrueJob(w, job) && Asks(job, id) && TrueBuffer(w, id, bytes)
    ensures TrueJob(w, job.(found := Collect(job.found, job.input.ec.Total(), id, bytes)))
  {
    hide TrueBuffer, TruePending;
    var f, g := job.found, Collect(job.found, job.input.ec.Total(), id, bytes);
    forall l, i | l in g.shards && 0 <= i < |g.shards[l]| && g.shards[l][i].Some?
      ensures TrueBuffer(w, BlockId(job.input.container, l, i + 1), g.shards[l][i].value)
    {
      if l == id.local && i == id.slot - 1 {
        assert BlockId(job.input.container, l, i + 1) == id;
      }
    }
  }

  /** What a truthful job rebuilds is the true shard. */
  lemma RebuiltIsTrue(w: World, job: Job, id: BlockId, bytes: seq<byte>)
    requires ValidWorld(w) && TrueJob(w, job) && Targeted(job.input, id)
    requires id.local in job.found.shards && id.local in job.found.lengths
    requires RebuiltShard(job.input.ec, job.found.lengths[id.local], job.found.shards[id.local], id.slot, bytes)
    ensures Known(w, id) && bytes == TrueShard(w, id)
    ensures job.found.lengths[id.local] == |w.groups[(id.container, id.local)]|
  {
    hide RebuiltShard, StoredShard, ExpectedShardLen, Fits;
    var p, obj, slots := job.input.ec, w.groups[(id.container, id.local)], job.found.shards[id.local];
    forall i | 0 <= i < |slots| && slots[i].Some? && |slots[i].value| == ExpectedShardLen(p, |obj|, i)
      ensures slots[i].value == StoredShard(p, obj, i)
    {
      assert TrueBuffer(w, BlockId(job.input.container, id.local, i + 1), slots[i].value);
    }
    RebuiltIsOriginal(p, obj, slots, id.slot, bytes);
  }

  lemma WriteKeeps(w: World, s: State, j: nat, id: BlockId, bytes: seq<byte>)
    requires ValidWorld(w) && Good(w, s) && j in s.jobs && s.jobs[j].target in s.nodes
    requires Targeted(s.jobs[j].input, id) && id.local in s.jobs[j].found.shards && id.local in s.jobs[j].found.lengths
    requires RebuiltShard(s.jobs[j].input.ec, s.jobs[j].found.lengths[id.local],
      s.jobs[j].found.shards[id.local], id.slot, bytes)
    ensures var job := s.jobs[j];
      Good(w, SetJob(SetChunks(s, job.target, s.nodes[job.target].chunks[id := bytes]), j,
        job.(pending := Some(Pending(id, job.found.lengths[id.local], bytes)))))
  {
    var job := s.jobs[j];
    assert TrueJob(w, job);
    RebuiltIsTrue(w, job, id, bytes);
    hide RebuiltShard, TrueFound, TrueShard, Known;
    ChunkUpdate(w, s, job.target, s.nodes[job.target].chunks[id := bytes]);
    var job' := job.(pending := Some(Pending(id, job.found.lengths[id.local], bytes)));
    assert TrueJob(w, job');
    JobUpdate(w, SetChunks(s, job.target, s.nodes[job.target].chunks[id := bytes]), j, job');
  }

  lemma PutKeeps(w: World, s: State, j: nat)
    requires ValidWorld(w) && Good(w, s) && j in s.jobs && s.jobs[j].target in s.nodes && s.jobs[j].pending.Some?
    ensures var job, q := s.jobs[j], s.jobs[j].pending.value;
      Good(w, SetJob(SetMeta(s, job.target,
        PutBlock(s.nodes[job.target].meta,
          RecordFor(w.digest, job.input.ec, q.id, q.len, q.bytes)).0), j, job.(pending := None)))
  {
    var job, q := s.jobs[j], s.jobs[j].pending.value;
    assert TrueJob(w, job) && TrueMeta(w, s.nodes[job.target].meta);
    assert RecordFor(w.digest, job.input.ec, q.id, q.len, q.bytes) == TrueRecord(w, q.id) by { hide TrueShard; }
    hide RecordFor, TrueFound, TrueShard, PutBlock;
    OneMoreRecord(w, s.nodes[job.target].meta, q.id);
    var m := PutBlock(s.nodes[job.target].meta, RecordFor(w.digest, job.input.ec, q.id, q.len, q.bytes)).0;
    MetaUpdate(w, s, job.target, m);
    JobUpdate(w, SetMeta(s, job.target, m), j, job.(pending := None));
  }

  /** Every step but an unrecorded read keeps every record and job truthful. */
  lemma StepKeeps(w: World, s: State, s': State, step: Step)
    requires ValidWorld(w) && Good(w, s) && Next(w, s, s', step) && !step.ReadUnrecorded?
    ensures Good(w, s')
  {
    hide Good, TrueMeta, TrueJob, TrueShard, TrueRecord, RebuiltShard, Create, SetState, DeleteContainer, DeleteBlock,
      PutBlock, Absorb, Collect, Verifies, RecordFor;
    match step {
      case ClientCreate(dn, c) => NodeMeta(w, s, dn); CreateKeepsTrue(w, s.nodes[dn].meta,
        NewOpen(c, w.ec[c])); MetaUpdate(w, s, dn, Create(s.nodes[dn].meta, NewOpen(c, w.ec[c])).0);
      case ClientWrite(dn, id) => ChunkUpdate(w, s, dn, s.nodes[dn].chunks[id := TrueShard(w, id)]);
      case ClientPut(dn, id) => NodeMeta(w, s, dn); OneMoreRecord(w, s.nodes[dn].meta, id); MetaUpdate(w, s, dn,
        PutBlock(s.nodes[dn].meta, TrueRecord(w, id)).0);
      case Rot(dn, id, bytes) => ChunkUpdate(w, s, dn, s.nodes[dn].chunks[id := bytes]);
      case Lose(dn, id) => ChunkUpdate(w, s, dn, s.nodes[dn].chunks - {id});
      case DropRecord(dn, id) => NodeMeta(w, s, dn); DropsKeepTrue(w, s.nodes[dn].meta, id, id.container); MetaUpdate(w,
        s, dn, DeleteBlock(s.nodes[dn].meta, id));
      case Close(dn, c) => NodeMeta(w, s, dn); DropsKeepTrue(w, s.nodes[dn].meta, BlockId(0, 0, 0), c); MetaUpdate(w, s,
        dn, SetState(s.nodes[dn].meta, c, Closed).0);
      case DropMetadata(dn, c) => NodeMeta(w, s, dn); DropsKeepTrue(w, s.nodes[dn].meta, BlockId(0, 0, 0),
        c); MetaUpdate(w, s, dn, DeleteContainer(s.nodes[dn].meta, c));
      case DropBytes(dn, c) => ChunkUpdate(w, s, dn, DropChunks(s.nodes[dn].chunks, c));
      case Start(j, target, input) => StartIsTrue(w, target, input); JobUpdate(w, s, j,
        Job(target, input, NOTHING, None));
      case ListGroup(j, peer, id) => ListStep(w, s, s', j, peer, id);
      case ReadVerified(j, peer, id) => ReadStep(w, s, s', j, peer, id);
      case Provision(j) =>
        var job := s.jobs[j];
        NodeMeta(w, s, job.target);
        CreateKeepsTrue(w, s.nodes[job.target].meta, NewOpen(job.input.container, job.input.ec));
        MetaUpdate(w, s, job.target, Create(s.nodes[job.target].meta, NewOpen(job.input.container, job.input.ec)).0);
      case WriteRebuilt(j, id, bytes) => WriteKeeps(w, s, j, id, bytes);
      case PutRebuilt(j) => PutKeeps(w, s, j);
      case Stop(j) => StopKeeps(w, s, j);
    }
  }

  lemma NodeMeta(w: World, s: State, dn: nat)
    requires ValidWorld(w) && Good(w, s) && dn in s.nodes
    ensures TrueMeta(w, s.nodes[dn].meta)
  {}

  lemma CreateKeepsTrue(w: World, m: Meta, info: ContainerInfo)
    requires ValidWorld(w) && TrueMeta(w, m)
    ensures TrueMeta(w, Create(m, info).0)
  {
    FewerRecords(w, m, Create(m, info).0);
  }

  lemma DropsKeepTrue(w: World, m: Meta, id: BlockId, c: nat)
    requires ValidWorld(w) && TrueMeta(w, m)
    ensures TrueMeta(w, DeleteBlock(m, id)) && TrueMeta(w, DeleteContainer(m, c))
      && TrueMeta(w, SetState(m, c, Closed).0)
  {
    FewerRecords(w, m, DeleteBlock(m, id));
    FewerRecords(w, m, DeleteContainer(m, c));
    FewerRecords(w, m, SetState(m, c, Closed).0);
  }

  lemma StartIsTrue(w: World, target: nat, input: ReconstructInput)
    requires ValidWorld(w) && input.container in w.ec && input.ec == w.ec[input.container]
    ensures TrueJob(w, Job(target, input, NOTHING, None))
  {}

  lemma ListStep(w: World, s: State, s': State, j: nat, peer: nat, id: BlockId)
    requires ValidWorld(w) && Good(w, s) && Next(w, s, s', ListGroup(j, peer, id))
    ensures Good(w, s')
  {
    assert TrueMeta(w, s.nodes[peer].meta) && TrueJob(w, s.jobs[j]);
    var bd := s.nodes[peer].meta.blocks[id];
    assert bd == TrueRecord(w, id) && bd.groupLen == Some(|w.groups[(id.container, id.local)]|);
    hide Good, TrueMeta, TrueJob, TrueShard, TrueRecord, Absorb;
    ListKeeps(w, s.jobs[j], id, bd.groupLen.value);
    JobUpdate(w, s, j, s.jobs[j].(found := Absorb(s.jobs[j].input.ec.Total(), s.jobs[j].found,
      Visit(id.slot, id.local, bd.groupLen.value, None))));
  }

  lemma ReadStep(w: World, s: State, s': State, j: nat, peer: nat, id: BlockId)
    requires ValidWorld(w) && Good(w, s) && Next(w, s, s', ReadVerified(j, peer, id))
    ensures Good(w, s')
  {
    assert TrueMeta(w, s.nodes[peer].meta) && TrueJob(w, s.jobs[j]);
    assert s.nodes[peer].meta.blocks[id] == TrueRecord(w, id);
    hide Good, TrueMeta, TrueJob, TrueShard, TrueRecord, Collect, Verifies;
    TrueRecordAccepts(w, id, s.nodes[peer].chunks[id]);
    CollectKeeps(w, s.jobs[j], id, s.nodes[peer].chunks[id]);
    JobUpdate(w, s, j, s.jobs[j].(found := Collect(s.jobs[j].found, s.jobs[j].input.ec.Total(),
      id, s.nodes[peer].chunks[id])));
  }

  lemma StopKeeps(w: World, s: State, j: nat)
    requires ValidWorld(w) && Good(w, s)
    ensures Good(w, s.(jobs := s.jobs - {j}))
  {
    hide TrueMeta, TrueJob;
  }

  // ---- the step that can break it ----

  /** The step hands a job bytes no record vouches for, of the length the job expects of that shard. */
  predicate Unverified(s: State, step: Step) {
    && step.ReadUnrecorded? && step.j in s.jobs && step.peer in s.nodes && step.id in s.nodes[step.peer].chunks
    && var job, id := s.jobs[step.j], step.id;
    && job.input.ec.Layable() && id.local in job.found.lengths && id.slot >= 1
    && |s.nodes[step.peer].chunks[id]| == ExpectedShardLen(job.input.ec, job.found.lengths[id.local], id.slot - 1)
  }

  /** The step takes no unverified bytes, unless they are the true shard all the same. */
  ghost predicate Harmless(w: World, s: State, step: Step)
    requires ValidWorld(w)
  {
    Unverified(s, step) ==> Known(w, step.id) && s.nodes[step.peer].chunks[step.id] == TrueShard(w, step.id)
  }

  lemma UnrecordedReadKeepsIff(w: World, s: State, s': State, j: nat, peer: nat, id: BlockId)
    requires ValidWorld(w) && Good(w, s) && Next(w, s, s', ReadUnrecorded(j, peer, id))
    ensures Good(w, s') <==> Harmless(w, s, ReadUnrecorded(j, peer, id))
  {
    assert TrueJob(w, s.jobs[j]);
    var bytes := s.nodes[peer].chunks[id];
    var job' := s.jobs[j].(found := Collect(s.jobs[j].found, s.jobs[j].input.ec.Total(), id, bytes));
    hide TrueMeta, TrueShard, TruePending, ExpectedShardLen, Fits;
    assert Harmless(w, s, ReadUnrecorded(j, peer, id)) <==> TrueBuffer(w, id, bytes);
    hide Harmless, TrueBuffer;
    if TrueBuffer(w, id, bytes) {
      CollectKeeps(w, s.jobs[j], id, bytes);
      JobUpdate(w, s, j, job');
    }
    if Good(w, s') {
      assert s'.jobs[j] == job' && TrueJob(w, job');
      assert job'.found.shards[id.local][id.slot - 1] == Some(bytes);
      assert BlockId(job'.input.container, id.local, id.slot - 1 + 1) == id;
    }
  }

  /** A step keeps the cluster truthful exactly when it is harmless. */
  lemma StepKeepsIff(w: World, s: State, s': State, step: Step)
    requires ValidWorld(w) && Good(w, s) && Next(w, s, s', step)
    ensures Good(w, s') <==> Harmless(w, s, step)
  {
    hide Good, TrueShard;
    if step.ReadUnrecorded? {
      UnrecordedReadKeepsIff(w, s, s', step.j, step.peer, step.id);
    } else {
      StepKeeps(w, s, s', step);
    }
  }

  // ---- whole runs ----

  /** A run: states joined by the steps taken. */
  ghost predicate IsRun(w: World, states: seq<State>, steps: seq<Step>)
    requires ValidWorld(w)
  {
    && |states| == |steps| + 1
    && (forall dn :: dn in states[0].nodes ==> states[0].nodes[dn] == Node(EMPTY, map[])) && states[0].jobs == map[]
    && forall i :: 0 <= i < |steps| ==> Next(w, states[i], states[i + 1], steps[i])
  }

  ghost predicate AllHarmless(w: World, states: seq<State>, steps: seq<Step>, n: nat)
    requires ValidWorld(w) && n <= |steps| && n <= |states|
  {
    forall i :: 0 <= i < n ==> Harmless(w, states[i], steps[i])
  }

  /** A run is truthful throughout exactly when all its steps are harmless. */
  lemma {:induction false} RunIsGoodIff(w: World, states: seq<State>, steps: seq<Step>, n: nat)
    requires ValidWorld(w) && IsRun(w, states, steps) && n <= |steps|
    ensures (forall i :: 0 <= i <= n ==> Good(w, states[i])) <==> AllHarmless(w, states, steps, n)
  {
    if n == 0 {
      EmptyIsGood(w, states[0]);
    } else {
      hide Next, Good, Harmless;
      RunIsGoodIff(w, states, steps, n - 1);
      if forall i :: 0 <= i <= n - 1 ==> Good(w, states[i]) {
        StepKeepsIff(w, states[n - 1], states[n], steps[n - 1]);
      }
    }
  }

  lemma EmptyIsGood(w: World, s: State)
    requires ValidWorld(w) && (forall dn :: dn in s.nodes ==> s.nodes[dn] == Node(EMPTY, map[])) && s.jobs == map[]
    ensures Good(w, s)
  {}

  /** In every run whose steps are harmless, repair never persists a wrong shard. */
  lemma RepairIsSafe(w: World, states: seq<State>, steps: seq<Step>, n: nat)
    requires ValidWorld(w) && IsRun(w, states, steps) && n <= |steps| && AllHarmless(w, states, steps, n)
    ensures Safe(w, states[n])
  {
    hide Next, Good, AllHarmless, Safe;
    RunIsGoodIff(w, states, steps, n);
    GoodIsSafe(w, states[n]);
  }

  // ---- which reads have to be refused ----

  /** What a reader does with bytes that come without a record: take them, refuse those of the expected
      length, or refuse them all. The first is the code as it stands. */
  datatype Gate = TakeAny | RefuseSized | RefuseAll

  predicate Admits(gate: Gate, s: State, step: Step) {
    match gate
    case TakeAny => true
    case RefuseSized => !Unverified(s, step)
    case RefuseAll => !step.ReadUnrecorded?
  }

  ghost predicate AdmittedRun(w: World, gate: Gate, states: seq<State>, steps: seq<Step>)
    requires ValidWorld(w)
  {
    IsRun(w, states, steps) && forall i :: 0 <= i < |steps| ==> Admits(gate, states[i], steps[i])
  }

  /** Every run the gate admits is safe in every state. */
  ghost predicate AlwaysSafe(w: World, gate: Gate)
    requires ValidWorld(w)
  {
    forall states, steps, n :: AdmittedRun(w, gate, states, steps) && 0 <= n <= |steps| ==> Safe(w, states[n])
  }

  /** No group holds any bytes. */
  ghost predicate AllEmpty(w: World) {
    forall g :: g in w.groups ==> w.groups[g] == []
  }

  /** With nothing stored there is no group to list, and so nothing to read. */
  lemma {:induction false} EmptyIsHarmless(w: World, states: seq<State>, steps: seq<Step>, n: nat)
    requires ValidWorld(w) && AllEmpty(w) && IsRun(w, states, steps) && n <= |steps|
    ensures AllHarmless(w, states, steps, n)
  {
    if n > 0 {
      EmptyIsHarmless(w, states, steps, n - 1);
      RunIsGoodIff(w, states, steps, n - 1);
      var s, step := states[n - 1], steps[n - 1];
      assert Good(w, s);
      hide Next, TrueShard, Good, ExpectedShardLen;
      if Unverified(s, step) {
        NothingListed(w, s, step.j, step.id.local);
      }
    }
  }

  lemma NothingListed(w: World, s: State, j: nat, l: nat)
    requires ValidWorld(w) && AllEmpty(w) && Good(w, s) && j in s.jobs
    ensures l !in s.jobs[j].found.lengths
  {
    assert TrueJob(w, s.jobs[j]);
  }

  /** Refusing unverified bytes, or having none worth the name, makes every run safe. */
  lemma RefusalIsSafe(w: World, gate: Gate)
    requires ValidWorld(w) && (!gate.TakeAny? || AllEmpty(w))
    ensures AlwaysSafe(w, gate)
  {
    forall states, steps, n | AdmittedRun(w, gate, states, steps) && 0 <= n <= |steps|
      ensures Safe(w, states[n])
    {
      hide IsRun, Safe, TrueShard, ExpectedShardLen;
      if gate.TakeAny? {
        EmptyIsHarmless(w, states, steps, n);
      } else {
        assert forall i :: 0 <= i < n ==> Admits(gate, states[i], steps[i]);
      }
      RepairIsSafe(w, states, steps, n);
    }
  }
}
