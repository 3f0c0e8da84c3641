/** When a rebuild restores the original shards, told from the peers' answers: crates/ozone-dn-server/src/repair.rs. */
module Rebuilds {
  import opened Wrappers
  import opened ReedSolomon
  import opened Checksum
  import opened Layout
  import opened Shards
  import opened Stripe
  import opened Decode
  import opened MetaStore
  import opened Datanode
  import opened Survey
  import opened Survivors
  import opened Repair

  /** The original shard is stored under id, with its record. */
  ghost predicate Restored(digest: Digest, p: Profile, id: BlockId, obj: seq<byte>,
      meta: Meta, chunks: map<BlockId, seq<byte>>)
    requires p.Layable() && ValidConfig(p.Config()) && 1 <= id.slot <= p.Total()
  {
    && id in chunks && chunks[id] == StoredShard(p, obj, id.slot - 1)
    && id in meta.blocks && meta.blocks[id] == RecordFor(digest, p, id, |obj|, StoredShard(p, obj, id.slot - 1))
  }

  /** Every slot of group l that is to be rebuilt holds the original shard. */
  ghost predicate GroupRestored(digest: Digest, input: ReconstructInput, l: nat, obj: seq<byte>,
      meta: Meta, chunks: map<BlockId, seq<byte>>)
    requires input.ec.Layable() && ValidConfig(input.ec.Config())
  {
    forall slot :: slot in input.missing && 1 <= slot <= input.ec.data + input.ec.parity ==>
      Restored(digest, input.ec, BlockId(input.container, l, slot), obj, meta, chunks)
  }

  // ---- truthful peers make a truthful survey ----

  lemma TruthfulVisit(input: ReconstructInput, peers: Peers, l: nat, obj: seq<byte>, v: Visit)
    requires input.ec.Layable() && ValidConfig(input.ec.Config()) && Truthful(input, peers, l, obj)
    requires v in AllVisits(input, peers, input.sources) && v.local == l
    ensures 1 <= v.slot <= input.ec.Total() && v.len >= |obj|
    ensures v.bytes.Some? ==> v.bytes.value == StoredShard(input.ec, obj, v.slot - 1)
  {
    hide AllVisits, StoredShard;
    VisitIs(input, peers, v);
    var x: nat :| VisitOf(input, peers, x, v);
    if v.bytes.Some? { assert Serves(input, peers, x, l); }
  }

  lemma TruthfulIsTrue(input: ReconstructInput, peers: Peers, l: nat, obj: seq<byte>)
    requires input.ec.Layable() && ValidConfig(input.ec.Config()) && Truthful(input, peers, l, obj)
    ensures InRange(input.ec.Total(), AllVisits(input, peers, input.sources))
    ensures TrueSurvey(input.ec, AllVisits(input, peers, input.sources), l, obj)
  {
    hide AllVisits, StoredShard, Serves;
    AllVisitsInRange(input, peers, input.sources);
    var vs := AllVisits(input, peers, input.sources);
    forall n | 0 <= n < |vs| && vs[n].local == l
      ensures vs[n].len >= |obj|
      ensures vs[n].bytes.Some? ==> vs[n].bytes.value == StoredShard(input.ec, obj, vs[n].slot - 1)
    {
      TruthfulVisit(input, peers, l, obj, vs[n]);
    }
    var x: nat :| Lists(input, peers, x, l, |obj|);
    var v := Visit(input.sources[x].slot, l, |obj|, Answer(input, peers, x, l));
    assert VisitOf(input, peers, x, v);
    VisitIs(input, peers, v);
  }

  /** Every group that truthful peers serve k slots of decodes. */
  lemma TruthfulDecodes(input: ReconstructInput, peers: Peers, objs: map<nat, seq<byte>>)
    requires input.ec.Layable() && ValidConfig(input.ec.Config()) && TruthfulAll(input, peers, objs)
    requires Representable(peers)
    ensures Decodable(input, SurveyOf(input, peers))
  {
    hide AllVisits, AbsorbAll, StoredShard, Serves, Lists, Truthful, Recoverable, GroupDecodes, NumStripes, Times;
    var f := SurveyOf(input, peers);
    SurveyIsShaped(input, peers);
    forall l | l in f.shards && Recoverable(input.ec, f.shards[l]) ensures GroupDecodes(input, f, l) {
      FoundIsListed(input, peers, l, objs);
      TruthfulIsTrue(input, peers, l, objs[l]);
      TrueGroupDecodes(input, peers, l, objs[l]);
    }
  }

  lemma FoundIsListed(input: ReconstructInput, peers: Peers, l: nat, objs: map<nat, seq<byte>>)
    requires input.ec.Layable() && ValidConfig(input.ec.Config()) && TruthfulAll(input, peers, objs)
    requires l in SurveyOf(input, peers).shards
    ensures l in objs
  {
    hide AllVisits, AbsorbAll, StoredShard, Truthful, Lists, Fits;
    FoundIffServed(input, peers, l);
    var t :| t in ServedSlots(input, peers, l);
    var x: nat :| Serves(input, peers, x, l);
    var len: nat :| Lists(input, peers, x, l, len);
  }

  lemma StoredIsRestored(digest: Digest, input: ReconstructInput, peers: Peers, objs: map<nat, seq<byte>>, l: nat,
      meta: Meta, chunks: map<BlockId, seq<byte>>)
    requires input.ec.Layable() && ValidConfig(input.ec.Config()) && TruthfulAll(input, peers, objs) && l in objs
    requires GroupStored(digest, input, SurveyOf(input, peers), l, meta, chunks)
    ensures GroupRestored(digest, input, l, objs[l], meta, chunks)
  {
    hide AllVisits, AbsorbAll, StoredShard, Truthful, TrueSurvey, RecordFor, Stored;
    TruthfulIsTrue(input, peers, l, objs[l]);
    forall slot | slot in input.missing && 1 <= slot <= input.ec.data + input.ec.parity
      ensures Restored(digest, input.ec, BlockId(input.container, l, slot), objs[l], meta, chunks)
    {
      var id := BlockId(input.container, l, slot);
      assert Stored(digest, input, SurveyOf(input, peers), id, meta, chunks);
      ReconstructionIsExact(digest, input, peers, objs[l], id, meta, chunks);
      StoredIsThere(digest, input, SurveyOf(input, peers), id, meta, chunks);
    }
  }

  lemma StoredIsThere(digest: Digest, input: ReconstructInput, f: Found, id: BlockId, meta: Meta,
      chunks: map<BlockId, seq<byte>>)
    requires Stored(digest, input, f, id, meta, chunks)
    ensures id in chunks && id in meta.blocks
  {}

  /**
   * If no call fails, the container is absent or open, and the peers are truthful, the groups rebuilt are exactly
   * those of which at least k distinct slots are served, and each of their missing slots then holds the original shard.
   */
  method RebuildFromPeers(t: Target, input: ReconstructInput, peers: Peers, ghost objs: map<nat, seq<byte>>)
      returns (r: Result<seq<nat>, RepairError>)
    requires Representable(peers) && Consistent(t.meta) && NoFaults(t.faults)
    requires input.container !in t.meta.containers || t.meta.containers[input.container].info.state.Open?
    requires input.ec.Layable() && ValidConfig(input.ec.Config()) && TruthfulAll(input, peers, objs)
    modifies t
    ensures r.Ok?
    ensures forall l :: l in r.value <==> |ServedSlots(input, peers, l)| >= input.ec.data
    ensures forall i, j :: 0 <= i < j < |r.value| ==> r.value[i] < r.value[j]
    ensures forall l :: l in r.value ==> l in objs && GroupRestored(t.digest, input, l, objs[l], t.meta, t.chunks)
  {
    hide Consistent, Representable, OthersUntouched, Framed, GroupStored, LeftOpen, AbsorbAll, AllVisits,
      Decodable, SomeRecoverable, CloseDecides, TruthfulAll, GroupRestored, Recoverable, ServedSlots, NoFaults,
      StoredAll;
    TruthfulDecodes(input, peers, objs);
    r := t.ReconstructFromSurvivors(input, peers);
    Survive(input, peers, r.value);
    forall l | l in r.value
      ensures l in objs && GroupRestored(t.digest, input, l, objs[l], t.meta, t.chunks)
    {
      OneStored(t.digest, input, SurveyOf(input, peers), r.value, l, t.meta, t.chunks);
      FoundIsListed(input, peers, l, objs);
      StoredIsRestored(t.digest, input, peers, objs, l, t.meta, t.chunks);
    }
  }

  lemma Survive(input: ReconstructInput, peers: Peers, rebuilt: seq<nat>)
    requires RebuiltServed(input, peers, rebuilt) && ValidConfig(input.ec.Config())
    ensures forall l :: l in rebuilt <==> |ServedSlots(input, peers, l)| >= input.ec.data
  {
    hide ServedSlots;
    forall l ensures |ServedSlots(input, peers, l)| >= input.ec.data ==> ServedSlots(input, peers, l) != {} {}
  }

  lemma OneStored(digest: Digest, input: ReconstructInput, f: Found, rebuilt: seq<nat>, l: nat, meta: Meta,
      chunks: map<BlockId, seq<byte>>)
    requires AllRebuilt(digest, input, f, rebuilt, meta, chunks) && l in rebuilt
    ensures l in f.shards && GroupStored(digest, input, f, l, meta, chunks)
  {
    hide GroupStored, Recoverable;
  }

  // ---- one known group ----

  /** Every shard of the group that an eligible source serves is obj's own. */
  ghost predicate TruthfulKnown(input: ReconstructInput, peers: Peers, l: nat, obj: seq<byte>)
    requires input.ec.Layable() && ValidConfig(input.ec.Config())
  {
    forall x: nat :: Eligible(input, x) && Answer(input, peers, x, l).Some? ==>
      Answer(input, peers, x, l).value == StoredShard(input.ec, obj, input.sources[x].slot - 1)
  }

  lemma KnownAreTrue(input: ReconstructInput, peers: Peers, l: nat, obj: seq<byte>)
    requires input.ec.Layable() && ValidConfig(input.ec.Config()) && TruthfulKnown(input, peers, l, obj)
    ensures var slots := GroupReads(input, peers, l, input.sources);
      forall i :: 0 <= i < |slots| && slots[i].Some? ==> slots[i].value == StoredShard(input.ec, obj, i)
  {
    hide GroupReads, StoredShard;
    var slots := GroupReads(input, peers, l, input.sources);
    assert input.sources[..|input.sources|] == input.sources;
    forall i | 0 <= i < |slots| && slots[i].Some? ensures slots[i].value == StoredShard(input.ec, obj, i) {
      GatheredIsKnown(input, peers, l, |input.sources|, i + 1);
    }
  }

  /** One known group: it is rebuilt, shard for shard as it was, if and only if k distinct slots are served. */
  method RebuildKnownFromPeers(t: Target, input: ReconstructInput, local: nat, peers: Peers, obj: seq<byte>)
      returns (r: Result<seq<nat>, RepairError>)
    requires Representable(peers) && Consistent(t.meta) && NoFaults(t.faults)
    requires input.container in t.meta.containers && t.meta.containers[input.container].info.state.Open?
    requires input.ec.Layable() && ValidConfig(input.ec.Config()) && Fits(input.ec, |obj|)
    requires TruthfulKnown(input, peers, local, obj)
    modifies t
    ensures r.Ok? <==> |KnownSlots(input, peers, local)| >= input.ec.data
    ensures r.Ok? ==> GroupRestored(t.digest, input, local, obj, t.meta, t.chunks)
    ensures r.Err? ==> t.meta == old(t.meta) && t.chunks == old(t.chunks)
    ensures r.Err? ==> r.error == TooFewShards(|KnownSlots(input, peers, local)|, input.ec.data)
  {
    hide Consistent, Representable, Framed, GroupStored, GroupRestored, KnownSlots, Having, GroupReads, StoredShard,
      TruthfulKnown, NumStripes, Times, DecodeError, NoFaults;
    KnownAreTrue(input, peers, local, obj);
    KnownCount(input, peers, local);
    if Recoverable(input.ec, GroupReads(input, peers, local, input.sources)) {
      TrueSlotsDecode(input.ec, GroupReads(input, peers, local, input.sources), obj);
    }
    r := t.ReconstructAndPersist(input, local, |obj|, peers);
    if r.Ok? {
      KnownRestored(t.digest, input, local, peers, obj, t.meta, t.chunks);
    }
  }

  lemma KnownRestored(digest: Digest, input: ReconstructInput, local: nat, peers: Peers, obj: seq<byte>, meta: Meta,
      chunks: map<BlockId, seq<byte>>)
    requires input.ec.Layable() && ValidConfig(input.ec.Config()) && TruthfulKnown(input, peers, local, obj)
    requires GroupStored(digest, input, KnownGroup(input, local, |obj|, peers), local, meta, chunks)
    ensures GroupRestored(digest, input, local, obj, meta, chunks)
  {
    hide GroupStored, GroupReads, StoredShard, TruthfulKnown, RecordFor;
    KnownAreTrue(input, peers, local, obj);
    forall slot | slot in input.missing && 1 <= slot <= input.ec.data + input.ec.parity
      ensures Restored(digest, input.ec, BlockId(input.container, local, slot), obj, meta, chunks)
    {
      KnownGroupIsExact(digest, input, peers, obj, BlockId(input.container, local, slot), meta, chunks);
    }
  }
}
