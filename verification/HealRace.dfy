/** The one interleaving in which a reconstruction reads unverified bytes, and what it can do: for every
    configuration and every group that holds bytes, a run that ends with a wrong shard at rest. */
module HealRace {
  import opened Wrappers
  import opened Mds
  import opened ReedSolomon
  import opened Checksum
  import opened Layout
  import opened Shards
  import opened Decode
  import opened Distance
  import opened MetaStore
  import opened Datanode
  import opened Survey
  import opened Repair
  import opened SelfHeal

  // ---- a rotten object ----

  /** An object of the same length that differs from the true one in data shard i only. */
  ghost predicate RottenAt(p: Profile, obj: seq<byte>, rotten: seq<byte>, i: nat) {
    && p.Layable() && ValidConfig(p.Config()) && i < p.data && |rotten| == |obj| && rotten != obj
    && forall x :: 0 <= x < p.data && x != i ==> StoredShard(p, rotten, x) == StoredShard(p, obj, x)
  }

  /** Its first parity shard differs too: k - 1 data shards and that one would determine the object. */
  lemma ParityDiffers(p: Profile, obj: seq<byte>, rotten: seq<byte>, i: nat)
    requires RottenAt(p, obj, rotten, i)
    ensures StoredShard(p, rotten, p.data) != StoredShard(p, obj, p.data)
  {
    hide StoredShard, Candidate, Having;
    if StoredShard(p, rotten, p.data) == StoredShard(p, obj, p.data) {
      var kept: Slots := seq(p.Total(), x requires 0 <= x < p.Total() =>
        if x <= p.data && x != i then Some(StoredShard(p, obj, x)) else None);
      StoredAreCandidate(p, kept, obj);
      StoredAreCandidate(p, kept, rotten);
      var survivors := Range(p.data + 1) - {i};
      assert |survivors| == p.data;
      EnoughPresent(p, kept, survivors);
      ShardsDetermineObject(p, kept, obj, rotten);
    }
  }

  /** Flipping a bit of the first byte rots data shard 0 of any object that has one. */
  function Flipped(obj: seq<byte>): seq<byte>
    requires obj != []
  {
    [obj[0] ^ 1] + obj[1..]
  }

  lemma FlipChanges(b: byte)
    ensures b ^ 1 != b
  {}

  lemma FlippedIsRotten(p: Profile, obj: seq<byte>)
    requires p.Layable() && ValidConfig(p.Config()) && obj != []
    ensures RottenAt(p, obj, Flipped(obj), 0)
  {
    FlipChanges(obj[0]);
    var rotten := Flipped(obj);
    assert rotten[0] != obj[0];
    forall x | 0 < x < p.data ensures StoredShard(p, rotten, x) == StoredShard(p, obj, x) {
      forall s | 0 <= s < NumStripes(p, |obj|) ensures Cell(p, rotten, x, s) == Cell(p, obj, x, s) {
        TimesMono(1, x, p.chunkSize);
        assert Times(1, p.chunkSize) == p.chunkSize;
        LaterCell(p, obj, x, s);
      }
      hide Cell, Flipped, NumStripes;
      PrefixesAgree(p, rotten, obj, x, NumStripes(p, |obj|));
    }
  }

  /** A cell that starts past the first byte does not see it. */
  lemma LaterCell(p: Profile, obj: seq<byte>, x: nat, s: nat)
    requires obj != [] && Times(x, p.chunkSize) > 0
    ensures Cell(p, Flipped(obj), x, s) == Cell(p, obj, x, s)
  {
    var lo, hi := Min(|obj|, CellOff(p, x, s)), Min(|obj|, CellOff(p, x, s) + p.chunkSize);
    assert CellOff(p, x, s) >= 1;
    hide CellOff;
    assert Flipped(obj)[lo..hi] == obj[lo..hi];
  }

  /** The k data shards of the rotten object decode to it. */
  lemma RottenDecodes(p: Profile, obj: seq<byte>, rotten: seq<byte>, i: nat, slots: Slots)
    requires RottenAt(p, obj, rotten, i) && Fits(p, |obj|) && |slots| == p.Total()
    requires forall x :: 0 <= x < p.Total() ==> slots[x] == if x < p.data then Some(StoredShard(p, rotten, x)) else None
    ensures RebuiltShard(p, |obj|, slots, p.data + 1, StoredShard(p, rotten, p.data))
  {
    hide StoredShard, DecodeError, Recovers, Times, NumStripes, ExpectedShardLen;
    SurvivorsDecode(p, rotten, slots, Range(p.data), rotten);
    assert DecodesTo(p, |obj|, slots, rotten);
  }

  // ---- stretches of steps ----

  /** A stretch of steps from state s to state t. */
  ghost predicate Leads(w: World, s: State, t: State, steps: seq<Step>)
    requires ValidWorld(w)
    decreases |steps|
  {
    if steps == [] then s == t
    else exists u :: Next(w, s, u, steps[0]) && Leads(w, u, t, steps[1..])
  }

  lemma LeadsNone(w: World, s: State)
    requires ValidWorld(w)
    ensures Leads(w, s, s, []) && Unrecorded([]) == 0
  {}

  lemma LeadsOne(w: World, s: State, t: State, step: Step)
    requires ValidWorld(w) && Next(w, s, t, step)
    ensures Leads(w, s, t, [step])
  {
    hide Next;
    assert Leads(w, t, t, []);
    assert [step][1..] == [];
  }

  lemma {:induction false} LeadsJoin(w: World, s: State, t: State, u: State, a: seq<Step>, b: seq<Step>)
    requires ValidWorld(w) && Leads(w, s, t, a) && Leads(w, t, u, b)
    ensures Leads(w, s, u, a + b)
    decreases |a|
  {
    hide Next;
    if a == [] {
      assert a + b == b;
    } else {
      var m :| Next(w, s, m, a[0]) && Leads(w, m, t, a[1..]);
      LeadsJoin(w, m, t, u, a[1..], b);
      assert (a + b)[1..] == a[1..] + b && (a + b)[0] == a[0];
    }
  }

  lemma TwoSteps(w: World, s: State, u: State, t: State, a: Step, b: Step)
    requires ValidWorld(w) && Leads(w, s, u, [a]) && Leads(w, u, t, [b])
    ensures Leads(w, s, t, [a, b])
  {
    hide *;
    LeadsJoin(w, s, u, t, [a], [b]);
    assert [a] + [b] == [a, b];
  }

  lemma ThreeSteps(w: World, s: State, u: State, v: State, t: State, a: Step, b: Step, c: Step)
    requires ValidWorld(w) && Leads(w, s, u, [a]) && Leads(w, u, v, [b]) && Leads(w, v, t, [c])
    ensures Leads(w, s, t, [a, b, c])
  {
    hide *;
    LeadsJoin(w, s, u, v, [a], [b]);
    LeadsJoin(w, s, v, t, [a] + [b], [c]);
    assert [a] + [b] + [c] == [a, b, c];
  }

  /** A run extends along any stretch of steps. */
  lemma {:induction false} LeadsOn(w: World, states: seq<State>, steps: seq<Step>, t: State, more: seq<Step>)
    requires ValidWorld(w) && IsRun(w, states, steps) && Leads(w, states[|steps|], t, more)
    ensures exists all :: IsRun(w, all, steps + more) && all != [] && all[|all| - 1] == t
    decreases |more|
  {
    hide Next;
    if more == [] {
      assert steps + more == steps;
    } else {
      var u :| Next(w, states[|steps|], u, more[0]) && Leads(w, u, t, more[1..]);
      assert IsRun(w, states + [u], steps + [more[0]]);
      LeadsOn(w, states + [u], steps + [more[0]], t, more[1..]);
      assert steps + [more[0]] + more[1..] == steps + more;
    }
  }

  /** How many reads of a stretch find no record. */
  function Unrecorded(steps: seq<Step>): nat {
    if steps == [] then 0 else Unrecorded(steps[..|steps| - 1]) + if steps[|steps| - 1].ReadUnrecorded? then 1 else 0
  }

  lemma {:induction false} UnrecordedJoin(a: seq<Step>, b: seq<Step>)
    ensures Unrecorded(a + b) == Unrecorded(a) + Unrecorded(b)
  {
    if b == [] {
      assert a + b == a;
    } else {
      UnrecordedJoin(a, b[..|b| - 1]);
      assert (a + b)[..|a + b| - 1] == a + b[..|b| - 1];
    }
  }

  lemma {:induction false} UnrecordedNone(steps: seq<Step>)
    requires forall i :: 0 <= i < |steps| ==> !steps[i].ReadUnrecorded?
    ensures Unrecorded(steps) == 0
  {
    if steps != [] { UnrecordedNone(steps[..|steps| - 1]); }
  }

  // ---- the group is written: datanode j holds slot j + 1, datanode k nothing ----

  /** Group (c, l) holds bytes, and `rotten` differs from them in data shard i. */
  datatype Race = Race(c: nat, l: nat, i: nat, rotten: seq<byte>) {
    function Id(j: nat): BlockId { BlockId(c, l, j + 1) }
  }

  ghost predicate Valid(w: World, r: Race) {
    && ValidWorld(w) && (r.c, r.l) in w.groups && w.groups[(r.c, r.l)] != [] && r.c in w.ec && r.i < w.ec[r.c].data
    && RottenAt(w.ec[r.c], w.groups[(r.c, r.l)], r.rotten, r.i)
  }

  const IDLE := Node(EMPTY, map[])

  ghost function FullNode(w: World, r: Race, j: nat): Node
    requires Valid(w, r) && j < w.ec[r.c].data
  {
    var m := Create(EMPTY, NewOpen(r.c, w.ec[r.c])).0;
    Node(PutBlock(m, TrueRecord(w, r.Id(j))).0, map[r.Id(j) := TrueShard(w, r.Id(j))])
  }

  lemma FullNodeIs(w: World, r: Race, j: nat)
    requires Valid(w, r) && j < w.ec[r.c].data
    ensures Known(w, r.Id(j)) && FullNode(w, r, j).meta.blocks == map[r.Id(j) := TrueRecord(w, r.Id(j))]
    ensures FullNode(w, r, j).chunks == map[r.Id(j) := TrueShard(w, r.Id(j))]
  {
    assert TrueRecord(w, r.Id(j)).id == r.Id(j);
    hide TrueRecord, TrueShard, RottenAt;
  }

  /** The first n data shards are written. */
  ghost function Written(w: World, r: Race, n: nat): (nodes: map<nat, Node>)
    requires Valid(w, r) && n <= w.ec[r.c].data
    ensures forall dn :: dn in nodes <==> 0 <= dn <= w.ec[r.c].data
    ensures forall dn :: dn in nodes ==> nodes[dn] == if dn < n then FullNode(w, r, dn) else IDLE
  {
    map dn: nat | dn <= w.ec[r.c].data :: if dn < n then FullNode(w, r, dn) else IDLE
  }

  ghost function WrittenAt(w: World, r: Race, n: nat): State
    requires Valid(w, r) && n <= w.ec[r.c].data
  {
    State(Written(w, r, n), map[])
  }

  function WriteSteps(r: Race, n: nat): seq<Step> {
    if n == 0 then []
    else
      var j := n - 1;
      WriteSteps(r, j) + [ClientCreate(j, r.c), ClientWrite(j, r.Id(j)), ClientPut(j, r.Id(j))]
  }

  lemma WriteOne(w: World, r: Race, n: nat)
    requires Valid(w, r) && n < w.ec[r.c].data
    ensures Leads(w, WrittenAt(w, r, n), WrittenAt(w, r, n + 1),
              [ClientCreate(n, r.c), ClientWrite(n, r.Id(n)), ClientPut(n, r.Id(n))])
  {
    FullNodeIs(w, r, n);
    WrittenNext(w, r, n);
    hide *;
    WriteNode(w, WrittenAt(w, r, n), n, r.c, r.Id(n));
  }

  /** A client writes one shard and its record on an idle datanode. */
  lemma WriteNode(w: World, s: State, dn: nat, c: nat, id: BlockId)
    requires ValidWorld(w) && c in w.ec && Known(w, id) && dn in s.nodes && s.nodes[dn] == IDLE
    ensures var m := PutBlock(Create(EMPTY, NewOpen(c, w.ec[c])).0, TrueRecord(w, id)).0;
            Leads(w, s, s.(nodes := s.nodes[dn := Node(m, map[id := TrueShard(w, id)])]),
              [ClientCreate(dn, c), ClientWrite(dn, id), ClientPut(dn, id)])
  {
    hide TrueRecord, TrueShard, Leads, PutBlock, Create, ValidWorld, Next;
    var m, shard := Create(EMPTY, NewOpen(c, w.ec[c])).0, TrueShard(w, id);
    var s1 := SetMeta(s, dn, m);
    var s2 := SetChunks(s1, dn, map[id := shard]);
    var t := SetMeta(s2, dn, PutBlock(m, TrueRecord(w, id)).0);
    WriteFirst(w, s, s1, dn, c);
    assert map[][id := shard] == map[id := shard];
    WriteSecond(w, s1, s2, dn, id);
    WriteThird(w, s2, t, dn, id);
    ThreeSteps(w, s, s1, s2, t, ClientCreate(dn, c), ClientWrite(dn, id), ClientPut(dn, id));
    assert t.nodes == s.nodes[dn := Node(PutBlock(m, TrueRecord(w, id)).0, map[id := shard])];
  }

  lemma WrittenNext(w: World, r: Race, n: nat)
    requires Valid(w, r) && n < w.ec[r.c].data && Known(w, r.Id(n))
    ensures ValidWorld(w) && r.c in w.ec && n in WrittenAt(w, r, n).nodes && WrittenAt(w, r, n).nodes[n] == IDLE
    ensures var m, s := PutBlock(Create(EMPTY, NewOpen(r.c, w.ec[r.c])).0, TrueRecord(w, r.Id(n))).0,
      WrittenAt(w, r, n);
            WrittenAt(w, r, n + 1) == s.(nodes := s.nodes[n := Node(m, map[r.Id(n) := TrueShard(w, r.Id(n))])])
  {
    hide TrueRecord, TrueShard, RottenAt, PutBlock, Create, ValidWorld;
    var m := PutBlock(Create(EMPTY, NewOpen(r.c, w.ec[r.c])).0, TrueRecord(w, r.Id(n))).0;
    assert Written(w, r, n + 1) == Written(w, r, n)[n := Node(m, map[r.Id(n) := TrueShard(w, r.Id(n))])];
  }

  lemma WriteFirst(w: World, s: State, t: State, dn: nat, c: nat)
    requires ValidWorld(w) && dn in s.nodes && c in w.ec
    requires t == SetMeta(s, dn, Create(s.nodes[dn].meta, NewOpen(c, w.ec[c])).0)
    ensures Leads(w, s, t, [ClientCreate(dn, c)])
  {
    hide Create;
    assert Next(w, s, t, ClientCreate(dn, c));
    LeadsOne(w, s, t, ClientCreate(dn, c));
  }

  lemma WriteSecond(w: World, s: State, t: State, dn: nat, id: BlockId)
    requires ValidWorld(w) && dn in s.nodes && Known(w, id)
    requires t == SetChunks(s, dn, s.nodes[dn].chunks[id := TrueShard(w, id)])
    ensures Leads(w, s, t, [ClientWrite(dn, id)])
  {
    hide TrueShard;
    assert Next(w, s, t, ClientWrite(dn, id));
    LeadsOne(w, s, t, ClientWrite(dn, id));
  }

  lemma WriteThird(w: World, s: State, t: State, dn: nat, id: BlockId)
    requires ValidWorld(w) && dn in s.nodes && Known(w, id)
    requires t == SetMeta(s, dn, PutBlock(s.nodes[dn].meta, TrueRecord(w, id)).0)
    ensures Leads(w, s, t, [ClientPut(dn, id)])
  {
    hide TrueRecord, PutBlock;
    assert Next(w, s, t, ClientPut(dn, id));
    LeadsOne(w, s, t, ClientPut(dn, id));
  }

  lemma {:induction false} WriteAll(w: World, r: Race, n: nat)
    requires Valid(w, r) && n <= w.ec[r.c].data
    ensures Leads(w, WrittenAt(w, r, 0), WrittenAt(w, r, n), WriteSteps(r, n))
    ensures Unrecorded(WriteSteps(r, n)) == 0
  {
    hide Leads, WrittenAt, ValidWorld, RottenAt, Next, Unrecorded;
    if n == 0 {
      LeadsNone(w, WrittenAt(w, r, 0));
    } else {
      WriteAll(w, r, n - 1);
      WriteOne(w, r, n - 1);
      var last := [ClientCreate(n - 1, r.c), ClientWrite(n - 1, r.Id(n - 1)), ClientPut(n - 1, r.Id(n - 1))];
      LeadsJoin(w, WrittenAt(w, r, 0), WrittenAt(w, r, n - 1), WrittenAt(w, r, n), WriteSteps(r, n - 1), last);
      UnrecordedNone(last);
      UnrecordedJoin(WriteSteps(r, n - 1), last);
    }
  }

  // ---- the race: shard i rots and loses its metadata between the listing and the read ----

  /** The sources after the rotten one: the other data slots below n + 1. */
  function Others(r: Race, n: nat): seq<Source> {
    if n == 0 then [] else Others(r, n - 1) + if n - 1 == r.i then [] else [Source(n, "")]
  }

  /** Datanode k is told to rebuild the first parity slot from the k data slots, shard i's source first. */
  function RaceInput(w: World, r: Race): ReconstructInput
    requires r.c in w.ec
  {
    ReconstructInput(r.c, w.ec[r.c], [w.ec[r.c].data + 1], [Source(r.i + 1, "")] + Others(r, w.ec[r.c].data))
  }

  lemma {:induction false} OthersName(r: Race, n: nat, j: nat)
    requires j < n && j != r.i
    ensures exists x :: 0 <= x < |Others(r, n)| && Others(r, n)[x].slot == j + 1
  {
    var last := Others(r, n);
    if j < n - 1 {
      OthersName(r, n - 1, j);
      var x :| 0 <= x < |Others(r, n - 1)| && Others(r, n - 1)[x].slot == j + 1;
      assert last[x].slot == j + 1;
    } else {
      assert last[|last| - 1].slot == j + 1;
    }
  }

  /** Every data slot is asked for. */
  lemma DataIsAsked(w: World, r: Race, f: Found, j: nat)
    requires Valid(w, r) && j < w.ec[r.c].data && Shaped(w.ec[r.c].Total(), f)
    ensures Asks(JobWith(w, r, f), r.Id(j))
  {
    hide ValidWorld, RottenAt;
    var input := RaceInput(w, r);
    if j == r.i {
      assert input.sources[0].slot == j + 1;
    } else {
      OthersName(r, w.ec[r.c].data, j);
      hide Others;
      var x :| 0 <= x < |Others(r, w.ec[r.c].data)| && Others(r, w.ec[r.c].data)[x].slot == j + 1;
      assert input.sources[x + 1].slot == j + 1;
    }
  }

  ghost function RottenShard(w: World, r: Race): seq<byte>
    requires Valid(w, r)
  {
    StoredShard(w.ec[r.c], r.rotten, r.i)
  }

  /** The survey once the rotten shard and the data shards before slot n + 1 are read. */
  ghost function Seen(w: World, r: Race, n: nat): (slots: Slots)
    requires Valid(w, r) && n <= w.ec[r.c].data
    ensures |slots| == w.ec[r.c].Total()
  {
    seq(w.ec[r.c].Total(), x requires 0 <= x < w.ec[r.c].Total() =>
      if x == r.i then Some(RottenShard(w, r)) else if x < n then Some(TrueShard(w, r.Id(x))) else None)
  }

  ghost function JobWith(w: World, r: Race, f: Found): Job
    requires Valid(w, r)
  {
    Job(w.ec[r.c].data, RaceInput(w, r), f, None)
  }

  ghost function GroupLen(w: World, r: Race): nat
    requires Valid(w, r)
  {
    |w.groups[(r.c, r.l)]|
  }

  ghost function Gathered(w: World, r: Race, n: nat): Found
    requires Valid(w, r) && n <= w.ec[r.c].data
  {
    Found(map[r.l := Seen(w, r, n)], map[r.l := GroupLen(w, r)])
  }

  ghost function RottedNodes(w: World, r: Race): map<nat, Node>
    requires Valid(w, r)
  {
    var nodes := Written(w, r, w.ec[r.c].data);
    nodes[r.i := Node(DeleteContainer(nodes[r.i].meta, r.c), map[r.Id(r.i) := RottenShard(w, r)])]
  }

  ghost function FooledAt(w: World, r: Race, n: nat): State
    requires Valid(w, r) && n <= w.ec[r.c].data
  {
    State(RottedNodes(w, r), map[0 := JobWith(w, r, Gathered(w, r, n))])
  }

  ghost function FoolSteps(w: World, r: Race): seq<Step>
    requires Valid(w, r)
  {
    [Start(0, w.ec[r.c].data, RaceInput(w, r)), ListGroup(0, r.i, r.Id(r.i)), Rot(r.i, r.Id(r.i), RottenShard(w, r)),
     DropMetadata(r.i, r.c), ReadUnrecorded(0, r.i, r.Id(r.i))]
  }

  lemma Started(w: World, r: Race, s: State)
    requires Valid(w, r) && s.jobs == map[] && w.ec[r.c].data in s.nodes
    ensures Leads(w, s, s.(jobs := map[0 := JobWith(w, r, NOTHING)]), [Start(0, w.ec[r.c].data, RaceInput(w, r))])
  {
    hide RottenAt;
    var t := s.(jobs := map[0 := JobWith(w, r, NOTHING)]);
    assert Next(w, s, t, Start(0, w.ec[r.c].data, RaceInput(w, r)));
    LeadsOne(w, s, t, Start(0, w.ec[r.c].data, RaceInput(w, r)));
  }

  /** A datanode that still has the record lists the group. */
  lemma Listed(w: World, r: Race, j: nat, s: State, f: Found)
    requires Valid(w, r) && j < w.ec[r.c].data && Shaped(w.ec[r.c].Total(), f)
    requires f.lengths == map[] || f.lengths == map[r.l := GroupLen(w, r)]
    requires s.jobs == map[0 := JobWith(w, r, f)] && j in s.nodes && s.nodes[j] == FullNode(w, r, j)
    ensures var g := Found(f.shards, map[r.l := GroupLen(w, r)]);
            Leads(w, s, s.(jobs := map[0 := JobWith(w, r, g)]), [ListGroup(0, j, r.Id(j))])
  {
    FullNodeIs(w, r, j);
    assert TrueRecord(w, r.Id(j)).groupLen == Some(GroupLen(w, r));
    hide TrueRecord, TrueShard, RottenAt, FullNode, Leads, ValidWorld;
    var g := Found(f.shards, map[r.l := GroupLen(w, r)]);
    assert Absorb(w.ec[r.c].Total(), f, Visit(j + 1, r.l, GroupLen(w, r), None)) == g;
    DataIsAsked(w, r, f, j);
    hide Absorb, Asks, RaceInput;
    ListStep(w, s, JobWith(w, r, f), g, j, r.Id(j));
  }

  lemma RotStep(w: World, s: State, t: State, dn: nat, id: BlockId, bytes: seq<byte>)
    requires ValidWorld(w) && dn in s.nodes && id in s.nodes[dn].chunks
      && t == SetChunks(s, dn, s.nodes[dn].chunks[id := bytes])
    ensures Leads(w, s, t, [Rot(dn, id, bytes)])
  {
    assert Next(w, s, t, Rot(dn, id, bytes));
    LeadsOne(w, s, t, Rot(dn, id, bytes));
  }

  lemma DropStep(w: World, s: State, t: State, dn: nat, c: nat)
    requires ValidWorld(w) && dn in s.nodes && t == SetMeta(s, dn, DeleteContainer(s.nodes[dn].meta, c))
    ensures Leads(w, s, t, [DropMetadata(dn, c)])
  {
    hide DeleteContainer;
    assert Next(w, s, t, DropMetadata(dn, c));
    LeadsOne(w, s, t, DropMetadata(dn, c));
  }

  lemma OnlyChunk(chunks: map<BlockId, seq<byte>>, id: BlockId, bytes: seq<byte>)
    requires chunks.Keys == {id}
    ensures id in chunks && chunks[id := bytes] == map[id := bytes]
  {
    assert id in chunks.Keys;
  }

  lemma TwoUpdates(s: State, dn: nat, ch: map<BlockId, seq<byte>>, m: Meta)
    requires dn in s.nodes
    ensures SetMeta(SetChunks(s, dn, ch), dn, m) == s.(nodes := s.nodes[dn := Node(m, ch)])
  {}

  /** The shard rots and the metadata goes, record included. */
  lemma Rotted(w: World, dn: nat, c: nat, id: BlockId, s: State, bytes: seq<byte>)
    requires ValidWorld(w) && dn in s.nodes && s.nodes[dn].chunks.Keys == {id}
    ensures var t := s.(nodes := s.nodes[dn := Node(DeleteContainer(s.nodes[dn].meta, c), map[id := bytes])]);
            Leads(w, s, t, [Rot(dn, id, bytes)] + [DropMetadata(dn, c)])
  {
    hide DeleteContainer, ValidWorld, Leads;
    var u := SetChunks(s, dn, s.nodes[dn].chunks[id := bytes]);
    var t := SetMeta(u, dn, DeleteContainer(u.nodes[dn].meta, c));
    OnlyChunk(s.nodes[dn].chunks, id, bytes);
    TwoUpdates(s, dn, map[id := bytes], DeleteContainer(s.nodes[dn].meta, c));
    RotStep(w, s, u, dn, id, bytes);
    DropStep(w, u, t, dn, c);
    LeadsJoin(w, s, u, t, [Rot(dn, id, bytes)], [DropMetadata(dn, c)]);
  }

  lemma UnrecordedStep(w: World, s: State, job: Job, f: Found, peer: nat, id: BlockId)
    requires ValidWorld(w) && s.jobs == map[0 := job] && peer in s.nodes && Reads(job, id)
    requires id in s.nodes[peer].chunks && id !in s.nodes[peer].meta.blocks
    requires f == Collect(job.found, job.input.ec.Total(), id, s.nodes[peer].chunks[id])
    ensures Leads(w, s, s.(jobs := map[0 := job.(found := f)]), [ReadUnrecorded(0, peer, id)])
  {
    hide Collect, Asks;
    var t := s.(jobs := map[0 := job.(found := f)]);
    assert t.jobs == s.jobs[0 := job.(found := f)];
    assert Next(w, s, t, ReadUnrecorded(0, peer, id));
    LeadsOne(w, s, t, ReadUnrecorded(0, peer, id));
  }

  lemma VerifiedStep(w: World, s: State, job: Job, f: Found, peer: nat, id: BlockId)
    requires ValidWorld(w) && s.jobs == map[0 := job] && peer in s.nodes && Reads(job, id)
    requires id in s.nodes[peer].chunks && id in s.nodes[peer].meta.blocks
    requires Verifies(w.digest, s.nodes[peer].meta.blocks[id], s.nodes[peer].chunks[id])
    requires f == Collect(job.found, job.input.ec.Total(), id, s.nodes[peer].chunks[id])
    ensures Leads(w, s, s.(jobs := map[0 := job.(found := f)]), [ReadVerified(0, peer, id)])
  {
    hide Collect, Asks, Verifies;
    var t := s.(jobs := map[0 := job.(found := f)]);
    assert t.jobs == s.jobs[0 := job.(found := f)];
    assert Next(w, s, t, ReadVerified(0, peer, id));
    LeadsOne(w, s, t, ReadVerified(0, peer, id));
  }

  lemma ListStep(w: World, s: State, job: Job, f: Found, peer: nat, id: BlockId)
    requires ValidWorld(w) && s.jobs == map[0 := job] && peer in s.nodes && Asks(job, id)
      && id in s.nodes[peer].meta.blocks
    requires var len := s.nodes[peer].meta.blocks[id].groupLen;
             len.Some? && len.value > 0
               && f == Absorb(job.input.ec.Total(), job.found, Visit(id.slot, id.local, len.value, None))
    ensures Leads(w, s, s.(jobs := map[0 := job.(found := f)]), [ListGroup(0, peer, id)])
  {
    hide Absorb;
    var t := s.(jobs := map[0 := job.(found := f)]);
    assert t.jobs == s.jobs[0 := job.(found := f)];
    assert Next(w, s, t, ListGroup(0, peer, id));
    LeadsOne(w, s, t, ListGroup(0, peer, id));
  }

  /** The read finds no record, so the job takes the bytes as they are. */
  lemma Raced(w: World, r: Race, s: State)
    requires Valid(w, r) && s.jobs == map[0 := JobWith(w, r, Found(map[], map[r.l := GroupLen(w, r)]))]
    requires r.i in s.nodes && s.nodes[r.i].chunks == map[r.Id(r.i) := RottenShard(w, r)]
    requires r.Id(r.i) !in s.nodes[r.i].meta.blocks
    ensures Leads(w, s, s.(jobs := map[0 := JobWith(w, r, Gathered(w, r, 0))]), [ReadUnrecorded(0, r.i, r.Id(r.i))])
  {
    var f := Found(map[], map[r.l := GroupLen(w, r)]);
    FirstCollected(w, r, f);
    hide RottenAt, RottenShard, TrueShard, Leads, ValidWorld, Gathered, Collect;
    DataIsAsked(w, r, f, r.i);
    hide Asks, RaceInput;
    UnrecordedStep(w, s, JobWith(w, r, f), Gathered(w, r, 0), r.i, r.Id(r.i));
  }

  lemma FirstCollected(w: World, r: Race, f: Found)
    requires Valid(w, r) && f == Found(map[], map[r.l := GroupLen(w, r)])
    ensures Collect(f, w.ec[r.c].Total(), r.Id(r.i), RottenShard(w, r)) == Gathered(w, r, 0)
  {
    hide RottenAt, RottenShard, TrueShard, ValidWorld;
    assert Blank(w.ec[r.c].Total())[r.i := Some(RottenShard(w, r))] == Seen(w, r, 0);
  }

  lemma NextCollected(w: World, r: Race, n: nat)
    requires Valid(w, r) && n < w.ec[r.c].data && n != r.i && Known(w, r.Id(n))
    ensures Shaped(w.ec[r.c].Total(), Gathered(w, r, n))
    ensures Collect(Gathered(w, r, n), w.ec[r.c].Total(), r.Id(n), TrueShard(w, r.Id(n))) == Gathered(w, r, n + 1)
  {
    hide RottenAt, RottenShard, TrueShard, ValidWorld;
    assert Seen(w, r, n)[n := Some(TrueShard(w, r.Id(n)))] == Seen(w, r, n + 1);
  }

  lemma Fools(w: World, r: Race)
    requires Valid(w, r)
    ensures Leads(w, WrittenAt(w, r, w.ec[r.c].data), FooledAt(w, r, 0), FoolSteps(w, r))
  {
    FullNodeIs(w, r, r.i);
    hide RottenAt, RottenShard, TrueShard, TrueRecord, FullNode, Leads, Gathered, ValidWorld, Next;
    var nodes, listed := Written(w, r, w.ec[r.c].data), JobWith(w, r, Found(map[], map[r.l := GroupLen(w, r)]));
    var s1 := State(nodes, map[0 := JobWith(w, r, NOTHING)]);
    var s2, s3 := State(nodes, map[0 := listed]), State(RottedNodes(w, r), map[0 := listed]);
    Started(w, r, WrittenAt(w, r, w.ec[r.c].data));
    Listed(w, r, r.i, s1, NOTHING);
    Rotted(w, r.i, r.c, r.Id(r.i), s2, RottenShard(w, r));
    RottedHas(w, r);
    hide RottedNodes, Written;
    Raced(w, r, s3);
    FoolJoin(w, WrittenAt(w, r, w.ec[r.c].data), s1, s2, s3, FooledAt(w, r, 0),
      Start(0, w.ec[r.c].data, RaceInput(w, r)),
      ListGroup(0, r.i, r.Id(r.i)), Rot(r.i, r.Id(r.i), RottenShard(w, r)), DropMetadata(r.i,
        r.c), ReadUnrecorded(0, r.i, r.Id(r.i)));
  }

  lemma RottedHas(w: World, r: Race)
    requires Valid(w, r)
    ensures r.i in RottedNodes(w, r) && RottedNodes(w, r)[r.i].chunks == map[r.Id(r.i) := RottenShard(w, r)]
    ensures r.Id(r.i) !in RottedNodes(w, r)[r.i].meta.blocks
  {
    hide RottenAt, RottenShard, FullNode, ValidWorld;
  }

  lemma FoolJoin(w: World, s0: State, s1: State, s2: State, s3: State, s4: State, a: Step,
      b: Step, c: Step, d: Step, e: Step)
    requires ValidWorld(w) && Leads(w, s0, s1, [a]) && Leads(w, s1, s2, [b])
      && Leads(w, s2, s3, [c] + [d]) && Leads(w, s3, s4, [e])
    ensures Leads(w, s0, s4, [a, b, c, d, e])
  {
    hide *;
    LeadsJoin(w, s0, s1, s2, [a], [b]);
    LeadsJoin(w, s0, s2, s3, [a] + [b], [c] + [d]);
    LeadsJoin(w, s0, s3, s4, [a] + [b] + ([c] + [d]), [e]);
    assert [a] + [b] + ([c] + [d]) + [e] == [a, b, c, d, e];
  }

  // ---- the other data shards are read and verified ----

  function ReadSteps(r: Race, n: nat): seq<Step> {
    if n == 0 then []
    else ReadSteps(r, n - 1) + if n - 1 == r.i then []
      else [ListGroup(0, n - 1, r.Id(n - 1)), ReadVerified(0, n - 1, r.Id(n - 1))]
  }

  lemma ReadOne(w: World, r: Race, n: nat, s: State)
    requires Valid(w, r) && n < w.ec[r.c].data && n != r.i
    requires s.jobs == map[0 := JobWith(w, r, Gathered(w, r, n))] && n in s.nodes && s.nodes[n] == FullNode(w, r, n)
    ensures Leads(w, s, s.(jobs := map[0 := JobWith(w, r, Gathered(w, r, n + 1))]), [ReadVerified(0, n, r.Id(n))])
  {
    FullNodeIs(w, r, n);
    RecordAccepts(w, r.Id(n));
    NextCollected(w, r, n);
    SurveyShape(w, r, n);
    hide RottenAt, RottenShard, TrueShard, TrueRecord, FullNode, Verifies, Leads, ValidWorld, Gathered, Collect;
    DataIsAsked(w, r, Gathered(w, r, n), n);
    hide Asks, RaceInput;
    VerifiedStep(w, s, JobWith(w, r, Gathered(w, r, n)), Gathered(w, r, n + 1), n, r.Id(n));
  }

  lemma RecordAccepts(w: World, id: BlockId)
    requires ValidWorld(w) && Known(w, id)
    ensures Verifies(w.digest, TrueRecord(w, id), TrueShard(w, id))
  {
    OwnRecordAccepts(w.digest, w.ec[id.container], id, |w.groups[(id.container, id.local)]|, TrueShard(w, id));
  }

  /** The record left beside a shard accepts that shard. */
  lemma OwnRecordAccepts(digest: Digest, p: Profile, id: BlockId, len: nat, bytes: seq<byte>)
    ensures Verifies(digest, RecordFor(digest, p, id, len, bytes), bytes)
  {
    VerifyOwn(digest, bytes, p.chunkSize);
    hide VerifyOutcome;
  }

  /** The rotten slot has been read already. */
  lemma RottenSkipped(w: World, r: Race)
    requires Valid(w, r)
    ensures FooledAt(w, r, r.i + 1) == FooledAt(w, r, r.i)
  {
    hide ValidWorld, RottenAt, RottenShard, TrueShard, RottedNodes;
    assert Seen(w, r, r.i + 1) == Seen(w, r, r.i);
  }

  lemma StillFull(w: World, r: Race, n: nat)
    requires Valid(w, r) && n < w.ec[r.c].data && n != r.i
    ensures n in RottedNodes(w, r) && RottedNodes(w, r)[n] == FullNode(w, r, n)
  {
    hide ValidWorld, RottenAt, RottenShard, FullNode;
  }

  /** Datanode n lists the group and serves its shard. */
  lemma ReadNext(w: World, r: Race, n: nat)
    requires Valid(w, r) && n < w.ec[r.c].data && n != r.i
    ensures Leads(w, FooledAt(w, r, n), FooledAt(w, r, n + 1), [ListGroup(0, n, r.Id(n)), ReadVerified(0, n, r.Id(n))])
  {
    StillFull(w, r, n);
    SurveyShape(w, r, n);
    hide Leads, ValidWorld, RottenAt, Next, RottedNodes, Gathered, FullNode, RaceInput;
    var s, t := FooledAt(w, r, n), FooledAt(w, r, n + 1);
    Listed(w, r, n, s, Gathered(w, r, n));
    ReadOne(w, r, n, s);
    hide FooledAt;
    TwoSteps(w, s, s, t, ListGroup(0, n, r.Id(n)), ReadVerified(0, n, r.Id(n)));
  }

  lemma {:induction false} ReadRest(w: World, r: Race, n: nat)
    requires Valid(w, r) && n <= w.ec[r.c].data
    ensures Leads(w, FooledAt(w, r, 0), FooledAt(w, r, n), ReadSteps(r, n))
    ensures Unrecorded(ReadSteps(r, n)) == 0
  {
    hide Leads, FooledAt, ValidWorld, RottenAt, Next, Unrecorded;
    if n == 0 {
      LeadsNone(w, FooledAt(w, r, 0));
    } else {
      ReadRest(w, r, n - 1);
      var last := [ListGroup(0, n - 1, r.Id(n - 1)), ReadVerified(0, n - 1, r.Id(n - 1))];
      if n - 1 == r.i {
        RottenSkipped(w, r);
        assert ReadSteps(r, n) == ReadSteps(r, n - 1);
      } else {
        ReadNext(w, r, n - 1);
        LeadsJoin(w, FooledAt(w, r, 0), FooledAt(w, r, n - 1), FooledAt(w, r, n), ReadSteps(r, n - 1), last);
        UnrecordedNone(last);
        UnrecordedJoin(ReadSteps(r, n - 1), last);
      }
    }
  }

  lemma SurveyShape(w: World, r: Race, n: nat)
    requires Valid(w, r) && n <= w.ec[r.c].data
    ensures Shaped(w.ec[r.c].Total(), Gathered(w, r, n)) && Gathered(w, r, n).lengths == map[r.l := GroupLen(w, r)]
    ensures Found(Gathered(w, r, n).shards, map[r.l := GroupLen(w, r)]) == Gathered(w, r, n)
  {}

  // ---- the rebuilt parity shard is wrong, and is stored with its record ----

  ghost function WrongParity(w: World, r: Race): Pending
    requires Valid(w, r)
  {
    var k := w.ec[r.c].data;
    Pending(r.Id(k), GroupLen(w, r), StoredShard(w.ec[r.c], r.rotten, k))
  }

  ghost function PersistSteps(w: World, r: Race): seq<Step>
    requires Valid(w, r)
  {
    [Provision(0), WriteRebuilt(0, WrongParity(w, r).id, WrongParity(w, r).bytes), PutRebuilt(0)]
  }

  /** What the survey decodes to. */
  lemma SeenDecodes(w: World, r: Race)
    requires Valid(w, r)
    ensures RebuiltShard(w.ec[r.c], GroupLen(w, r), Seen(w, r, w.ec[r.c].data),
      w.ec[r.c].data + 1, WrongParity(w, r).bytes)
  {
    hide StoredShard, RebuiltShard, Fits;
    var p, obj := w.ec[r.c], w.groups[(r.c, r.l)];
    var slots := Seen(w, r, p.data);
    forall x | 0 <= x < p.Total()
      ensures slots[x] == if x < p.data then Some(StoredShard(p, r.rotten, x)) else None
    {
      if x == r.i {
        assert slots[x] == Some(RottenShard(w, r));
      } else if x < p.data {
        assert slots[x] == Some(TrueShard(w, r.Id(x)));
        assert TrueShard(w, r.Id(x)) == StoredShard(p, obj, x) == StoredShard(p, r.rotten, x);
      } else {
        assert slots[x] == None;
      }
    }
    RottenDecodes(p, obj, r.rotten, r.i, slots);
  }

  /** The target container is created open. */
  lemma Provisioned(w: World, s: State, job: Job)
    requires ValidWorld(w) && job.target in s.nodes && s.nodes[job.target] == IDLE && s.jobs == map[0 := job]
    ensures var m := Create(EMPTY, NewOpen(job.input.container, job.input.ec)).0;
            Leads(w, s, SetMeta(s, job.target, m), [Provision(0)])
  {
    hide Create;
    var t := SetMeta(s, job.target, Create(EMPTY, NewOpen(job.input.container, job.input.ec)).0);
    assert Next(w, s, t, Provision(0));
    LeadsOne(w, s, t, Provision(0));
  }

  /** The shard rebuilt from the rotten bytes is written. */
  lemma Rewritten(w: World, s: State, job: Job, q: Pending)
    requires ValidWorld(w) && job.target in s.nodes && s.jobs == map[0 := job] && Targeted(job.input, q.id)
    requires q.id.local in job.found.shards && q.id.local in job.found.lengths && q.len == job.found.lengths[q.id.local]
    requires RebuiltShard(job.input.ec, q.len, job.found.shards[q.id.local], q.id.slot, q.bytes)
    ensures var u := SetChunks(s, job.target, s.nodes[job.target].chunks[q.id := q.bytes]);
            var t := SetJob(u, 0, job.(pending := Some(q)));
            Leads(w, s, t, [WriteRebuilt(0, q.id, q.bytes)])
  {
    hide RebuiltShard, Targeted, ValidWorld, TrueShard, TrueRecord, Create, PutBlock, SetState, DeleteContainer,
      DeleteBlock, Absorb, Collect, Verifies, RecordFor, DropChunks;
    var t := SetJob(SetChunks(s, job.target, s.nodes[job.target].chunks[q.id := q.bytes]), 0, job.(pending := Some(q)));
    assert Next(w, s, t, WriteRebuilt(0, q.id, q.bytes));
    LeadsOne(w, s, t, WriteRebuilt(0, q.id, q.bytes));
  }

  function PutState(s: State, job: Job, bd: BlockData): State
    requires job.target in s.nodes
  {
    SetJob(SetMeta(s, job.target, PutBlock(s.nodes[job.target].meta, bd).0), 0, job.(pending := None))
  }

  /** Its record follows it. */
  lemma Recorded(w: World, s: State, job: Job, q: Pending)
    requires ValidWorld(w) && job.pending == Some(q) && job.target in s.nodes && s.jobs == map[0 := job]
    ensures Leads(w, s, PutState(s, job, RecordFor(w.digest, job.input.ec, q.id, q.len, q.bytes)), [PutRebuilt(0)])
  {
    hide RecordFor, PutBlock, ValidWorld, TrueShard, TrueRecord, Create, SetState, DeleteContainer, DeleteBlock, Absorb,
      Collect, Verifies, DropChunks, RebuiltShard, Targeted;
    var t := PutState(s, job, RecordFor(w.digest, job.input.ec, q.id, q.len, q.bytes));
    assert Next(w, s, t, PutRebuilt(0));
    LeadsOne(w, s, t, PutRebuilt(0));
  }

  /** The record is found where it was put. */
  lemma RecordIsPut(s: State, job: Job, bd: BlockData)
    requires job.target in s.nodes && OpenHere(s.nodes[job.target].meta, bd.id.container)
    ensures var t := PutState(s, job, bd);
            && job.target in t.nodes && t.nodes[job.target].chunks == s.nodes[job.target].chunks
            && bd.id in t.nodes[job.target].meta.blocks && t.nodes[job.target].meta.blocks[bd.id] == bd
  {
    PutSucceeds(s.nodes[job.target].meta, bd);
    PutFrame(s.nodes[job.target].meta, bd);
    hide PutBlock;
  }

  /** A record and bytes of the rotten parity shard are not safe. */
  lemma WrongShardAtRest(w: World, r: Race, t: State, dn: nat)
    requires Valid(w, r) && dn in t.nodes
    requires var q := WrongParity(w, r);
      && q.id in t.nodes[dn].chunks && t.nodes[dn].chunks[q.id] == q.bytes
      && q.id in t.nodes[dn].meta.blocks
        && t.nodes[dn].meta.blocks[q.id] == RecordFor(w.digest, w.ec[r.c], q.id, q.len, q.bytes)
    ensures !Safe(w, t)
  {
    hide StoredShard, RecordFor, Verifies;
    var p, q := w.ec[r.c], WrongParity(w, r);
    ParityDiffers(p, w.groups[(r.c, r.l)], r.rotten, r.i);
    OwnRecordAccepts(w.digest, p, q.id, q.len, q.bytes);
    hide RottenAt;
    assert AtRest(w, t, dn, q.id);
    assert Known(w, q.id) && TrueShard(w, q.id) == StoredShard(p, w.groups[(r.c, r.l)], p.data);
  }

  /** A job on an idle datanode provisions the container, writes a rebuilt shard and records it. */
  lemma PersistsShard(w: World, s: State, job: Job, q: Pending) returns (t: State)
    requires ValidWorld(w) && job.target in s.nodes && s.nodes[job.target] == IDLE && s.jobs == map[0 := job]
    requires Targeted(job.input, q.id) && q.id.local in job.found.shards && q.id.local in job.found.lengths
    requires q.len == job.found.lengths[q.id.local]
    requires RebuiltShard(job.input.ec, q.len, job.found.shards[q.id.local], q.id.slot, q.bytes)
    ensures Leads(w, s, t, [Provision(0), WriteRebuilt(0, q.id, q.bytes), PutRebuilt(0)]) && job.target in t.nodes
    ensures q.id in t.nodes[job.target].chunks && t.nodes[job.target].chunks[q.id] == q.bytes
    ensures var bd := RecordFor(w.digest, job.input.ec, q.id, q.len, q.bytes);
            q.id in t.nodes[job.target].meta.blocks && t.nodes[job.target].meta.blocks[q.id] == bd
  {
    hide RebuiltShard, Leads, RecordFor, PutBlock, ValidWorld, Next;
    var c, dn, after := job.input.container, job.target, job.(pending := Some(q));
    var u := SetMeta(s, dn, Create(EMPTY, NewOpen(c, job.input.ec)).0);
    Provisioned(w, s, job);
    Rewritten(w, u, job, q);
    var v := SetJob(SetChunks(u, dn, u.nodes[dn].chunks[q.id := q.bytes]), 0, after);
    assert v.jobs == map[0 := after];
    assert OpenHere(v.nodes[dn].meta, c);
    hide Create, OpenHere;
    Recorded(w, v, after, q);
    var bd := RecordFor(w.digest, job.input.ec, q.id, q.len, q.bytes);
    RecordId(w.digest, job.input.ec, q.id, q.len, q.bytes);
    RecordIsPut(v, after, bd);
    t := PutState(v, after, bd);
    hide PutState;
    ThreeSteps(w, s, u, v, t, Provision(0), WriteRebuilt(0, q.id, q.bytes), PutRebuilt(0));
  }

  /** From the full survey the job stores the wrong shard. */
  lemma Persists(w: World, r: Race, s: State)
    requires Valid(w, r) && s.jobs == map[0 := JobWith(w, r, Gathered(w, r, w.ec[r.c].data))]
    requires w.ec[r.c].data in s.nodes && s.nodes[w.ec[r.c].data] == IDLE
    ensures exists t :: Leads(w, s, t, PersistSteps(w, r)) && !Safe(w, t)
  {
    SeenDecodes(w, r);
    hide StoredShard, RebuiltShard, Leads, Safe, RecordFor, Seen, ValidWorld;
    var job, q := s.jobs[0], WrongParity(w, r);
    assert Targeted(job.input, q.id);
    var t := PersistsShard(w, s, job, q);
    hide RottenAt;
    WrongShardAtRest(w, r, t, w.ec[r.c].data);
  }

  // ---- the whole run ----

  ghost function RaceSteps(w: World, r: Race): seq<Step>
    requires Valid(w, r)
  {
    WriteSteps(r, w.ec[r.c].data) + FoolSteps(w, r) + ReadSteps(r, w.ec[r.c].data) + PersistSteps(w, r)
  }

  lemma OneUnrecorded(w: World, r: Race)
    requires Valid(w, r)
    ensures Unrecorded(RaceSteps(w, r)) == 1
  {
    hide ValidWorld, RottenAt, FoolSteps, PersistSteps, WriteSteps, ReadSteps, Unrecorded, StoredShard, Leads;
    var k := w.ec[r.c].data;
    var a, b, c, d := WriteSteps(r, k), FoolSteps(w, r), ReadSteps(r, k), PersistSteps(w, r);
    WriteAll(w, r, k);
    FoolsOnce(w, r);
    ReadRest(w, r, k);
    UnrecordedJoin(a, b);
    UnrecordedJoin(a + b, c);
    UnrecordedJoin(a + b + c, d);
  }

  lemma FoolsOnce(w: World, r: Race)
    requires Valid(w, r)
    ensures Unrecorded(FoolSteps(w, r)) == 1 && Unrecorded(PersistSteps(w, r)) == 0
  {
    var b := FoolSteps(w, r);
    UnrecordedNone(b[..4]);
    UnrecordedNone(PersistSteps(w, r));
  }

  lemma RaceLeads(w: World, r: Race)
    requires Valid(w, r)
    ensures exists t :: Leads(w, WrittenAt(w, r, 0), t, RaceSteps(w, r)) && !Safe(w, t)
  {
    var k := w.ec[r.c].data;
    assert k in RottedNodes(w, r) && RottedNodes(w, r)[k] == IDLE;
    hide Leads, RottedNodes, Gathered, WriteSteps, FoolSteps, ReadSteps, PersistSteps, Safe, ValidWorld, RottenAt, Next;
    Persists(w, r, FooledAt(w, r, k));
    hide FooledAt, WrittenAt;
    WriteAll(w, r, k);
    Fools(w, r);
    ReadRest(w, r, k);
    var t :| Leads(w, FooledAt(w, r, k), t, PersistSteps(w, r)) && !Safe(w, t);
    LeadsJoin(w, WrittenAt(w, r, 0), WrittenAt(w, r, k), FooledAt(w, r, 0), WriteSteps(r, k), FoolSteps(w, r));
    LeadsJoin(w, WrittenAt(w, r, 0), FooledAt(w, r, 0), FooledAt(w, r, k),
      WriteSteps(r, k) + FoolSteps(w, r), ReadSteps(r, k));
    LeadsJoin(w, WrittenAt(w, r, 0), FooledAt(w, r, k), t,
      WriteSteps(r, k) + FoolSteps(w, r) + ReadSteps(r, k), PersistSteps(w, r));
  }

  lemma StartIsRun(w: World, r: Race)
    requires Valid(w, r)
    ensures IsRun(w, [WrittenAt(w, r, 0)], [])
  {}

  ghost predicate EndsUnsafe(w: World, states: seq<State>)
    requires ValidWorld(w)
  {
    states != [] && !Safe(w, states[|states| - 1])
  }

  /** For every configuration, every group holding bytes and every rot of one of its data shards there is a run in
      which a single read without a record makes repair persist a wrong shard. */
  lemma UnrecordedReadPersistsWrongShard(w: World, r: Race)
    requires Valid(w, r)
    ensures exists states, steps :: IsRun(w, states, steps) && Unrecorded(steps) == 1 && EndsUnsafe(w, states)
  {
    hide Leads, IsRun, Safe, WrittenAt, RaceSteps, ValidWorld, RottenAt;
    RaceLeads(w, r);
    var s := WrittenAt(w, r, 0);
    var t :| Leads(w, s, t, RaceSteps(w, r)) && !Safe(w, t);
    StartIsRun(w, r);
    LeadsOn(w, [s], [], t, RaceSteps(w, r));
    assert [] + RaceSteps(w, r) == RaceSteps(w, r);
    OneUnrecorded(w, r);
    var all :| IsRun(w, all, RaceSteps(w, r)) && all != [] && all[|all| - 1] == t;
    assert EndsUnsafe(w, all);
  }

  lemma RunLength(w: World, states: seq<State>, steps: seq<Step>)
    requires ValidWorld(w) && IsRun(w, states, steps)
    ensures |states| == |steps| + 1
  {}

  /** Repair is safe in every run if and only if unverified bytes are refused, or no group holds any bytes. */
  lemma SafeIffRefused(w: World, gate: Gate)
    requires ValidWorld(w)
    ensures AlwaysSafe(w, gate) <==> !gate.TakeAny? || AllEmpty(w)
  {
    hide IsRun, Safe;
    if !gate.TakeAny? || AllEmpty(w) {
      RefusalIsSafe(w, gate);
    } else {
      var g :| g in w.groups && w.groups[g] != [];
      var r := Race(g.0, g.1, 0, Flipped(w.groups[g]));
      FlippedIsRotten(w.ec[g.0], w.groups[g]);
      UnrecordedReadPersistsWrongShard(w, r);
      var states, steps :| IsRun(w, states, steps) && Unrecorded(steps) == 1 && EndsUnsafe(w, states);
      RunLength(w, states, steps);
      assert AdmittedRun(w, gate, states, steps);
    }
  }
}
