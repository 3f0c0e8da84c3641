/** Container and block metadata: crates/ozone-fjall-store/src/lib.rs. */
module MetaStore {
  import opened Wrappers
  import opened Checksum
  import opened Layout

  datatype BlockId = BlockId(container: nat, local: nat, slot: nat)

  datatype ContainerState = Open | Closing | QuasiClosed | Closed | Unhealthy | Deleted {
    predicate Writable() { Open? }
  }

  datatype ContainerInfo = ContainerInfo(id: nat, state: ContainerState, usedBytes: nat,
    blockCount: nat, ec: Option<Profile>)

  function NewOpen(id: nat, ec: Profile): ContainerInfo {
    ContainerInfo(id, Open, 0, 0, Some(ec))
  }

  datatype StoredContainer = StoredContainer(info: ContainerInfo, bcsi: nat)

  datatype ChunkInfo = ChunkInfo(name: string, len: nat, checksum: Option<ChecksumData>)

  datatype BlockData = BlockData(id: BlockId, chunks: seq<ChunkInfo>, groupLen: Option<nat>) {
    function Len(): nat { ChunkBytes(chunks) }
  }

  function ChunkBytes(chunks: seq<ChunkInfo>): nat {
    if chunks == [] then 0 else chunks[0].len + ChunkBytes(chunks[1..])
  }

  datatype StorageError =
    | ContainerExists(container: nat)
    | ContainerNotFound(container: nat)
    | ContainerNotOpen(container: nat, state: ContainerState)
    | BlockNotFound(block: BlockId)
    | IoFailure

  /** The two partitions of the keyspace. */
  datatype Meta = Meta(containers: map<nat, StoredContainer>, blocks: map<BlockId, BlockData>)

  const EMPTY := Meta(map[], map[])

  // ---- the operations, as functions of the store ----

  function Create(m: Meta, info: ContainerInfo): (Meta, Result<(), StorageError>) {
    if info.id in m.containers then (m, Err(ContainerExists(info.id)))
    else (m.(containers := m.containers[info.id := StoredContainer(info, 0)]), Ok(()))
  }

  function SetState(m: Meta, id: nat, state: ContainerState): (Meta, Result<(), StorageError>) {
    if id !in m.containers then (m, Err(ContainerNotFound(id)))
    else
      var c := m.containers[id];
      (m.(containers := m.containers[id := c.(info := c.info.(state := state))]), Ok(()))
  }

  function DeleteContainer(m: Meta, id: nat): Meta {
    Meta(m.containers - {id}, map b | b in m.blocks && b.container != id :: m.blocks[b])
  }

  function PutBlock(m: Meta, block: BlockData): (Meta, Result<nat, StorageError>) {
    var cid := block.id.container;
    if cid !in m.containers then (m, Err(ContainerNotFound(cid)))
    else
      var c := m.containers[cid];
      if !c.info.state.Writable() then (m, Err(ContainerNotOpen(cid, c.info.state)))
      else
        var info := if block.id in m.blocks
          then c.info.(usedBytes := Monus(c.info.usedBytes, m.blocks[block.id].Len()) + block.Len())
          else c.info.(blockCount := c.info.blockCount + 1, usedBytes := c.info.usedBytes + block.Len());
        (Meta(m.containers[cid := StoredContainer(info, c.bcsi + 1)], m.blocks[block.id := block]), Ok(c.bcsi + 1))
  }

  function DeleteBlock(m: Meta, id: BlockId): Meta {
    if id !in m.blocks then m
    else
      var blocks := m.blocks - {id};
      if id.container !in m.containers then m.(blocks := blocks)
      else
        var c := m.containers[id.container];
        var info := c.info.(blockCount := Monus(c.info.blockCount, 1),
          usedBytes := Monus(c.info.usedBytes, m.blocks[id].Len()));
        Meta(m.containers[id.container := c.(info := info)], blocks)
  }

  // ---- the counters ----

  ghost function BlocksOf(m: Meta, c: nat): (s: set<BlockId>)
    ensures forall b :: b in s <==> b in m.blocks && b.container == c
  {
    set b | b in m.blocks && b.container == c
  }

  ghost function SumLen(blocks: map<BlockId, BlockData>, s: set<BlockId>): nat
    requires s <= blocks.Keys
    decreases |s|
  {
    if s == {} then 0 else var b :| b in s; blocks[b].Len() + SumLen(blocks, s - {b})
  }

  lemma {:induction false} SumRemove(blocks: map<BlockId, BlockData>, s: set<BlockId>, x: BlockId)
    requires s <= blocks.Keys && x in s
    ensures SumLen(blocks, s) == blocks[x].Len() + SumLen(blocks, s - {x})
    decreases |s|
  {
    var b :| b in s && SumLen(blocks, s) == blocks[b].Len() + SumLen(blocks, s - {b});
    if b != x {
      SumRemove(blocks, s - {b}, x);
      SumRemove(blocks, s - {x}, b);
      assert s - {b} - {x} == s - {x} - {b};
    }
  }

  /** The sum depends only on the blocks summed. */
  lemma {:induction false} SumSame(a: map<BlockId, BlockData>, b: map<BlockId, BlockData>, s: set<BlockId>)
    requires s <= a.Keys && s <= b.Keys && forall x :: x in s ==> a[x] == b[x]
    ensures SumLen(a, s) == SumLen(b, s)
    decreases |s|
  {
    if s != {} {
      var x :| x in s;
      SumRemove(a, s, x);
      SumRemove(b, s, x);
      SumSame(a, b, s - {x});
    }
  }

  /** Every block has its container, and every container counts exactly its blocks and bytes. */
  ghost predicate Consistent(m: Meta) {
    && (forall b :: b in m.blocks ==> b.container in m.containers && m.blocks[b].id == b)
    && (forall c :: c in m.containers ==> CountsExact(m, c))
  }

  ghost predicate CountsExact(m: Meta, c: nat)
    requires c in m.containers
  {
    && m.containers[c].info.id == c
    && m.containers[c].info.blockCount == |BlocksOf(m, c)|
    && BlocksOf(m, c) <= m.blocks.Keys
    && m.containers[c].info.usedBytes == SumLen(m.blocks, BlocksOf(m, c))
  }

  /** Records are stored under their own ids. */
  predicate Keyed(m: Meta) {
    && (forall b :: b in m.blocks ==> m.blocks[b].id == b)
    && (forall c :: c in m.containers ==> m.containers[c].info.id == c)
  }

  lemma ConsistentIsKeyed(m: Meta)
    requires Consistent(m)
    ensures Keyed(m)
  {
    hide BlocksOf, SumLen;
    forall c | c in m.containers ensures m.containers[c].info.id == c {
      assert CountsExact(m, c);
    }
  }

  lemma UntouchedCounts(m: Meta, n: Meta, c: nat)
    requires c in m.containers && c in n.containers && CountsExact(m, c)
    requires n.containers[c].info.id == m.containers[c].info.id
    requires n.containers[c].info.blockCount == m.containers[c].info.blockCount
    requires n.containers[c].info.usedBytes == m.containers[c].info.usedBytes
    requires forall b: BlockId :: b.container == c ==> ((b in m.blocks) == (b in n.blocks))
    requires forall b: BlockId :: b.container == c && b in m.blocks ==> n.blocks[b] == m.blocks[b]
    ensures CountsExact(n, c)
  {
    assert BlocksOf(m, c) == BlocksOf(n, c);
    SumSame(m.blocks, n.blocks, BlocksOf(m, c));
  }

  /** A record as it is before anything is put: it counts nothing. */
  predicate CountsNothing(info: ContainerInfo) {
    info.usedBytes == 0 && info.blockCount == 0
  }

  /** Creating a container keeps the counters exact if and only if it exists already or its record counts nothing. */
  lemma CreateKeeps(m: Meta, info: ContainerInfo)
    requires Consistent(m)
    ensures Consistent(Create(m, info).0) <==> info.id in m.containers || CountsNothing(info)
  {
    var n := Create(m, info).0;
    if info.id !in m.containers {
      assert BlocksOf(n, info.id) == {};
      assert CountsExact(n, info.id) <==> CountsNothing(info);
      forall c | c in m.containers ensures CountsExact(n, c) {
        UntouchedCounts(m, n, c);
      }
    }
  }

  lemma SetStateKeeps(m: Meta, id: nat, state: ContainerState)
    requires Consistent(m)
    ensures Consistent(SetState(m, id, state).0)
  {
    var n := SetState(m, id, state).0;
    forall c | c in n.containers
      ensures CountsExact(n, c)
    {
      UntouchedCounts(m, n, c);
    }
  }

  lemma DeleteContainerKeeps(m: Meta, id: nat)
    requires Consistent(m)
    ensures Consistent(DeleteContainer(m, id))
  {
    var n := DeleteContainer(m, id);
    forall c | c in n.containers
      ensures CountsExact(n, c)
    {
      UntouchedCounts(m, n, c);
    }
  }

  lemma PutBlockKeeps(m: Meta, block: BlockData)
    requires Consistent(m)
    ensures Consistent(PutBlock(m, block).0)
    ensures block.id in m.blocks && block.id.container in m.containers ==>
      m.containers[block.id.container].info.usedBytes >= m.blocks[block.id].Len()
  {
    var n, cid := PutBlock(m, block).0, block.id.container;
    if block.id in m.blocks {
      SumRemove(m.blocks, BlocksOf(m, cid), block.id);
    }
    if n != m {
      forall c | c in n.containers
        ensures CountsExact(n, c)
      {
        if c == cid {
          PutBlockCounts(m, block);
        } else {
          UntouchedCounts(m, n, c);
        }
      }
    }
  }

  lemma PutBlockCounts(m: Meta, block: BlockData)
    requires Consistent(m)
    requires block.id.container in m.containers && m.containers[block.id.container].info.state.Writable()
    ensures CountsExact(PutBlock(m, block).0, block.id.container)
  {
    var n, c, b := PutBlock(m, block).0, block.id.container, block.id;
    var was, now := BlocksOf(m, c), BlocksOf(n, c);
    assert CountsExact(m, c);
    assert now == was + {b};
    SumRemove(n.blocks, now, b);
    if b in m.blocks {
      SumRemove(m.blocks, was, b);
      SumSame(m.blocks, n.blocks, was - {b});
      assert now - {b} == was - {b};
    } else {
      SumSame(m.blocks, n.blocks, was);
      assert now - {b} == was;
    }
  }

  lemma DeleteBlockKeeps(m: Meta, id: BlockId)
    requires Consistent(m)
    ensures Consistent(DeleteBlock(m, id))
    ensures id in m.blocks ==>
      && id.container in m.containers
      && m.containers[id.container].info.blockCount >= 1
      && m.containers[id.container].info.usedBytes >= m.blocks[id].Len()
  {
    var n := DeleteBlock(m, id);
    if id in m.blocks {
      var was := BlocksOf(m, id.container);
      assert CountsExact(m, id.container);
      SumRemove(m.blocks, was, id);
      forall c | c in n.containers
        ensures CountsExact(n, c)
      {
        if c == id.container {
          assert BlocksOf(n, c) == was - {id};
          SumSame(m.blocks, n.blocks, was - {id});
        } else {
          UntouchedCounts(m, n, c);
        }
      }
    }
  }

  // ---- every reachable store ----

  datatype Op =
    | OpCreate(info: ContainerInfo)
    | OpSetState(id: nat, state: ContainerState)
    | OpDeleteContainer(id: nat)
    | OpPut(block: BlockData)
    | OpDeleteBlock(bid: BlockId)

  function Apply(m: Meta, op: Op): Meta {
    match op
    case OpCreate(info) => Create(m, info).0
    case OpSetState(id, state) => SetState(m, id, state).0
    case OpDeleteContainer(id) => DeleteContainer(m, id)
    case OpPut(block) => PutBlock(m, block).0
    case OpDeleteBlock(bid) => DeleteBlock(m, bid)
  }

  function Run(m: Meta, ops: seq<Op>): Meta
    decreases |ops|
  {
    if ops == [] then m else Run(Apply(m, ops[0]), ops[1..])
  }

  /** Every container the run creates anew starts with a record that counts nothing, as `new_open` makes it. */
  predicate CreatesBlank(m: Meta, ops: seq<Op>)
    decreases |ops|
  {
    ops != [] ==>
      && (ops[0].OpCreate? ==> CountsNothing(ops[0].info) || ops[0].info.id in m.containers)
      && CreatesBlank(Apply(m, ops[0]), ops[1..])
  }

  /** The counters are exact at every point of the run. */
  ghost predicate AlwaysConsistent(m: Meta, ops: seq<Op>)
    decreases |ops|
  {
    Consistent(m) && (ops != [] ==> AlwaysConsistent(Apply(m, ops[0]), ops[1..]))
  }

  lemma StepKeepsIff(m: Meta, op: Op)
    requires Consistent(m)
    ensures Consistent(Apply(m, op)) <==> (op.OpCreate? ==> CountsNothing(op.info) || op.info.id in m.containers)
  {
    match op {
      case OpCreate(info) => CreateKeeps(m, info);
      case OpSetState(id, state) => SetStateKeeps(m, id, state);
      case OpDeleteContainer(id) => DeleteContainerKeeps(m, id);
      case OpPut(block) => PutBlockKeeps(m, block);
      case OpDeleteBlock(bid) => DeleteBlockKeeps(m, bid);
    }
  }

  /** A run keeps the counters exact throughout if and only if the containers it creates start blank. */
  lemma {:induction false} RunKeeps(m: Meta, ops: seq<Op>)
    requires Consistent(m)
    ensures AlwaysConsistent(m, ops) <==> CreatesBlank(m, ops)
    ensures CreatesBlank(m, ops) ==> Consistent(Run(m, ops))
    decreases |ops|
  {
    if ops != [] {
      hide Consistent, Apply;
      StepKeepsIff(m, ops[0]);
      if Consistent(Apply(m, ops[0])) {
        RunKeeps(Apply(m, ops[0]), ops[1..]);
      } else {
        NotConsistent(Apply(m, ops[0]), ops[1..]);
      }
    }
  }

  lemma NotConsistent(m: Meta, ops: seq<Op>)
    requires !Consistent(m)
    ensures !AlwaysConsistent(m, ops)
  {}

  /** In every reachable store the counters are exact and no subtraction saturates. */
  lemma ReachableNeverSaturates(ops: seq<Op>, b: BlockId)
    requires CreatesBlank(EMPTY, ops)
    ensures Consistent(Run(EMPTY, ops))
    ensures var m := Run(EMPTY, ops);
      b in m.blocks ==>
        && b.container in m.containers
        && m.containers[b.container].info.blockCount >= 1
        && m.containers[b.container].info.usedBytes >= m.blocks[b].Len()
  {
    RunKeeps(EMPTY, ops);
    DeleteBlockKeeps(Run(EMPTY, ops), b);
  }

  /** Short of deletion, a container's commit sequence never goes back. */
  lemma {:induction false} CommitSequenceGrows(m: Meta, ops: seq<Op>, c: nat)
    requires c in m.containers && OpDeleteContainer(c) !in ops
    ensures c in Run(m, ops).containers && Run(m, ops).containers[c].bcsi >= m.containers[c].bcsi
    decreases |ops|
  {
    if ops != [] {
      CommitSequenceGrows(Apply(m, ops[0]), ops[1..], c);
    }
  }

  /** Two commits into one container, however far apart, get increasing ids. */
  lemma CommitIdsIncrease(m: Meta, first: BlockData, ops: seq<Op>, second: BlockData)
    requires PutBlock(m, first).1.Ok? && first.id.container == second.id.container
    requires OpDeleteContainer(first.id.container) !in ops
    requires PutBlock(Run(PutBlock(m, first).0, ops), second).1.Ok?
    ensures PutBlock(m, first).1.value < PutBlock(Run(PutBlock(m, first).0, ops), second).1.value
  {
    CommitSequenceGrows(PutBlock(m, first).0, ops, first.id.container);
  }

  // ---- the store object ----

  /** Same container, same state and configuration. */
  predicate SameButCounters(a: StoredContainer, b: StoredContainer) {
    a.info.id == b.info.id && a.info.state == b.info.state && a.info.ec == b.info.ec
  }

  predicate SameButState(a: StoredContainer, b: StoredContainer) {
    && a.info.id == b.info.id && a.info.ec == b.info.ec && a.bcsi == b.bcsi
    && a.info.usedBytes == b.info.usedBytes && a.info.blockCount == b.info.blockCount
  }

  /** A block's length is the sum of its chunks'. */
  lemma {:induction false} LengthAdds(a: seq<ChunkInfo>, b: seq<ChunkInfo>)
    ensures ChunkBytes(a + b) == ChunkBytes(a) + ChunkBytes(b)
    ensures |a| == 1 ==> ChunkBytes(a) == a[0].len
  {
    if a == [] {
      assert a + b == b;
    } else {
      LengthAdds(a[1..], b);
      assert (a + b)[1..] == a[1..] + b;
    }
  }

  class FjallMetaStore {
    var containers: map<nat, StoredContainer>
    var blocks: map<BlockId, BlockData>

    function View(): Meta
      reads this
    {
      Meta(containers, blocks)
    }

    constructor ()
      ensures View() == EMPTY && Consistent(View())
    {
      containers, blocks := map[], map[];
    }

    method CreateContainer(info: ContainerInfo) returns (r: Result<(), StorageError>)
      requires Consistent(View())
      modifies this
      ensures (View(), r) == Create(old(View()), info)
      ensures Consistent(View()) <==> r.Err? || CountsNothing(info)
      ensures r == if info.id in old(containers) then Err(ContainerExists(info.id)) else Ok(())
      ensures blocks == old(blocks)
      ensures containers == if r.Ok? then old(containers)[info.id := StoredContainer(info, 0)] else old(containers)
    {
      CreateKeeps(View(), info);
      if info.id in containers {
        return Err(ContainerExists(info.id));
      }
      containers := containers[info.id := StoredContainer(info, 0)];
      return Ok(());
    }

    method GetContainer(id: nat) returns (r: Option<ContainerInfo>)
      ensures r == if id in containers then Some(containers[id].info) else None
    {
      r := if id in containers then Some(containers[id].info) else None;
    }

    method SetContainerState(id: nat, state: ContainerState) returns (r: Result<(), StorageError>)
      requires Consistent(View())
      modifies this
      ensures (View(), r) == SetState(old(View()), id, state)
      ensures Consistent(View())
      ensures r == if id in old(containers) then Ok(()) else Err(ContainerNotFound(id))
      ensures blocks == old(blocks) && containers - {id} == old(containers) - {id}
      ensures r.Ok? ==> id in containers && containers[id].info.state == state
      ensures r.Ok? ==> SameButState(old(containers)[id], containers[id])
      ensures r.Err? ==> containers == old(containers)
    {
      SetStateKeeps(View(), id, state);
      if id !in containers {
        return Err(ContainerNotFound(id));
      }
      var record := containers[id];
      record := record.(info := record.info.(state := state));
      containers := containers[id := record];
      return Ok(());
    }

    method RemoveContainer(id: nat)
      requires Consistent(View())
      modifies this
      ensures View() == DeleteContainer(old(View()), id)
      ensures Consistent(View())
      ensures containers == old(containers) - {id}
      ensures forall b :: b in blocks <==> b in old(blocks) && b.container != id
      ensures forall b :: b in blocks ==> blocks[b] == old(blocks)[b]
    {
      DeleteContainerKeeps(View(), id);
      blocks := map b | b in blocks && b.container != id :: blocks[b];
      containers := containers - {id};
    }

    method Put(block: BlockData) returns (r: Result<nat, StorageError>)
      requires Consistent(View())
      modifies this
      ensures (View(), r) == PutBlock(old(View()), block)
      ensures Consistent(View())
      ensures var c := block.id.container;
        && (c !in old(containers) ==> r == Err(ContainerNotFound(c)))
        && (c in old(containers) && !old(containers)[c].info.state.Open? ==>
              r == Err(ContainerNotOpen(c, old(containers)[c].info.state)))
        && (c in old(containers) && old(containers)[c].info.state.Open? ==>
              && r == Ok(old(containers)[c].bcsi + 1) && blocks == old(blocks)[block.id := block]
              && containers == old(containers)[c := containers[c]] && containers[c].bcsi == r.value
              && SameButCounters(old(containers)[c], containers[c]))
      ensures r.Err? ==> View() == old(View())
    {
      hide Consistent, ChunkBytes;
      PutBlockKeeps(View(), block);
      var cid := block.id.container;
      if cid !in containers {
        return Err(ContainerNotFound(cid));
      }
      var record := containers[cid];
      if !record.info.state.Writable() {
        return Err(ContainerNotOpen(cid, record.info.state));
      }
      var newLen := block.Len();
      if block.id in blocks {
        var prevLen := blocks[block.id].Len();
        record := record.(info := record.info.(usedBytes := Monus(record.info.usedBytes, prevLen) + newLen));
      } else {
        record := record.(info := record.info.(blockCount := record.info.blockCount + 1,
          usedBytes := record.info.usedBytes + newLen));
      }
      record := record.(bcsi := record.bcsi + 1);
      blocks := blocks[block.id := block];
      containers := containers[cid := record];
      return Ok(record.bcsi);
    }

    method RemoveBlock(id: BlockId)
      requires Consistent(View())
      modifies this
      ensures View() == DeleteBlock(old(View()), id)
      ensures Consistent(View())
      ensures blocks == old(blocks) - {id}
      ensures containers.Keys == old(containers).Keys && containers - {id.container} == old(containers) - {id.container}
      ensures id.container in containers ==>
        && SameButCounters(old(containers)[id.container], containers[id.container])
        && containers[id.container].bcsi == old(containers)[id.container].bcsi
    {
      hide Consistent, ChunkBytes;
      DeleteBlockKeeps(View(), id);
      if id !in blocks {
        return;
      }
      var existing := blocks[id];
      blocks := blocks - {id};
      if id.container in containers {
        var record := containers[id.container];
        record := record.(info := record.info.(blockCount := Monus(record.info.blockCount, 1),
          usedBytes := Monus(record.info.usedBytes, existing.Len())));
        containers := containers[id.container := record];
      }
    }
  }
}
