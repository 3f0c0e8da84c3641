/** One datanode: metadata, chunk bytes, and reads checked against the recorded digest. */
module Datanode {
  import opened Wrappers
  import opened ReedSolomon
  import opened Checksum
  import opened Layout
  import opened MetaStore

  datatype Node = Node(meta: Meta, chunks: map<BlockId, seq<byte>>)

  /** The metadata written beside a shard. */
  function RecordFor(digest: Digest, p: Profile, id: BlockId, len: nat, bytes: seq<byte>): BlockData {
    BlockData(id, [ChunkInfo("0", |bytes|, Some(Compute(digest, bytes, p.chunkSize, Crc32c).value))], Some(len))
  }

  /** The digest recorded for the shard, if any, accepts these bytes. */
  predicate Verifies(digest: Digest, bd: BlockData, bytes: seq<byte>) {
    |bd.chunks| == 1 && bd.chunks[0].checksum.Some? && VerifyOutcome(digest, bytes, bd.chunks[0].checksum.value).Ok?
  }

  /** The checksum recorded for the first chunk of this name. */
  function ChecksumOf(chunks: seq<ChunkInfo>, name: string): Option<ChecksumData> {
    if chunks == [] then None
    else if chunks[0].name == name then chunks[0].checksum
    else ChecksumOf(chunks[1..], name)
  }

  /** A verified read: bytes that a recorded checksum refuses are not served; without one, any bytes are. */
  function ReadChunk(digest: Digest, n: Node, id: BlockId): Option<seq<byte>> {
    if id !in n.chunks then None
    else
      var expected := if id in n.meta.blocks then ChecksumOf(n.meta.blocks[id].chunks, "0") else None;
      if expected.Some? && VerifyOutcome(digest, n.chunks[id], expected.value).Err? then None else Some(n.chunks[id])
  }

  /** Reading a shard through its own record serves exactly the bytes the record was made for. */
  lemma ReadThroughRecord(digest: Digest, p: Profile, n: Node, id: BlockId, len: nat, shard: seq<byte>)
    requires Ideal(digest) && id in n.meta.blocks && n.meta.blocks[id] == RecordFor(digest, p, id, len, shard)
    ensures ReadChunk(digest, n, id) == if id in n.chunks && n.chunks[id] == shard then Some(shard) else None
  {
    if id in n.chunks {
      VerifyIsEquality(digest, shard, n.chunks[id], p.chunkSize);
    }
    hide VerifyOutcome, Compute;
  }

  /** A record names the shard's length and the group's, and its one chunk is digested cell by cell. */
  lemma RecordIs(digest: Digest, p: Profile, id: BlockId, len: nat, bytes: seq<byte>)
    ensures var bd := RecordFor(digest, p, id, len, bytes);
      && bd.id == id && bd.groupLen == Some(len) && bd.Len() == |bytes| && |bd.chunks| == 1
      && bd.chunks[0].checksum.Some?
      && var cd := bd.chunks[0].checksum.value;
         && cd.kind == Crc32c && |cd.checksums| == WindowCount(|bytes|, p.chunkSize)
         && forall w: nat :: w < |cd.checksums| ==> cd.checksums[w] == digest(Window(bytes, AtLeastOne(p.chunkSize), w))
  {
    ComputeIs(digest, bytes, p.chunkSize, Crc32c);
    var bd := RecordFor(digest, p, id, len, bytes);
    LengthAdds(bd.chunks, []);
    assert bd.chunks + [] == bd.chunks;
    var cd := bd.chunks[0].checksum.value;
    forall w: nat | w < |cd.checksums| ensures cd.checksums[w] == digest(Window(bytes, AtLeastOne(p.chunkSize), w)) {
      assert Matches(digest, bytes, cd, w);
    }
  }

  /** The i-th chunk is the first of that name. */
  ghost predicate FirstNamed(chunks: seq<ChunkInfo>, name: string, i: nat) {
    && i < |chunks| && chunks[i].name == name
    && forall j: nat :: j < i ==> chunks[j].name != name
  }

  lemma {:induction false} ChecksumIs(chunks: seq<ChunkInfo>, name: string, i: nat)
    requires FirstNamed(chunks, name, i)
    ensures ChecksumOf(chunks, name) == chunks[i].checksum
  {
    if i > 0 {
      assert chunks[0].name != name;
      var rest := chunks[1..];
      forall j: nat | j < i - 1 ensures rest[j].name != name { assert rest[j] == chunks[j + 1]; }
      ChecksumIs(rest, name, i - 1);
    }
  }

  lemma {:induction false} NoChecksumIs(chunks: seq<ChunkInfo>, name: string)
    requires forall i: nat :: i < |chunks| ==> chunks[i].name != name
    ensures ChecksumOf(chunks, name).None?
  {
    if chunks != [] {
      assert chunks[0].name != name;
      var rest := chunks[1..];
      forall j: nat | j < |rest| ensures rest[j].name != name { assert rest[j] == chunks[j + 1]; }
      NoChecksumIs(rest, name);
    }
  }
}
