/** The bit-rot scan: crates/ozone-dn-server/src/scrub.rs. */
module Scrub {
  import opened Wrappers
  import opened ReedSolomon
  import opened Checksum
  import opened Layout
  import opened MetaStore
  import opened Datanode
  import opened BlockScan

  datatype RepairRequest = RepairRequest(container: nat, local: nat, slot: nat, ec: Profile, groupLen: nat)

  datatype ScrubReport = ScrubReport(clean: nat, corrupt: seq<RepairRequest>)

  /** What reading a chunk file gives. */
  datatype ReadOutcome = Bytes(bytes: seq<byte>) | Missing | Broken

  type Reader = (BlockId, ChunkInfo) -> ReadOutcome

  /** A checksummed chunk that is missing or fails its digest. */
  predicate ChunkCorrupt(digest: Digest, read: Reader, id: BlockId, chunk: ChunkInfo) {
    && chunk.checksum.Some?
    && match read(id, chunk)
       case Bytes(bytes) => VerifyOutcome(digest, bytes, chunk.checksum.value).Err?
       case Missing => true
       case Broken => false
  }

  ghost predicate BlockCorrupt(digest: Digest, read: Reader, bd: BlockData) {
    exists j :: 0 <= j < |bd.chunks| && ChunkCorrupt(digest, read, bd.id, bd.chunks[j])
  }

  /** Reading this block's checksummed chunks hits an I/O error. */
  ghost predicate BlockBroken(read: Reader, bd: BlockData) {
    exists j :: 0 <= j < |bd.chunks| && bd.chunks[j].checksum.Some? && read(bd.id, bd.chunks[j]).Broken?
  }

  function RequestFor(c: ContainerInfo, ec: Profile, bd: BlockData): RepairRequest {
    RepairRequest(c.id, bd.id.local, bd.id.slot, ec, if bd.groupLen.Some? then bd.groupLen.value else 0)
  }

  /** The request names the block's container, local id and slot, the profile, and the recorded length or 0. */
  predicate Describes(q: RepairRequest, container: nat, ec: Profile, bd: BlockData) {
    && q.container == container && q.local == bd.id.local && q.slot == bd.id.slot && q.ec == ec
    && q.groupLen == match bd.groupLen case Some(len) => len case None => 0
  }

  lemma RequestIs(c: ContainerInfo, ec: Profile, bd: BlockData, q: RepairRequest)
    ensures q == RequestFor(c, ec, bd) <==> Describes(q, c.id, ec, bd)
  {}

  /** The requests a list of blocks gives rise to. */
  ghost predicate Finds(digest: Digest, read: Reader, c: ContainerInfo, ec: Profile,
      blocks: seq<BlockData>, req: RepairRequest) {
    exists i :: 0 <= i < |blocks| && BlockCorrupt(digest, read, blocks[i]) && Describes(req, c.id, ec, blocks[i])
  }

  // ---- what a list of blocks amounts to ----

  /** A checksummed chunk that reads and verifies. */
  predicate ChunkClean(digest: Digest, read: Reader, id: BlockId, chunk: ChunkInfo) {
    chunk.checksum.Some? && !read(id, chunk).Broken? && !ChunkCorrupt(digest, read, id, chunk)
  }

  /** How many of the block's first n chunks are clean. */
  function CleanChunks(digest: Digest, read: Reader, bd: BlockData, n: nat): nat
    requires n <= |bd.chunks|
  {
    if n == 0 then 0
    else CleanChunks(digest, read, bd, n - 1) + if ChunkClean(digest, read, bd.id, bd.chunks[n - 1]) then 1 else 0
  }

  /** One copy of the request for each corrupt chunk among the block's first n. */
  function Requests(digest: Digest, read: Reader, req: RepairRequest, bd: BlockData, n: nat): seq<RepairRequest>
    requires n <= |bd.chunks|
  {
    if n == 0 then []
    else Requests(digest, read, req, bd, n - 1) + if ChunkCorrupt(digest, read, bd.id, bd.chunks[n - 1]) then [req]
      else []
  }

  /** The clean chunks of the blocks, counted once per occurrence. */
  function CleanIn(digest: Digest, read: Reader, blocks: seq<BlockData>): nat {
    if blocks == [] then 0
    else
      var bd := blocks[|blocks| - 1];
      CleanIn(digest, read, blocks[..|blocks| - 1]) + CleanChunks(digest, read, bd, |bd.chunks|)
  }

  /** The requests of the blocks, in order, one per corrupt chunk. */
  function CorruptIn(digest: Digest, read: Reader, c: ContainerInfo, ec: Profile,
      blocks: seq<BlockData>): seq<RepairRequest> {
    if blocks == [] then []
    else
      var bd := blocks[|blocks| - 1];
      CorruptIn(digest, read, c, ec, blocks[..|blocks| - 1]) +
        Requests(digest, read, RequestFor(c, ec, bd), bd, |bd.chunks|)
  }

  lemma {:induction false} CleanJoin(digest: Digest, read: Reader, a: seq<BlockData>, b: seq<BlockData>)
    ensures CleanIn(digest, read, a + b) == CleanIn(digest, read, a) + CleanIn(digest, read, b)
  {
    if b == [] {
      assert a + b == a;
    } else {
      hide CleanChunks;
      CleanJoin(digest, read, a, b[..|b| - 1]);
      assert (a + b)[..|a + b| - 1] == a + b[..|b| - 1];
    }
  }

  lemma CorruptNone(digest: Digest, read: Reader, c: ContainerInfo, ec: Profile)
    ensures CorruptIn(digest, read, c, ec, []) == []
  {}

  lemma CorruptSnoc(digest: Digest, read: Reader, c: ContainerInfo, ec: Profile, a: seq<BlockData>, bd: BlockData)
    ensures CorruptIn(digest, read, c, ec, a + [bd]) ==
      CorruptIn(digest, read, c, ec, a) + Requests(digest, read, RequestFor(c, ec, bd), bd, |bd.chunks|)
  {
    hide Requests, RequestFor;
    assert (a + [bd])[..|a|] == a;
  }

  lemma RequestsRegroup(a: seq<RepairRequest>, b: seq<RepairRequest>, c: seq<RepairRequest>)
    ensures a + (b + c) == a + b + c
  {}

  lemma {:induction false} CorruptJoin(digest: Digest, read: Reader, c: ContainerInfo, ec: Profile,
      a: seq<BlockData>, b: seq<BlockData>)
    ensures CorruptIn(digest, read, c, ec, a + b) == CorruptIn(digest, read, c, ec, a) +
      CorruptIn(digest, read, c, ec, b)
  {
    hide *;
    if b == [] {
      CorruptNone(digest, read, c, ec);
      assert a + b == a;
    } else {
      var init, last := b[..|b| - 1], b[|b| - 1];
      CorruptJoin(digest, read, c, ec, a, init);
      CorruptSnoc(digest, read, c, ec, init, last);
      CorruptSnoc(digest, read, c, ec, a + init, last);
      assert b == init + [last];
      Regroup(a, init, [last]);
      RequestsRegroup(CorruptIn(digest, read, c, ec, a), CorruptIn(digest, read, c, ec, init),
        Requests(digest, read, RequestFor(c, ec, last), last, |last.chunks|));
    }
  }

  lemma {:induction false} RequestsAre(digest: Digest, read: Reader, req: RepairRequest, bd: BlockData, n: nat)
    requires n <= |bd.chunks|
    ensures forall q :: q in Requests(digest, read, req, bd, n) <==>
      q == req && exists j :: 0 <= j < n && ChunkCorrupt(digest, read, bd.id, bd.chunks[j])
  {
    if n > 0 { RequestsAre(digest, read, req, bd, n - 1); }
    hide ChunkCorrupt;
  }

  /** The positions of the clean chunks among the first n. */
  ghost function CleanOnes(digest: Digest, read: Reader, bd: BlockData, n: nat): set<nat>
    requires n <= |bd.chunks|
  {
    set j: nat | j < n && ChunkClean(digest, read, bd.id, bd.chunks[j])
  }

  ghost function CorruptOnes(digest: Digest, read: Reader, bd: BlockData, n: nat): set<nat>
    requires n <= |bd.chunks|
  {
    set j: nat | j < n && ChunkCorrupt(digest, read, bd.id, bd.chunks[j])
  }

  lemma OneMore(s: set<nat>, n: nat, more: bool)
    requires n !in s
    ensures |s + if more then {n} else {}| == |s| + if more then 1 else 0
  {}

  lemma {:induction false} CleanCountIs(digest: Digest, read: Reader, bd: BlockData, n: nat)
    requires n <= |bd.chunks|
    ensures CleanChunks(digest, read, bd, n) == |CleanOnes(digest, read, bd, n)|
  {
    hide ChunkClean;
    if n > 0 {
      CleanCountIs(digest, read, bd, n - 1);
      var was, more := CleanOnes(digest, read, bd, n - 1), ChunkClean(digest, read, bd.id, bd.chunks[n - 1]);
      assert CleanOnes(digest, read, bd, n) == was + if more then {n - 1} else {};
      OneMore(was, n - 1, more);
    }
  }

  lemma {:induction false} CorruptCountIs(digest: Digest, read: Reader, req: RepairRequest, bd: BlockData, n: nat)
    requires n <= |bd.chunks|
    ensures |Requests(digest, read, req, bd, n)| == |CorruptOnes(digest, read, bd, n)|
  {
    hide ChunkCorrupt;
    if n > 0 {
      CorruptCountIs(digest, read, req, bd, n - 1);
      var was, more := CorruptOnes(digest, read, bd, n - 1), ChunkCorrupt(digest, read, bd.id, bd.chunks[n - 1]);
      assert CorruptOnes(digest, read, bd, n) == was + if more then {n - 1} else {};
      OneMore(was, n - 1, more);
    }
  }

  lemma RequestsDescribe(digest: Digest, read: Reader, c: ContainerInfo, ec: Profile, bd: BlockData)
    ensures forall q :: q in Requests(digest, read, RequestFor(c, ec, bd), bd, |bd.chunks|) ==>
      Describes(q, c.id, ec, bd)
  {
    RequestsAre(digest, read, RequestFor(c, ec, bd), bd, |bd.chunks|);
    RequestIs(c, ec, bd, RequestFor(c, ec, bd));
    hide Requests, RequestFor, Describes, ChunkCorrupt;
  }

  /** Under an ideal digest, a shard stored with its own record is corrupt if and only if its file is gone or no longer
      holds the bytes the record was made for. */
  lemma CorruptIsDamaged(digest: Digest, read: Reader, p: Profile, id: BlockId, len: nat, shard: seq<byte>)
    requires Ideal(digest)
    ensures var bd := RecordFor(digest, p, id, len, shard);
      && |bd.chunks| == 1
      && var got := read(id, bd.chunks[0]);
         BlockCorrupt(digest, read, bd) <==> got.Missing? || (got.Bytes? && got.bytes != shard)
  {
    var bd := RecordFor(digest, p, id, len, shard);
    var chunk := bd.chunks[0];
    assert bd.chunks == [chunk];
    if read(id, chunk).Bytes? {
      VerifyIsEquality(digest, shard, read(id, chunk).bytes, p.chunkSize);
    }
    hide VerifyOutcome, Compute;
    assert BlockCorrupt(digest, read, bd) <==> ChunkCorrupt(digest, read, bd.id, bd.chunks[0]);
  }

  /** As a set, the requests are those of the corrupt blocks. */
  lemma {:induction false} CorruptIsFound(digest: Digest, read: Reader, c: ContainerInfo,
      ec: Profile, blocks: seq<BlockData>)
    ensures forall q :: q in CorruptIn(digest, read, c, ec, blocks) <==> Finds(digest, read, c, ec, blocks, q)
  {
    if blocks != [] {
      var n := |blocks| - 1;
      var bd := blocks[n];
      CorruptIsFound(digest, read, c, ec, blocks[..n]);
      RequestsAre(digest, read, RequestFor(c, ec, bd), bd, |bd.chunks|);
      hide RequestFor, ChunkCorrupt, Requests, Describes;
      forall q ensures q in Requests(digest, read, RequestFor(c, ec, bd), bd, |bd.chunks|) <==>
        BlockCorrupt(digest, read, bd) && Describes(q, c.id, ec, bd) {
        RequestIs(c, ec, bd, q);
      }
      hide BlockCorrupt;
      FindsSnoc(digest, read, c, ec, blocks, n);
      assert blocks[..n + 1] == blocks;
    }
  }

  lemma FindsSnoc(digest: Digest, read: Reader, c: ContainerInfo, ec: Profile, blocks: seq<BlockData>, i: nat)
    requires i < |blocks|
    ensures forall q :: Finds(digest, read, c, ec, blocks[..i + 1], q) <==>
      Finds(digest, read, c, ec, blocks[..i],
        q) || (BlockCorrupt(digest, read, blocks[i]) && Describes(q, c.id, ec, blocks[i]))
  {
    hide BlockCorrupt, Describes;
    var a, b := blocks[..i], blocks[..i + 1];
    forall q ensures Finds(digest, read, c, ec, b, q) <==>
      Finds(digest, read, c, ec, a, q) || (BlockCorrupt(digest, read, blocks[i]) && Describes(q, c.id, ec, blocks[i])) {
      if Finds(digest, read, c, ec, b, q) {
        var j :| 0 <= j < |b| && BlockCorrupt(digest, read, b[j]) && Describes(q, c.id, ec, b[j]);
        assert j < i ==> a[j] == b[j];
      }
      if Finds(digest, read, c, ec, a, q) {
        var j :| 0 <= j < |a| && BlockCorrupt(digest, read, a[j]) && Describes(q, c.id, ec, a[j]);
        assert b[j] == a[j];
      }
      assert b[i] == blocks[i];
    }
  }

  // ---- the loops ----

  /** Check every chunk of one block. */
  method ScrubBlock(digest: Digest, read: Reader, c: ContainerInfo, ec: Profile, bd: BlockData, before: ScrubReport)
    returns (r: Result<ScrubReport, StorageError>)
    ensures r.Err? <==> BlockBroken(read, bd)
    ensures r.Ok? ==> r.value.clean == before.clean + CleanChunks(digest, read, bd, |bd.chunks|)
    ensures r.Ok? ==> r.value.corrupt == before.corrupt + Requests(digest, read, RequestFor(c, ec, bd), bd, |bd.chunks|)
    ensures r.Ok? ==> r.value.clean == before.clean + |CleanOnes(digest, read, bd, |bd.chunks|)|
    ensures r.Ok? ==> |r.value.corrupt| == |before.corrupt| + |CorruptOnes(digest, read, bd, |bd.chunks|)|
    ensures r.Ok? ==> before.corrupt <= r.value.corrupt
    ensures r.Ok? ==> forall q :: q in r.value.corrupt[|before.corrupt|..] ==> Describes(q, c.id, ec, bd)
  {
    hide CleanOnes, CorruptOnes, Describes;
    CleanCountIs(digest, read, bd, |bd.chunks|);
    CorruptCountIs(digest, read, RequestFor(c, ec, bd), bd, |bd.chunks|);
    RequestsDescribe(digest, read, c, ec, bd);
    var report := before;
    for j := 0 to |bd.chunks|
      invariant forall i :: 0 <= i < j ==> !(bd.chunks[i].checksum.Some? && read(bd.id, bd.chunks[i]).Broken?)
      invariant report.clean == before.clean + CleanChunks(digest, read, bd, j)
      invariant report.corrupt == before.corrupt + Requests(digest, read, RequestFor(c, ec, bd), bd, j)
    {
      var chunk := bd.chunks[j];
      if chunk.checksum.None? {
        continue;
      }
      var corrupt;
      match read(bd.id, chunk) {
        case Bytes(bytes) =>
          var v := Verify(digest, bytes, chunk.checksum.value);
          corrupt := v.Err?;
        case Missing => corrupt := true;
        case Broken => return Err(IoFailure);
      }
      if corrupt {
        report := report.(corrupt := report.corrupt + [RequestFor(c, ec, bd)]);
      } else {
        report := report.(clean := report.clean + 1);
      }
    }
    return Ok(report);
  }

  /** Check every block of one page. */
  method ScrubPage(digest: Digest, read: Reader, c: ContainerInfo, ec: Profile,
      blocks: seq<BlockData>, before: ScrubReport)
    returns (r: Result<ScrubReport, StorageError>)
    ensures r.Err? <==> exists i :: 0 <= i < |blocks| && BlockBroken(read, blocks[i])
    ensures r.Ok? ==> r.value.clean == before.clean + CleanIn(digest, read, blocks)
    ensures r.Ok? ==> r.value.corrupt == before.corrupt + CorruptIn(digest, read, c, ec, blocks)
  {
    hide BlockBroken, RequestFor, CleanChunks, Requests;
    var report := before;
    for i := 0 to |blocks|
      invariant forall j :: 0 <= j < i ==> !BlockBroken(read, blocks[j])
      invariant report.clean == before.clean + CleanIn(digest, read, blocks[..i])
      invariant report.corrupt == before.corrupt + CorruptIn(digest, read, c, ec, blocks[..i])
    {
      var s := ScrubBlock(digest, read, c, ec, blocks[i], report);
      if s.Err? {
        return s;
      }
      assert blocks[..i + 1][..i] == blocks[..i];
      report := s.value;
    }
    assert blocks[..|blocks|] == blocks;
    return Ok(report);
  }

  lemma PageShape(scan: seq<BlockData>, start: nat)
    requires Ordered(scan)
    ensures var page, from := Page(scan, start, 256), From(scan, start);
      && from + |page.blocks| <= |scan| && page.blocks == scan[from..from + |page.blocks|]
      && (page.next.None? ==> from + |page.blocks| == |scan|)
      && (page.next.Some? ==> |page.blocks| == 256 && from < From(scan, page.next.value) <= from + 256)
  {
    hide Ordered, From;
    if Page(scan, start, 256).next.Some? { FullPageAdvances(scan, start); }
  }

  /** The blocks a pass over the container reads from the start id on, page after page. */
  ghost function Visited(scan: seq<BlockData>, start: nat): seq<BlockData>
    requires Ordered(scan)
    decreases |scan| - From(scan, start)
  {
    PageShape(scan, start);
    var page := Page(scan, start, 256);
    page.blocks + if page.next.None? then [] else Visited(scan, page.next.value)
  }

  /** The blocks it reads a second time: those of a local id that the page before broke off in. */
  ghost function Reread(scan: seq<BlockData>, start: nat): seq<BlockData>
    requires Ordered(scan)
    decreases |scan| - From(scan, start)
  {
    PageShape(scan, start);
    var next := Page(scan, start, 256).next;
    if next.None? then [] else scan[From(scan, next.value)..From(scan, start) + 256] + Reread(scan, next.value)
  }

  /** None of the first n blocks is broken. */
  ghost predicate Unbroken(read: Reader, scan: seq<BlockData>, n: nat) {
    n <= |scan| && forall j :: 0 <= j < n ==> !BlockBroken(read, scan[j])
  }

  lemma UnbrokenMeans(read: Reader, scan: seq<BlockData>)
    ensures Unbroken(read, scan, 0)
    ensures Unbroken(read, scan, |scan|) <==> !exists i :: 0 <= i < |scan| && BlockBroken(read, scan[i])
  {
    hide BlockBroken;
  }

  lemma PageBroken(read: Reader, scan: seq<BlockData>, from: nat, blocks: seq<BlockData>)
    requires from + |blocks| <= |scan| && blocks == scan[from..from + |blocks|]
    requires exists i :: 0 <= i < |blocks| && BlockBroken(read, blocks[i])
    ensures exists i :: 0 <= i < |scan| && BlockBroken(read, scan[i])
  {
    hide BlockBroken;
    var i :| 0 <= i < |blocks| && BlockBroken(read, blocks[i]);
    assert scan[from + i] == blocks[i];
  }

  lemma PageUnbroken(read: Reader, scan: seq<BlockData>, done: nat, from: nat, blocks: seq<BlockData>)
    requires from <= done && from + |blocks| <= |scan| && blocks == scan[from..from + |blocks|]
    requires Unbroken(read, scan, done) && forall i :: 0 <= i < |blocks| ==> !BlockBroken(read, blocks[i])
    ensures Unbroken(read, scan, if done < from + |blocks| then from + |blocks| else done)
  {
    hide BlockBroken;
    forall j | done <= j < from + |blocks| ensures !BlockBroken(read, scan[j]) {
      assert scan[j] == blocks[j - from];
    }
  }

  /** Page through one container's blocks. */
  method ScrubPages(digest: Digest, read: Reader, c: ContainerInfo, ec: Profile,
      scan: seq<BlockData>, before: ScrubReport)
    returns (r: Result<ScrubReport, StorageError>)
    requires Ordered(scan)
    ensures r.Err? <==> !Unbroken(read, scan, |scan|)
    ensures r.Ok? ==> r.value.clean == before.clean + CleanIn(digest, read, Visited(scan, 0))
    ensures r.Ok? ==> r.value.corrupt == before.corrupt + CorruptIn(digest, read, c, ec, Visited(scan, 0))
  {
    hide BlockBroken, Ordered, Page, From, CleanIn, CorruptIn, Visited, Reread, Unbroken, IsPage;
    var report, start := before, 0;
    UnbrokenMeans(read, scan);
    FromZero(scan);
    ghost var done, seen := 0, [];
    NoneYet(digest, read, c, ec);
    assert [] + Visited(scan, 0) == Visited(scan, 0);
    while true
      invariant From(scan, start) <= done <= |scan| && Unbroken(read, scan, done)
      invariant Visited(scan, 0) == seen + Visited(scan, start)
      invariant report.clean == before.clean + CleanIn(digest, read, seen)
      invariant report.corrupt == before.corrupt + CorruptIn(digest, read, c, ec, seen)
      decreases |scan| - From(scan, start)
    {
      var page := ListBlocks(scan, start, 256);
      ghost var from := From(scan, start);
      ghost var to := from + |page.blocks|;
      PageShape(scan, start);
      PageSplits(scan, start);
      var s := ScrubPage(digest, read, c, ec, page.blocks, report);
      if s.Err? {
        PageBroken(read, scan, from, page.blocks);
        return s;
      }
      report := s.value;
      PageUnbroken(read, scan, done, from, page.blocks);
      Regroup(seen, page.blocks, if page.next.Some? then Visited(scan, page.next.value) else []);
      CleanJoin(digest, read, seen, page.blocks);
      CorruptJoin(digest, read, c, ec, seen, page.blocks);
      done, seen := if done < to then to else done, seen + page.blocks;
      if page.next.None? {
        assert page.blocks == scan[from..];
        return Ok(report);
      }
      start := page.next.value;
    }
  }

  /** One container: its tally, its requests in order, and its requests as a set. */
  method ScrubContainer(digest: Digest, read: Reader, c: ContainerInfo, ec: Profile,
      scan: seq<BlockData>, before: ScrubReport)
    returns (r: Result<ScrubReport, StorageError>)
    requires Ordered(scan)
    ensures r.Err? <==> exists i :: 0 <= i < |scan| && BlockBroken(read, scan[i])
    ensures r.Ok? ==> r.value.clean == before.clean + CleanIn(digest, read, Visited(scan, 0))
    ensures r.Ok? ==> r.value.corrupt == before.corrupt + CorruptIn(digest, read, c, ec, Visited(scan, 0))
    ensures r.Ok? ==> forall q :: q in r.value.corrupt <==> q in before.corrupt || Finds(digest, read, c, ec, scan, q)
  {
    hide BlockBroken, Ordered, Finds, CleanIn, CorruptIn, Visited, Unbroken;
    UnbrokenMeans(read, scan);
    PassFinds(digest, read, c, ec, scan);
    r := ScrubPages(digest, read, c, ec, scan, before);
  }

  lemma Regroup(a: seq<BlockData>, b: seq<BlockData>, c: seq<BlockData>)
    ensures a + (b + c) == a + b + c
  {}

  lemma NoneYet(digest: Digest, read: Reader, c: ContainerInfo, ec: Profile)
    ensures CleanIn(digest, read, []) == 0 && CorruptIn(digest, read, c, ec, []) == []
  {}

  lemma FromZero(scan: seq<BlockData>)
    ensures From(scan, 0) == 0
  {}

  // ---- what a pass counts ----

  /** A pass over a container reads each of its blocks, and no other. */
  lemma {:induction false} VisitedIsScan(scan: seq<BlockData>, start: nat)
    requires Ordered(scan)
    ensures forall bd :: bd in Visited(scan, start) <==> bd in scan[From(scan, start)..]
    decreases |scan| - From(scan, start)
  {
    PageSplits(scan, start);
    var page, f := Page(scan, start, 256), From(scan, start);
    hide Page, From, Ordered, Visited, Reread;
    if page.next.Some? {
      VisitedIsScan(scan, page.next.value);
      Overlap(scan, f, From(scan, page.next.value), f + 256);
    }
  }

  lemma Overlap(scan: seq<BlockData>, f: nat, g: nat, e: nat)
    requires f <= g <= e <= |scan|
    ensures forall bd :: bd in scan[f..] <==> bd in scan[f..e] || bd in scan[g..]
  {
    assert scan[f..] == scan[f..g] + scan[g..] && scan[f..e] == scan[f..g] + scan[g..e]
      && scan[g..] == scan[g..e] + scan[e..];
  }

  /** So its requests, as a set, are those of the container's corrupt blocks. */
  lemma PassFinds(digest: Digest, read: Reader, c: ContainerInfo, ec: Profile, scan: seq<BlockData>)
    requires Ordered(scan)
    ensures forall q :: q in CorruptIn(digest, read, c, ec, Visited(scan, 0)) <==> Finds(digest, read, c, ec, scan, q)
  {
    hide Ordered, Visited, CorruptIn, Finds;
    FromZero(scan);
    assert scan[0..] == scan;
    VisitedIsScan(scan, 0);
    CorruptIsFound(digest, read, c, ec, Visited(scan, 0));
    SameFindings(digest, read, c, ec, Visited(scan, 0), scan);
  }

  lemma SameFindings(digest: Digest, read: Reader, c: ContainerInfo, ec: Profile, a: seq<BlockData>, b: seq<BlockData>)
    requires forall bd :: bd in a <==> bd in b
    ensures forall q :: Finds(digest, read, c, ec, a, q) <==> Finds(digest, read, c, ec, b, q)
  {
    hide BlockCorrupt, Describes;
    forall q ensures Finds(digest, read, c, ec, a, q) <==> Finds(digest, read, c, ec, b, q) {
      if Finds(digest, read, c, ec, a, q) {
        var i :| 0 <= i < |a| && BlockCorrupt(digest, read, a[i]) && Describes(q, c.id, ec, a[i]);
        assert a[i] in b;
      }
      if Finds(digest, read, c, ec, b, q) {
        var i :| 0 <= i < |b| && BlockCorrupt(digest, read, b[i]) && Describes(q, c.id, ec, b[i]);
        assert b[i] in a;
      }
    }
  }

  lemma SliceSplits(scan: seq<BlockData>, f: nat, g: nat, e: nat)
    requires f <= g <= e <= |scan|
    ensures scan[f..] == scan[f..e] + scan[e..] && scan[g..] == scan[g..e] + scan[e..]
  {}

  /** A page from f to f + 256 whose cursor goes back to g: what a pass reads, and reads twice, from f and from g on. */
  ghost predicate Turn(scan: seq<BlockData>, f: nat, g: nat, seen: seq<BlockData>, twice: seq<BlockData>,
      nextSeen: seq<BlockData>, nextTwice: seq<BlockData>)
  {
    && f < g <= f + 256 <= |scan| && seen == scan[f..f + 256] + nextSeen && twice == scan[g..f + 256] + nextTwice
  }

  /** How a pass and what it reads twice go on after one page. */
  lemma PageSplits(scan: seq<BlockData>, start: nat)
    requires Ordered(scan)
    ensures var page, f := Page(scan, start, 256), From(scan, start);
            && (page.next.None? ==> Visited(scan, start) == scan[f..] && Reread(scan, start) == [])
            && (page.next.Some? ==>
                var next := page.next.value;
                && f < From(scan, next)
                && Turn(scan, f, From(scan, next), Visited(scan, start), Reread(scan, start), Visited(scan, next),
                     Reread(scan, next)))
  {
    PageShape(scan, start);
    hide Ordered, From, Page;
    var page, f := Page(scan, start, 256), From(scan, start);
    if page.next.None? {
      assert page.blocks + [] == page.blocks == scan[f..];
    }
  }

  lemma CleanTurn(digest: Digest, read: Reader, scan: seq<BlockData>, f: nat, g: nat, seen: seq<BlockData>,
      twice: seq<BlockData>, nextSeen: seq<BlockData>, nextTwice: seq<BlockData>)
    requires Turn(scan, f, g, seen, twice, nextSeen, nextTwice)
    requires CleanIn(digest, read, nextSeen) ==
      CleanIn(digest, read, scan[g..]) + CleanIn(digest, read, nextTwice)
    ensures CleanIn(digest, read, seen) == CleanIn(digest, read, scan[f..]) + CleanIn(digest, read, twice)
  {
    hide CleanIn;
    var e := f + 256;
    SliceSplits(scan, f, g, e);
    CleanJoin(digest, read, scan[f..e], nextSeen);
    CleanJoin(digest, read, scan[f..e], scan[e..]);
    CleanJoin(digest, read, scan[g..e], scan[e..]);
    CleanJoin(digest, read, scan[g..e], nextTwice);
  }

  /** The tally is the clean chunks of the container plus those of the blocks read twice. */
  lemma {:induction false} TallySplits(digest: Digest, read: Reader, scan: seq<BlockData>, start: nat)
    requires Ordered(scan)
    ensures CleanIn(digest, read, Visited(scan, start)) ==
      CleanIn(digest, read, scan[From(scan, start)..]) + CleanIn(digest, read, Reread(scan, start))
    decreases |scan| - From(scan, start)
  {
    PageSplits(scan, start);
    assert CleanIn(digest, read, []) == 0;
    hide CleanIn, Ordered, From, Page, Visited, Reread, Turn;
    var page := Page(scan, start, 256);
    if page.next.Some? {
      var next := page.next.value;
      TallySplits(digest, read, scan, next);
      CleanTurn(digest, read, scan, From(scan, start), From(scan, next), Visited(scan, start), Reread(scan, start),
        Visited(scan, next), Reread(scan, next));
    }
  }

  /** The requests of the blocks, with their multiplicities. */
  ghost function RequestBag(digest: Digest, read: Reader, c: ContainerInfo, ec: Profile, blocks: seq<BlockData>):
      multiset<RepairRequest> {
    multiset(CorruptIn(digest, read, c, ec, blocks))
  }

  lemma BagJoin(digest: Digest, read: Reader, c: ContainerInfo, ec: Profile, a: seq<BlockData>, b: seq<BlockData>)
    ensures RequestBag(digest, read, c, ec, a + b) ==
      RequestBag(digest, read, c, ec, a) + RequestBag(digest, read, c, ec, b)
  {
    hide CorruptIn;
    CorruptJoin(digest, read, c, ec, a, b);
  }

  lemma BagTurn(digest: Digest, read: Reader, c: ContainerInfo, ec: Profile, scan: seq<BlockData>, f: nat, g: nat,
      seen: seq<BlockData>, twice: seq<BlockData>, nextSeen: seq<BlockData>, nextTwice: seq<BlockData>)
    requires Turn(scan, f, g, seen, twice, nextSeen, nextTwice)
    requires RequestBag(digest, read, c, ec, nextSeen) ==
      RequestBag(digest, read, c, ec, scan[g..]) + RequestBag(digest, read, c, ec, nextTwice)
    ensures RequestBag(digest, read, c, ec, seen) ==
      RequestBag(digest, read, c, ec, scan[f..]) + RequestBag(digest, read, c, ec, twice)
  {
    hide RequestBag;
    var e := f + 256;
    SliceSplits(scan, f, g, e);
    BagJoin(digest, read, c, ec, scan[f..e], nextSeen);
    BagJoin(digest, read, c, ec, scan[f..e], scan[e..]);
    BagJoin(digest, read, c, ec, scan[g..e], scan[e..]);
    BagJoin(digest, read, c, ec, scan[g..e], nextTwice);
  }

  /** So it is with the requests. */
  lemma {:induction false} RequestsSplit(digest: Digest, read: Reader, c: ContainerInfo, ec: Profile,
      scan: seq<BlockData>, start: nat)
    requires Ordered(scan)
    ensures RequestBag(digest, read, c, ec, Visited(scan, start)) ==
      RequestBag(digest, read, c, ec, scan[From(scan, start)..]) +
      RequestBag(digest, read, c, ec, Reread(scan, start))
    decreases |scan| - From(scan, start)
  {
    PageSplits(scan, start);
    assert RequestBag(digest, read, c, ec, []) == multiset{};
    hide RequestBag, Ordered, From, Page, Visited, Reread, Turn;
    var page := Page(scan, start, 256);
    if page.next.Some? {
      var next := page.next.value;
      RequestsSplit(digest, read, c, ec, scan, next);
      BagTurn(digest, read, c, ec, scan, From(scan, start), From(scan, next), Visited(scan, start),
        Reread(scan, start), Visited(scan, next), Reread(scan, next));
    }
  }

  /** The n-th page break, if there is one, falls between two local ids. */
  predicate CleanBreak(scan: seq<BlockData>, n: nat) {
    n > 0 && 256 * n < |scan| ==> scan[256 * n - 1].id.local < scan[256 * n].id.local
  }

  /** No page ends inside a local id. */
  ghost predicate Aligned(scan: seq<BlockData>, from: nat) {
    forall n :: n > from ==> CleanBreak(scan, n)
  }

  /** Nothing is read twice exactly when every page break falls between two local ids. */
  lemma {:induction false} RereadNothingIff(scan: seq<BlockData>, start: nat, m: nat)
    requires Ordered(scan) && From(scan, start) == 256 * m
    ensures Reread(scan, start) == [] <==> Aligned(scan, m)
    decreases |scan| - From(scan, start)
  {
    PageShape(scan, start);
    var page, f := Page(scan, start, 256), From(scan, start);
    if page.next.Some? {
      var g := From(scan, page.next.value);
      FirstBreak(scan, start, m);
      if g == f + 256 {
        RereadNothingIff(scan, page.next.value, m + 1);
        AlignedStep(scan, m);
      }
      hide From, Ordered, Page;
    }
  }

  lemma AlignedStep(scan: seq<BlockData>, m: nat)
    ensures Aligned(scan, m) <==> CleanBreak(scan, m + 1) && Aligned(scan, m + 1)
  {
    hide CleanBreak;
    forall n | Aligned(scan, m + 1) && CleanBreak(scan, m + 1) && n > m ensures CleanBreak(scan, n) {
      if n == m + 1 {}
    }
  }

  lemma FirstBreak(scan: seq<BlockData>, start: nat, m: nat)
    requires Ordered(scan) && From(scan, start) == 256 * m && Page(scan, start, 256).next.Some?
    ensures From(scan, Page(scan, start, 256).next.value) == 256 * m + 256 <==> CleanBreak(scan, m + 1)
  {
    PageShape(scan, start);
    var f := From(scan, start);
    var next := scan[f + 256].id.local;
    var g := From(scan, next);
    FromIs(scan, next);
    assert Page(scan, start, 256).next == Some(next);
    assert 256 * (m + 1) == f + 256;
    if g < f + 256 {
      assert scan[g].id.local >= next;
      assert scan[f + 255].id.local >= next by { if g < f + 255 { assert scan[g].id.local <= scan[f + 255].id.local; } }
    } else {
      assert scan[f + 255].id.local < next;
    }
  }

  /** Every block has something clean to count. */
  ghost predicate SomeClean(digest: Digest, read: Reader, blocks: seq<BlockData>) {
    forall i :: 0 <= i < |blocks| ==> CleanChunks(digest, read, blocks[i], |blocks[i].chunks|) > 0
  }

  lemma {:induction false} CleanCounts(digest: Digest, read: Reader, blocks: seq<BlockData>)
    requires SomeClean(digest, read, blocks)
    ensures CleanIn(digest, read, blocks) >= |blocks|
  {
    if blocks != [] {
      hide CleanChunks;
      CleanCounts(digest, read, blocks[..|blocks| - 1]);
    }
  }

  /** What is read twice belongs to the container. */
  lemma {:induction false} RereadIsScan(scan: seq<BlockData>, start: nat)
    requires Ordered(scan)
    ensures forall bd :: bd in Reread(scan, start) ==> bd in scan
    decreases |scan| - From(scan, start)
  {
    hide Ordered, From, Page;
    PageShape(scan, start);
    var page := Page(scan, start, 256);
    if page.next.Some? {
      RereadIsScan(scan, page.next.value);
    }
  }

  lemma RereadSomeClean(digest: Digest, read: Reader, scan: seq<BlockData>)
    requires Ordered(scan) && SomeClean(digest, read, scan)
    ensures CleanIn(digest, read, Reread(scan, 0)) >= |Reread(scan, 0)|
  {
    hide CleanChunks, Ordered, Reread, CleanIn;
    RereadIsScan(scan, 0);
    var twice := Reread(scan, 0);
    forall i | 0 <= i < |twice| ensures CleanChunks(digest, read, twice[i], |twice[i].chunks|) > 0 {
      assert twice[i] in scan;
    }
    CleanCounts(digest, read, twice);
  }

  /** No chunk of these blocks is clean. */
  ghost predicate NoneClean(digest: Digest, read: Reader, blocks: seq<BlockData>) {
    forall i :: 0 <= i < |blocks| ==> CleanChunks(digest, read, blocks[i], |blocks[i].chunks|) == 0
  }

  lemma {:induction false} NoCleanIff(digest: Digest, read: Reader, blocks: seq<BlockData>)
    ensures CleanIn(digest, read, blocks) == 0 <==> NoneClean(digest, read, blocks)
  {
    if blocks != [] {
      hide CleanChunks;
      NoCleanIff(digest, read, blocks[..|blocks| - 1]);
    }
  }

  /** A pass counts every clean chunk, and each exactly once if and only if no block it reads twice has one. So it is
      when no page ends inside a local id, and only then if every block has a clean chunk. */
  lemma CleanIsExactIff(digest: Digest, read: Reader, scan: seq<BlockData>)
    requires Ordered(scan)
    ensures CleanIn(digest, read, Visited(scan, 0)) >= CleanIn(digest, read, scan)
    ensures CleanIn(digest, read, Visited(scan, 0)) == CleanIn(digest, read, scan) <==>
      NoneClean(digest, read, Reread(scan, 0))
    ensures Aligned(scan, 0) ==> NoneClean(digest, read, Reread(scan, 0))
    ensures NoneClean(digest, read, Reread(scan, 0)) && SomeClean(digest, read, scan) ==> Aligned(scan, 0)
  {
    hide CleanIn, Ordered, Aligned, Visited, Reread, CleanChunks;
    FromZero(scan);
    assert scan[0..] == scan;
    TallySplits(digest, read, scan, 0);
    NoCleanIff(digest, read, Reread(scan, 0));
    RereadNothingIff(scan, 0, 0);
    if SomeClean(digest, read, scan) {
      RereadSomeClean(digest, read, scan);
    }
  }

  ghost predicate NoneCorrupt(digest: Digest, read: Reader, blocks: seq<BlockData>) {
    forall i :: 0 <= i < |blocks| ==> !BlockCorrupt(digest, read, blocks[i])
  }

  lemma NoRequestIff(digest: Digest, read: Reader, c: ContainerInfo, ec: Profile, blocks: seq<BlockData>)
    ensures RequestBag(digest, read, c, ec, blocks) == multiset{} <==> NoneCorrupt(digest, read, blocks)
  {
    hide BlockCorrupt, RequestFor, CorruptIn, Describes;
    CorruptIsFound(digest, read, c, ec, blocks);
    var found := CorruptIn(digest, read, c, ec, blocks);
    BagSize(digest, read, c, ec, blocks);
    hide RequestBag;
    if found != [] {
      assert found[0] in found;
      assert Finds(digest, read, c, ec, blocks, found[0]);
    }
    forall i | 0 <= i < |blocks| && BlockCorrupt(digest, read, blocks[i]) ensures found != [] {
      RequestIs(c, ec, blocks[i], RequestFor(c, ec, blocks[i]));
      assert Finds(digest, read, c, ec, blocks, RequestFor(c, ec, blocks[i]));
    }
  }

  /** The requests come once each if and only if no block read twice is corrupt. So they do when no page ends inside a
      local id, and only then if every block is corrupt. */
  lemma RequestsAreExactIff(digest: Digest, read: Reader, c: ContainerInfo, ec: Profile, scan: seq<BlockData>)
    requires Ordered(scan)
    ensures RequestBag(digest, read, c, ec, Visited(scan, 0)) == RequestBag(digest, read, c, ec, scan) <==>
      NoneCorrupt(digest, read, Reread(scan, 0))
    ensures Aligned(scan, 0) ==> NoneCorrupt(digest, read, Reread(scan, 0))
    ensures NoneCorrupt(digest, read, Reread(scan, 0)) && AllCorrupt(digest, read, scan) ==> Aligned(scan, 0)
  {
    hide RequestBag, Ordered, Aligned, Visited, Reread, BlockCorrupt;
    FromZero(scan);
    assert scan[0..] == scan;
    RequestsSplit(digest, read, c, ec, scan, 0);
    NoRequestIff(digest, read, c, ec, Reread(scan, 0));
    BagGrows(RequestBag(digest, read, c, ec, scan), RequestBag(digest, read, c, ec, Reread(scan, 0)));
    RereadNothingIff(scan, 0, 0);
    if AllCorrupt(digest, read, scan) && Reread(scan, 0) != [] {
      RereadIsScan(scan, 0);
      assert Reread(scan, 0)[0] in scan;
    }
  }

  lemma BagGrows(a: multiset<RepairRequest>, b: multiset<RepairRequest>)
    ensures a + b == a <==> b == multiset{}
  {
    if a + b == a {
      forall q ensures b[q] == 0 {
        assert (a + b)[q] == a[q] + b[q];
      }
    }
  }

  ghost predicate AllCorrupt(digest: Digest, read: Reader, blocks: seq<BlockData>) {
    forall i :: 0 <= i < |blocks| ==> BlockCorrupt(digest, read, blocks[i])
  }

  lemma BagSize(digest: Digest, read: Reader, c: ContainerInfo, ec: Profile, blocks: seq<BlockData>)
    ensures |RequestBag(digest, read, c, ec, blocks)| == |CorruptIn(digest, read, c, ec, blocks)|
  {}

  /** 257 one-chunk blocks whose last two share a local id. */
  function Straddling(): (scan: seq<BlockData>)
    ensures |scan| == 257
  {
    seq(257, i requires 0 <= i < 257 =>
      var id := if i < 256 then BlockId(1, i, 1) else BlockId(1, 255, 2);
      BlockData(id, [ChunkInfo("0", 1, Some(ChecksumData(NoChecksum, 0, [])))], Some(1)))
  }

  lemma StraddlingShape()
    ensures var scan := Straddling();
            && Ordered(scan) && !CleanBreak(scan, 1)
            && forall i :: 0 <= i < |scan| ==>
              |scan[i].chunks| == 1 && scan[i].chunks[0].checksum == Some(ChecksumData(NoChecksum, 0, []))
  {
    var scan := Straddling();
    assert scan[255].id.local == scan[256].id.local;
  }

  /** The scrub counts a clean chunk of that container twice, and reports a missing one twice. */
  lemma CountedTwice(digest: Digest, c: ContainerInfo, ec: Profile)
    ensures Ordered(Straddling())
    ensures CleanIn(digest, (id, chunk) => Bytes([0]), Visited(Straddling(), 0)) > CleanIn(digest,
      (id, chunk) => Bytes([0]), Straddling())
    ensures |CorruptIn(digest, (id, chunk) => Missing, c, ec, Visited(Straddling(), 0))| > |CorruptIn(digest,
      (id, chunk) => Missing, c, ec, Straddling())|
  {
    StraddlingShape();
    var good: Reader := (id, chunk) => Bytes([0]);
    var gone: Reader := (id, chunk) => Missing;
    hide Straddling;
    BreakIsReread(Straddling());
    StraddlingCounts(digest, good, gone);
    hide CleanIn, CorruptIn, Visited, Reread, Ordered, SomeClean, BlockCorrupt;
    RereadSomeClean(digest, good, Straddling());
    CleanIsExactIff(digest, good, Straddling());
    RereadCorrupt(digest, gone, c, ec, Straddling());
  }

  lemma BreakIsReread(scan: seq<BlockData>)
    requires Ordered(scan) && !CleanBreak(scan, 1)
    ensures Reread(scan, 0) != []
  {
    hide Ordered, CleanBreak, Reread;
    FromZero(scan);
    RereadNothingIff(scan, 0, 0);
  }

  lemma StraddlingCounts(digest: Digest, good: Reader, gone: Reader)
    requires (forall id, chunk :: good(id, chunk) == Bytes([0])) && (forall id, chunk :: gone(id, chunk) == Missing)
    ensures SomeClean(digest, good, Straddling())
    ensures forall i :: 0 <= i < |Straddling()| ==> BlockCorrupt(digest, gone, Straddling()[i])
  {
    StraddlingShape();
    hide Straddling, Ordered;
    var scan := Straddling();
    forall i | 0 <= i < |scan|
      ensures CleanChunks(digest, good, scan[i], |scan[i].chunks|) > 0
      ensures BlockCorrupt(digest, gone, scan[i])
    {
      assert ChunkClean(digest, good, scan[i].id, scan[i].chunks[0]);
      assert ChunkCorrupt(digest, gone, scan[i].id, scan[i].chunks[0]);
    }
  }

  /** With every block corrupt, whatever is read twice is reported twice. */
  lemma RereadCorrupt(digest: Digest, read: Reader, c: ContainerInfo, ec: Profile, scan: seq<BlockData>)
    requires Ordered(scan) && forall i :: 0 <= i < |scan| ==> BlockCorrupt(digest, read, scan[i])
    ensures |CorruptIn(digest, read, c, ec, Visited(scan, 0))| >=
      |CorruptIn(digest, read, c, ec, scan)| + |Reread(scan, 0)|
  {
    BagSize(digest, read, c, ec, Visited(scan, 0));
    BagSize(digest, read, c, ec, scan);
    BagSize(digest, read, c, ec, Reread(scan, 0));
    hide Ordered, Reread, Visited, CorruptIn, BlockCorrupt, RequestBag;
    FromZero(scan);
    assert scan[0..] == scan;
    RequestsSplit(digest, read, c, ec, scan, 0);
    RereadIsScan(scan, 0);
    forall i | 0 <= i < |Reread(scan, 0)| ensures BlockCorrupt(digest, read, Reread(scan, 0)[i]) {
      assert Reread(scan, 0)[i] in scan;
    }
    CorruptCounts(digest, read, c, ec, Reread(scan, 0));
  }

  /** Blocks with a corrupt chunk each give at least one request each. */
  lemma {:induction false} CorruptCounts(digest: Digest, read: Reader, c: ContainerInfo,
      ec: Profile, blocks: seq<BlockData>)
    requires forall i :: 0 <= i < |blocks| ==> BlockCorrupt(digest, read, blocks[i])
    ensures |CorruptIn(digest, read, c, ec, blocks)| >= |blocks|
  {
    if blocks != [] {
      var bd := blocks[|blocks| - 1];
      CorruptCounts(digest, read, c, ec, blocks[..|blocks| - 1]);
      RequestsAre(digest, read, RequestFor(c, ec, bd), bd, |bd.chunks|);
      hide Requests, ChunkCorrupt;
      assert BlockCorrupt(digest, read, bd);
      assert RequestFor(c, ec, bd) in Requests(digest, read, RequestFor(c, ec, bd), bd, |bd.chunks|);
    }
  }

  // ---- a pass over the store ----

  /** The store's containers, ascending by id. */
  ghost predicate Enumerates(m: Meta, containers: seq<ContainerInfo>) {
    && (forall n :: 0 <= n < |containers| ==> Lists(m, containers[n]))
    && (forall i, j :: 0 <= i < j < |containers| ==> containers[i].id < containers[j].id)
    && (forall c :: c in m.containers ==> m.containers[c].info in containers)
  }

  ghost predicate Lists(m: Meta, c: ContainerInfo) {
    c.id in m.containers && m.containers[c.id].info == c
  }

  method ListContainers(m: Meta) returns (containers: seq<ContainerInfo>)
    requires Keyed(m)
    ensures Enumerates(m, containers)
  {
    hide Keyed;
    var todo := m.containers.Keys;
    containers := [];
    while todo != {}
      invariant todo <= m.containers.Keys
      invariant forall n :: 0 <= n < |containers| ==> Lists(m, containers[n])
      invariant forall n, c :: 0 <= n < |containers| && c in todo ==> containers[n].id < c
      invariant forall i, j :: 0 <= i < j < |containers| ==> containers[i].id < containers[j].id
      invariant forall c :: c in m.containers && c !in todo ==> m.containers[c].info in containers
      decreases |todo|
    {
      var c := Least(todo);
      ContainerId(m, c);
      todo := todo - {c};
      containers := containers + [m.containers[c].info];
    }
  }

  /** The scans are those of the containers, in the same order. */
  ghost predicate Scans(m: Meta, containers: seq<ContainerInfo>, scans: seq<seq<BlockData>>) {
    |scans| == |containers| && forall n :: 0 <= n < |scans| ==> IsScan(m, containers[n].id, scans[n])
  }

  /** A block of an erasure-coded container. */
  predicate Coded(m: Meta, id: BlockId) {
    id in m.blocks && id.container in m.containers && m.containers[id.container].info.ec.Some?
  }

  /** The request names block id, its container's profile, and the length its record holds, or 0. */
  predicate AsksFor(m: Meta, id: BlockId, q: RepairRequest)
    requires Coded(m, id)
  {
    && q.container == id.container && q.local == id.local && q.slot == id.slot
    && m.containers[id.container].info.ec == Some(q.ec)
    && q.groupLen == match m.blocks[id].groupLen case Some(len) => len case None => 0
  }

  /** A request belongs to some corrupt block of an erasure-coded container in the store. */
  ghost predicate NeedsRepair(digest: Digest, read: Reader, m: Meta, q: RepairRequest) {
    exists id :: Coded(m, id) && BlockCorrupt(digest, read, m.blocks[id]) && AsksFor(m, id, q)
  }

  ghost predicate HasBroken(read: Reader, m: Meta) {
    exists id :: Coded(m, id) && BlockBroken(read, m.blocks[id])
  }

  /** What the container contributes to the store's requests. */
  ghost predicate ContainerFinds(digest: Digest, read: Reader, c: ContainerInfo,
      scan: seq<BlockData>, q: RepairRequest) {
    c.ec.Some? && Finds(digest, read, c, c.ec.value, scan, q)
  }

  ghost predicate ContainerBroken(read: Reader, c: ContainerInfo, scan: seq<BlockData>) {
    c.ec.Some? && exists i :: 0 <= i < |scan| && BlockBroken(read, scan[i])
  }

  /** A scan finds what the store holds of its container. */
  lemma ScanFinds(digest: Digest, read: Reader, m: Meta, c: ContainerInfo, scan: seq<BlockData>)
    requires Keyed(m) && AllSized(m) && Lists(m, c) && IsScan(m, c.id, scan)
    ensures Ordered(scan)
    ensures forall q :: ContainerFinds(digest, read, c, scan, q) <==> FindsIn(digest, read, m, c, q)
    ensures ContainerBroken(read, c, scan) <==> BrokenIn(read, m, c)
  {
    ScanIsOrdered(m, c.id, scan);
    hide IsScan, Ordered, BlockCorrupt, BlockBroken, Describes, Pow256;
    forall q ensures ContainerFinds(digest, read, c, scan, q) <==> FindsIn(digest, read, m, c, q) {
      if ContainerFinds(digest, read, c, scan, q) {
        var i :| 0 <= i < |scan| && BlockCorrupt(digest, read, scan[i]) && Describes(q, c.id, c.ec.value, scan[i]);
        assert scan[i] in scan;
        assert Coded(m, scan[i].id);
      }
      if FindsIn(digest, read, m, c, q) {
        var id :| Coded(m, id) && id.container == c.id && c.ec.Some? && BlockCorrupt(digest, read, m.blocks[id])
          && Describes(q, c.id, c.ec.value, m.blocks[id]);
        assert m.blocks[id] in scan;
      }
    }
    if ContainerBroken(read, c, scan) {
      var i :| 0 <= i < |scan| && BlockBroken(read, scan[i]);
      assert scan[i] in scan;
      assert Coded(m, scan[i].id);
    }
    if BrokenIn(read, m, c) {
      var id :| Coded(m, id) && id.container == c.id && BlockBroken(read, m.blocks[id]);
      assert m.blocks[id] in scan;
    }
  }

  /** The clean chunks counted over the first n containers. */
  ghost function PassClean(digest: Digest, read: Reader, containers: seq<ContainerInfo>,
      scans: seq<seq<BlockData>>, n: nat): nat
    requires n <= |containers| == |scans| && forall i :: 0 <= i < |scans| ==> Ordered(scans[i])
  {
    if n == 0 then 0
    else PassClean(digest, read, containers, scans, n - 1) + if containers[n - 1].ec.Some?
      then CleanIn(digest, read, Visited(scans[n - 1], 0)) else 0
  }

  /** The clean chunks those containers hold. */
  ghost function HeldClean(digest: Digest, read: Reader, containers: seq<ContainerInfo>,
      scans: seq<seq<BlockData>>, n: nat): nat
    requires n <= |containers| == |scans|
  {
    if n == 0 then 0
    else HeldClean(digest, read, containers, scans, n - 1) + if containers[n - 1].ec.Some?
      then CleanIn(digest, read, scans[n - 1]) else 0
  }

  /** A pass never counts too few, and exactly the right number if and only if no block it reads twice has a clean
      chunk, which is so when no page of any container ends inside a local id. */
  lemma {:induction false} PassIsExactIff(digest: Digest, read: Reader, containers: seq<ContainerInfo>,
      scans: seq<seq<BlockData>>, n: nat)
    requires n <= |containers| == |scans| && forall i :: 0 <= i < |scans| ==> Ordered(scans[i])
    ensures PassClean(digest, read, containers, scans, n) >= HeldClean(digest, read, containers, scans, n)
    ensures PassClean(digest, read, containers, scans, n) == HeldClean(digest, read, containers, scans, n) <==>
      forall i :: 0 <= i < n && containers[i].ec.Some? ==> NoneClean(digest, read, Reread(scans[i], 0))
    ensures forall i :: 0 <= i < n && Aligned(scans[i], 0) ==> NoneClean(digest, read, Reread(scans[i], 0))
  {
    hide Ordered, Aligned, SomeClean, NoneClean, CleanIn, Visited, Reread;
    if n > 0 {
      PassIsExactIff(digest, read, containers, scans, n - 1);
      CleanIsExactIff(digest, read, scans[n - 1]);
    }
  }

  /** One container's share of a pass. */
  method ScrubNext(digest: Digest, read: Reader, m: Meta, c: ContainerInfo, before: ScrubReport)
    returns (r: Result<ScrubReport, StorageError>, ghost scan: seq<BlockData>)
    requires Keyed(m) && AllSized(m) && Lists(m, c)
    ensures IsScan(m, c.id, scan) && Ordered(scan)
    ensures r.Err? <==> ContainerBroken(read, c, scan)
    ensures r.Ok? ==> forall q :: q in r.value.corrupt <==>
      q in before.corrupt || ContainerFinds(digest, read, c, scan, q)
    ensures r.Ok? ==> r.value.clean == before.clean + if c.ec.Some? then CleanIn(digest, read, Visited(scan, 0)) else 0
  {
    hide IsScan, Ordered, BlockBroken, Finds, CleanIn, CorruptIn, Visited, Pow256;
    var blocks := ScanBlocks(m, c.id);
    scan := blocks;
    ScanFinds(digest, read, m, c, scan);
    if c.ec.None? {
      return Ok(before), scan;
    }
    r := ScrubContainer(digest, read, c, c.ec.value, blocks, before);
  }

  /** One full pass over the store: the corrupt set is exact, and the tally is that of the pages read. */
  method ScrubOnce(digest: Digest, read: Reader, m: Meta)
    returns (r: Result<ScrubReport, StorageError>, ghost containers: seq<ContainerInfo>,
      ghost scans: seq<seq<BlockData>>)
    requires Keyed(m) && AllSized(m)
    ensures r.Err? <==> HasBroken(read, m)
    ensures r.Ok? ==> forall q :: q in r.value.corrupt <==> NeedsRepair(digest, read, m, q)
    ensures r.Ok? ==> Enumerates(m, containers) && Scans(m, containers, scans) && forall n :: 0 <= n < |scans| ==>
      Ordered(scans[n])
    ensures r.Ok? ==> r.value.clean == PassClean(digest, read, containers, scans, |containers|)
  {
    hide Keyed, AllSized, IsScan, Ordered, ContainerBroken, ContainerFinds, CleanIn, Visited,
      NeedsRepair, HasBroken, Lists;
    var report := ScrubReport(0, []);
    var listed := ListContainers(m);
    containers, scans := listed, [];
    for n := 0 to |listed|
      invariant |scans| == n
      invariant forall k :: 0 <= k < n ==>
        IsScan(m, containers[k].id, scans[k]) && Ordered(scans[k]) && !ContainerBroken(read, containers[k], scans[k])
      invariant forall q :: q in report.corrupt <==>
        exists k :: 0 <= k < n && ContainerFinds(digest, read, containers[k], scans[k], q)
      invariant report.clean == PassClean(digest, read, containers[..n], scans, n)
    {
      ghost var scan;
      ghost var found, before := scans, report;
      r, scan := ScrubNext(digest, read, m, listed[n], report);
      scans := scans + [scan];
      if r.Err? {
        StoreBroken(read, m, listed[n], scan);
        return;
      }
      report := r.value;
      PassSame(digest, read, containers[..n], found, containers[..n + 1], scans, n);
      FoundMore(digest, read, containers, found, scan, n, before.corrupt, report.corrupt);
    }
    assert containers[..|listed|] == containers;
    StoreIsScanned(digest, read, m, containers, scans);
    return Ok(report), containers, scans;
  }

  lemma {:induction false} PassSame(digest: Digest, read: Reader, cs: seq<ContainerInfo>, ss: seq<seq<BlockData>>,
      ds: seq<ContainerInfo>, ts: seq<seq<BlockData>>, n: nat)
    requires n <= |cs| == |ss| && |cs| <= |ds| == |ts| && ds[..|cs|] == cs && ts[..|cs|] == ss
    requires forall i :: 0 <= i < |ts| ==> Ordered(ts[i])
    requires forall i :: 0 <= i < |ss| ==> Ordered(ss[i])
    ensures PassClean(digest, read, cs, ss, n) == PassClean(digest, read, ds, ts, n)
  {
    hide Ordered, CleanIn, Visited;
    if n > 0 {
      PassSame(digest, read, cs, ss, ds, ts, n - 1);
      assert cs[n - 1] == ds[n - 1] && ss[n - 1] == ts[n - 1];
    }
  }

  lemma FoundMore(digest: Digest, read: Reader, containers: seq<ContainerInfo>, scans: seq<seq<BlockData>>,
      scan: seq<BlockData>, n: nat, before: seq<RepairRequest>, after: seq<RepairRequest>)
    requires |scans| == n < |containers|
    requires forall q :: q in before <==>
      exists k :: 0 <= k < n && ContainerFinds(digest, read, containers[k], scans[k], q)
    requires forall q :: q in after <==> q in before || ContainerFinds(digest, read, containers[n], scan, q)
    ensures forall q :: q in after <==>
      exists k :: 0 <= k < n + 1 && ContainerFinds(digest, read, containers[k], (scans + [scan])[k], q)
  {
    hide ContainerFinds;
    var all := scans + [scan];
    assert all[n] == scan && forall k :: 0 <= k < n ==> all[k] == scans[k];
  }

  lemma StoreBroken(read: Reader, m: Meta, c: ContainerInfo, scan: seq<BlockData>)
    requires Keyed(m) && AllSized(m) && Lists(m, c) && IsScan(m, c.id, scan) && ContainerBroken(read, c, scan)
    ensures HasBroken(read, m)
  {
    hide IsScan, BlockBroken, ContainerBroken, Ordered, FindsIn, ContainerFinds;
    ScanFinds(x => x, read, m, c, scan);
  }

  /** The containers' findings together are the store's. */
  lemma StoreIsScanned(digest: Digest, read: Reader, m: Meta,
      containers: seq<ContainerInfo>, scans: seq<seq<BlockData>>)
    requires Keyed(m) && AllSized(m) && Enumerates(m, containers) && Scans(m, containers, scans)
    requires forall k :: 0 <= k < |scans| ==> !ContainerBroken(read, containers[k], scans[k])
    ensures !HasBroken(read, m)
    ensures forall q :: NeedsRepair(digest, read, m, q) <==>
      exists k :: 0 <= k < |scans| && ContainerFinds(digest, read, containers[k], scans[k], q)
  {
    hide IsScan, ContainerBroken, ContainerFinds, Keyed, AllSized, Ordered, FindsIn, BrokenIn, Lists;
    forall k | 0 <= k < |scans|
      ensures forall q :: ContainerFinds(digest, read, containers[k], scans[k], q) <==>
        FindsIn(digest, read, m, containers[k], q)
      ensures !BrokenIn(read, m, containers[k])
    {
      ScanFinds(digest, read, m, containers[k], scans[k]);
    }
    hide Enumerates, NeedsRepair, HasBroken;
    StoreIsListed(digest, read, m, containers);
  }

  lemma StoreIsListed(digest: Digest, read: Reader, m: Meta, containers: seq<ContainerInfo>)
    requires Keyed(m) && Enumerates(m, containers)
    ensures HasBroken(read, m) <==> exists k :: 0 <= k < |containers| && BrokenIn(read, m, containers[k])
    ensures forall q :: NeedsRepair(digest, read, m, q) <==>
      exists k :: 0 <= k < |containers| && FindsIn(digest, read, m, containers[k], q)
  {
    hide BlockBroken, BlockCorrupt;
    if HasBroken(read, m) {
      var id :| Coded(m, id) && BlockBroken(read, m.blocks[id]);
      ContainerId(m, id.container);
      var k := IndexOf(m, containers, id.container);
      assert BrokenIn(read, m, containers[k]);
    }
    forall q ensures NeedsRepair(digest, read, m, q) <==>
      exists k :: 0 <= k < |containers| && FindsIn(digest, read, m, containers[k], q) {
      if NeedsRepair(digest, read, m, q) {
        var id :| Coded(m, id) && BlockCorrupt(digest, read, m.blocks[id]) && AsksFor(m, id, q);
        ContainerId(m, id.container);
        var k := IndexOf(m, containers, id.container);
        assert FindsIn(digest, read, m, containers[k], q);
      }
      if k :| 0 <= k < |containers| && FindsIn(digest, read, m, containers[k], q) {
        assert Lists(m, containers[k]);
        var id :| Coded(m, id) && id.container == containers[k].id && BlockCorrupt(digest, read, m.blocks[id])
          && Describes(q, containers[k].id, containers[k].ec.value, m.blocks[id]);
        assert AsksFor(m, id, q);
      }
    }
  }

  ghost predicate FindsIn(digest: Digest, read: Reader, m: Meta, c: ContainerInfo, q: RepairRequest) {
    exists id ::
      && Coded(m, id) && id.container == c.id && c.ec.Some? && BlockCorrupt(digest, read, m.blocks[id])
      && Describes(q, c.id, c.ec.value, m.blocks[id])
  }

  ghost predicate BrokenIn(read: Reader, m: Meta, c: ContainerInfo) {
    exists id :: Coded(m, id) && id.container == c.id && BlockBroken(read, m.blocks[id])
  }

  lemma ContainerId(m: Meta, c: nat)
    requires Keyed(m) && c in m.containers
    ensures m.containers[c].info.id == c
  {}

  lemma IndexOf(m: Meta, containers: seq<ContainerInfo>, c: nat) returns (k: nat)
    requires Enumerates(m, containers) && c in m.containers && m.containers[c].info.id == c
    ensures k < |containers| && containers[k] == m.containers[c].info && containers[k].id == c
  {
    k :| 0 <= k < |containers| && containers[k] == m.containers[c].info;
  }
}
