# ozone-rust: a verified model

This project models the erasure-coded object store in Dafny and proves what it promises about bytes:
what is written comes back, whatever shards are lost; what is rebuilt is what was written; and what is
listed, queued, printed or parsed is complete and exact. The models follow the code, branch by branch.
Objects whose methods update fields are classes, loops are loops with invariants, and each such method is
proved against a function or predicate whose own properties are lemmas.

- **Reed-Solomon algebra** (`Fields`, `Linear`, `Cauchy`, `Mds`, `Gauss`, `Gf256`, `GfOps`, `ReedSolomon`,
  `Coder`). The identity-over-Cauchy generator is MDS over every field and every choice of distinct points;
  GF(2^8) with polynomial 0x11D is shown to be a field from the shift-and-xor multiply; `reconstruct` never
  meets a singular matrix and rebuilds exactly the encoder's shards.
- **Stripe codec** (`Layout`, `Shards`, `ShardBytes`, `Stripe`, `Decode`, `Distance`). Round-robin cells, truncated data
  shards, full-width parity and the partial last stripe; decoding inverts encoding from any k survivors, and
  on arbitrary input it returns the documented error or exactly `len` bytes.
- **Storage and repair** (`Checksum`, `MetaStore`, `BlockScan`, `Scrub`, `Datanode`, `Survey`, `Survivors`,
  `Repair`, `Rebuilds`, `SelfHeal`, `HealRace`). Metadata counters, key order, paging, the bit-rot scan, reconstruction with
  rollback, and the cluster as a state machine over arbitrary interleavings, with the exact condition under
  which repair never stores a wrong shard.
- **Gateway and managers** (`Text`, `Om`, `Listing`, `Gateway`, `ObjectRead`, `ScmQueue`, `ScmBeats`,
  `ScmHandler`).
  Delimiter-folded pagination, block-group splitting and slot routing, multipart uploads from first part to
  GET, reads from a damaged cluster, and the SCM command queue under interleaved heartbeats.
- **Printers and parsers** (`Numerals`, `Calendar`, `HttpDate`, `XmlText`, `Tagging`, `AwsChunked`).

## Conventions

- A byte is `bv8` in the codec. In `AwsChunked` a byte is the character with the same code.
- Foreign and external parts are parameters: the digest (`Checksum.Digest`), the MD5 rollup
  (`Om.Config`), UTF-8 decoding of chunk sizes (`AwsChunked.Utf8`), what a peer answers
  (`Survey.Peers`), which calls fail (`Repair.Call` with a clock, `Gateway.Backend.faults`), and which
  reads get through (`ObjectRead.Network`).
- Where a property needs the digest to tell any two windows apart, it says `Checksum.Ideal(digest)`.
- `hide` statements only limit what the verifier unfolds.

## Findings

- `read_chunk` verifies only when a record exists (crates/ozone-dn-server/src/lib.rs:403-431). If the
  metadata goes between a survivor's listing and its read, rotten bytes enter a reconstruction.
  `HealRace.UnrecordedReadPersistsWrongShard` builds such a run, of a command that names the k data slots as its
  sources and with a single unrecorded read, for every configuration, every group that holds bytes and every rot
  of one of its data shards.
  `HealRace.SafeIffRefused` gives the exact condition: every run is safe if and only if bytes without a
  record are refused, if only those of the expected length, or no group holds any bytes.
- A failed close is not retried on re-delivery, although the comment at
  crates/ozone-dn-server/src/repair.rs:315-316 says so. A container ends Closed if and only if it already was,
  or was absent and the delivery reports success with a group rebuilt
  (`Repair.Target.ReconstructFromSurvivors`); one failed close leaves it Open with every recoverable group
  stored, and no later delivery closes it, although later closes may succeed
  (`Repair.CloseFailsThenRedelivered`, `Repair.Redeliver`).
- `list_blocks` moves its cursor forward exactly when the page holds at least the slots that share the start
  id (`BlockScan.PagingProgress`); two slots and one block a page never get past them
  (`BlockScan.StuckPage`), while a page of 256 always does, since a slot is a byte.
- A page that ends inside a local id is read again from that id, so the scrub's `clean` tally can count a chunk
  twice and its list of requests repeat an entry. `Scrub.CountedTwice` gives a container of 257 blocks. The tally
  is exact if and only if no block read twice has a clean chunk (`Scrub.CleanIsExactIff`), the list if and only if
  no block read twice is corrupt (`Scrub.RequestsAreExactIff`). No block is read twice if and only if every 256th
  block starts a new local id (`Scrub.RereadNothingIff`). As a set, the requests are exact always.
- `decode_aws_chunked` adds a chunk's size to its index unchecked (crates/ozone-s3-gw/src/lib.rs:777). A chunk
  that is cut short is reported as truncated if and only if the index after its header, plus its size, fits a
  usize; otherwise the handler panics, at the addition or, if that wraps, at the slice
  (`AwsChunked.Decode`, `AwsChunked.FirstChunkOverflowsIff`). The size `ffffffffffffffff` does it
  (`AwsChunked.LargestSizeOverflows`). No properly framed body does (`AwsChunked.FramedNeverOverflows`).
- Every block group after a key's first is allocated in container 1, because `allocate_block` sends no key
  locations (crates/ozone-om-client/src/compliant.rs:537-546, crates/test-fixtures/src/compliant_om.rs:425-430).
  Local ids are never reused, so groups do not collide.

## Model

| member | source | states |
|---|---|---|
| `GfOps.GfMul` | crates/isa-l-safe/src/lib.rs:523-537 | the eight-round shift-and-xor loop computes the field product |
| `GfOps.GfInv` | crates/isa-l-safe/src/lib.rs:539-549 | the square-and-multiply loop for x^254 computes the inverse of every non-zero byte |
| `GfOps.GfIsField` | crates/isa-l-safe/src/lib.rs:522-549 | xor and that product satisfy all field laws on the 256 bytes |
| `Gf256.InverseLaw` | crates/isa-l-safe/src/lib.rs:538-549 | x * x^254 is 1 for every non-zero x |
| `Cauchy.CauchyKernel` | crates/isa-l-safe/src/lib.rs:557-562 | over any field and distinct points, a vector supported on no more columns than there are rows and killed by those Cauchy rows is zero |
| `Mds.AnyRowsIndependent` | crates/isa-l-safe/src/lib.rs:551-564 | over any field and distinct points, any k distinct rows of the identity-over-Cauchy matrix have trivial kernel |
| `ReedSolomon.GenRowCauchy` | crates/isa-l-safe/src/lib.rs:553-562 | the generator's entries are the identity over inv(i xor j) |
| `ReedSolomon.AnyShardsDetermine` | crates/isa-l-safe/src/lib.rs:362-381 | the instance for every validated configuration in GF(2^8) with points i xor j |
| `Coder.ValidateCfg` | crates/isa-l-safe/src/lib.rs:449-457 | rejects exactly the configurations outside 1..=32 data and 1..=32 parity |
| `Coder.BuildEncodeMatrix` | crates/isa-l-safe/src/lib.rs:107-118 | fills the (k+p) by k generator: every row is the generator row of its shard |
| `Gauss.Invert` | crates/isa-l-safe/src/lib.rs:371-382 | inversion returns a left inverse, or fails and then a non-zero kernel vector exists |
| `Coder.NeverSingular` | crates/isa-l-safe/src/lib.rs:362-382 | k distinct valid sources never give a singular matrix |
| `Coder.ChecksAreExact` | crates/isa-l-safe/src/lib.rs:304-360 | a call with something to rebuild passes the argument checks if and only if it is well formed |
| `Coder.CheckLens` | crates/isa-l-safe/src/lib.rs:326-341 | reports what the length check finds: nothing when all buffers fit, else the first that does not (`Coder.LenErrorIs`) |
| `Coder.LenErrorIs` | crates/isa-l-safe/src/lib.rs:326-341 | the error names the length of the first buffer that is not as long as demanded |
| `Coder.CheckIndices` | crates/isa-l-safe/src/lib.rs:343-360 | reports the first bad, repeated or overlapping index in checking order |
| `Coder.SourceErrorIs` | crates/isa-l-safe/src/lib.rs:343-353 | the error names the first source index that is out of range or already seen |
| `Coder.ErasedErrorIs` | crates/isa-l-safe/src/lib.rs:353-360 | the error names the first erased index that is out of range or also a source |
| `Coder.Decoder.SourceMatrix` | crates/isa-l-safe/src/lib.rs:362-369 | copies the generator rows of the sources, in source order |
| `Coder.Decoder.DecodeMatrix` | crates/isa-l-safe/src/lib.rs:384-411 | one row per erased shard: a row of the inverse for data, the composed row for parity |
| `Coder.Decoder.Reconstruct` | crates/isa-l-safe/src/lib.rs:292-446 | the outcome is exactly the first failed check or success; on success every output is the shard the encoder produced, for every stripe the sources belong to; on error outputs are untouched |
| `ReedSolomon.DecodeRowRebuilds` | crates/isa-l-safe/src/lib.rs:384-411 | a composed decode row applied to k true sources gives the erased shard, data or parity |
| `Coder.Encoder.Encode` | crates/isa-l-safe/src/lib.rs:168-232 | the count and length errors in order, else every parity buffer is its generator row times the data |
| `ReedSolomon.DataShardVerbatim` | crates/isa-l-safe/src/lib.rs:98-106 | the first k encoded shards are the data verbatim |
| `Layout.DataLenClosedForm` | crates/ozone-ec/src/stripe.rs:71-81 | the closed form is the sum of the shard's cell lengths, for every length a usize holds |
| `Layout.AllStripesCover` | crates/ozone-ec/src/stripe.rs:40-46 | the stripes cover the object, and each of them holds some of its bytes |
| `Shards.StoredShardLen` | crates/ozone-ec/src/stripe.rs:59-81 | every shard the encoder builds, data or parity, has the expected length |
| `Stripe.EncodeObject` | crates/ozone-ec/src/stripe.rs:102-149 | errors for an unusable profile; otherwise byte b of cell s of data shard i is byte s*k*c + i*c + b of the object, present exactly if the object has it, and byte b of cell s of a parity shard is its generator row times the stripe's column of object bytes, zero past the object's end |
| `ShardBytes.EncoderByte` | crates/ozone-ec/src/stripe.rs:119-131 | byte b of data cell i of stripe s given to the encoder is byte s*k*c + i*c + b of the object, or zero past its end |
| `ShardBytes.DataShardByte` | crates/ozone-ec/src/stripe.rs:119-131 | where each byte of a data shard stands in the object, and which bytes the shard has |
| `ShardBytes.ParityShardByte` | crates/ozone-ec/src/stripe.rs:133-143 | each parity byte from the bytes of the object alone, and the full width of a parity shard |
| `ShardBytes.StripeCount` | crates/ozone-ec/src/stripe.rs:40-46 | there are as many stripes as it takes to hold the object, and no more |
| `Decode.CutCell` | crates/ozone-ec/src/stripe.rs:86-98 | the cell of stripe s is the c bytes of the shard from s*c on, zero past its end, in bounds |
| `Shards.PaddedCellIsStripeShard` | crates/ozone-ec/src/stripe.rs:83-98 | cut from a true shard, that cell is the shard the stripe encoder produced |
| `Stripe.Reassemble` | crates/ozone-ec/src/stripe.rs:153-166 | concatenates the data cells in stripe order, in bounds |
| `Shards.AssembledIsObject` | crates/ozone-ec/src/stripe.rs:151-166 | reassembling an object's own data shards gives the object |
| `Decode.RebuildStripe` | crates/ozone-ec/src/stripe.rs:242-265 | one stripe of every missing data shard is rebuilt and truncated to its real length |
| `Decode.FillMissing` | crates/ozone-ec/src/stripe.rs:226-266 | too few survivors and invalid configurations are the only errors; otherwise every missing data shard is known |
| `Decode.DecodeObject` | crates/ozone-ec/src/stripe.rs:180-269 | for any shard list: exactly the documented error, or `len` bytes that equal every object whose shards these are |
| `Decode.DecodeErrorIs` | crates/ozone-ec/src/stripe.rs:180-241 | which error: profile, slot count, then, only if some data shard is absent or of the wrong length, too few usable shards with their number, or an invalid configuration |
| `Distance.ShardsDetermineObject` | crates/ozone-ec/src/stripe.rs:168-175 | k shards belong to at most one object of a given length |
| `Distance.SurvivorsDecode` | crates/ozone-ec/src/stripe.rs:102-269 | from the shards of an object with any k survivors, decoding succeeds and its result is the object and nothing else |
| `Checksum.Verify` | crates/ozone-storage/src/checksum.rs:61-83 | the loop with early exit gives the outcome `Checksum.VerifyIs` describes; without a checksum anything verifies and other kinds are unsupported |
| `Checksum.VerifyIs` | crates/ozone-storage/src/checksum.rs:61-83 | success if and only if the digest of every window is the recorded one; else the wrong count, or the first window whose digest differs |
| `Checksum.ComputeIs` | crates/ozone-storage/src/checksum.rs:33-59 | the recorded digests are those of the data's windows of bytes_per_checksum bytes, in order |
| `Checksum.WindowsCount` | crates/ozone-storage/src/checksum.rs:23-26 | the window count is the number of windows cut |
| `Checksum.WindowIs` | crates/ozone-storage/src/checksum.rs:33-59 | window w is the data from w*n on, n bytes or up to the end |
| `Checksum.VerifyIsEquality` | crates/ozone-storage/src/checksum.rs:33-83 | under an ideal digest, data verifies against a computed checksum if and only if it is the data it was computed from |
| `Checksum.VerifyOwn` | crates/ozone-storage/src/checksum.rs:33-83 | whatever the digest, data verifies against its own checksum |
| `MetaStore.FjallMetaStore.CreateContainer` | crates/ozone-fjall-store/src/lib.rs:117-131 | creates once, refuses a duplicate; the counters stay exact if and only if it is refused or its record counts nothing |
| `MetaStore.FjallMetaStore.SetContainerState` | crates/ozone-fjall-store/src/lib.rs:145-164 | changes only the state of an existing container |
| `MetaStore.FjallMetaStore.RemoveContainer` | crates/ozone-fjall-store/src/lib.rs:179-200 | removes the container and exactly its blocks |
| `MetaStore.FjallMetaStore.Put` | crates/ozone-fjall-store/src/lib.rs:202-244 | replaces or adds a block of an open container, moves the counters by the difference and the commit sequence by one |
| `MetaStore.FjallMetaStore.RemoveBlock` | crates/ozone-fjall-store/src/lib.rs:256-283 | the block is gone, every other block and container is as it was, and only the counters of its own container move |
| `MetaStore.PutBlockKeeps` | crates/ozone-fjall-store/src/lib.rs:202-244 | after a put, every block count and byte sum is still exact |
| `MetaStore.DeleteBlockKeeps` | crates/ozone-fjall-store/src/lib.rs:256-283 | after a delete, every block count and byte sum is still exact |
| `MetaStore.RunKeeps` | crates/ozone-fjall-store/src/lib.rs:117-283 | a run keeps every block in an existing container and every container's counters equal to the number and total length of its blocks, at every point, if and only if each container it creates starts with zero counters |
| `MetaStore.ReachableNeverSaturates` | crates/ozone-fjall-store/src/lib.rs:226-276 | in every store reachable from the empty one that way neither saturating subtraction ever saturates |
| `MetaStore.CommitIdsIncrease` | crates/ozone-fjall-store/src/lib.rs:234-241 | two puts into one container with no delete between them get increasing commit sequence ids, whatever happens in between |
| `BlockScan.KeyOrder` | crates/ozone-fjall-store/src/lib.rs:79-89 | big-endian keys compare as (container, local, slot) |
| `BlockScan.BigEndianIs` | crates/ozone-fjall-store/src/lib.rs:79-89 | the key bytes are the digits of the id to the base 256, most significant first |
| `BlockScan.LexIs` | crates/ozone-fjall-store/src/lib.rs:79-89 | bytewise order is decided at the first difference, a prefix before its extensions |
| `BlockScan.PrefixSelects` | crates/ozone-fjall-store/src/lib.rs:293-296 | the container prefix selects exactly the container's blocks |
| `BlockScan.ScanIsOrdered` | crates/ozone-fjall-store/src/lib.rs:296-299 | a prefix scan is the container's blocks in (local, slot) order |
| `BlockScan.ScanBlocks` | crates/ozone-fjall-store/src/lib.rs:285-299 | iterating a container's prefix yields its blocks, all of them, in key order |
| `BlockScan.ListBlocks` | crates/ozone-fjall-store/src/lib.rs:285-315 | the page is the first `limit` blocks whose local id is at least the start id, and the cursor the local id of the first block left over |
| `BlockScan.PagingProgress` | crates/ozone-fjall-store/src/lib.rs:300-306 | the cursor moves forward if and only if the page holds all slots sharing the start id |
| `BlockScan.StuckPage` | crates/ozone-fjall-store/src/lib.rs:300-306 | two slots of one local id and pages of one block: the cursor stays where it is |
| `BlockScan.FullPageAdvances` | crates/ozone-dn-server/src/scrub.rs:46-55 | a page of 256 always moves the cursor |
| `Scrub.ScrubBlock` | crates/ozone-dn-server/src/scrub.rs:76-100 | one request per checksummed chunk that is missing or fails its digest, each naming the block's container, local id, slot, profile and recorded length; one tally per chunk that verifies; other read errors, and only they, abort |
| `Scrub.ScrubContainer` | crates/ozone-dn-server/src/scrub.rs:68-104 | paging by 256 terminates; tally and requests are those of the blocks the pages hold, and as a set the requests are exactly those that name a corrupt block of the container |
| `Scrub.ScrubOnce` | crates/ozone-dn-server/src/scrub.rs:64-106 | over any store whose records sit under their own ids: a request is reported if and only if it has the container, local id and slot of a corrupt block of an erasure-coded container, that container's profile, and the block's recorded length or 0; an error is exactly an unreadable block, and the tally that of the pages read |
| `Scrub.CorruptIsDamaged` | crates/ozone-dn-server/src/scrub.rs:76-86 | under an ideal digest, a shard stored with its own record is corrupt if and only if its file is gone or holds other bytes |
| `Scrub.VisitedIsScan` | crates/ozone-dn-server/src/scrub.rs:70-103 | the pages of a pass hold every block of the container and no other |
| `Scrub.TallySplits` | crates/ozone-dn-server/src/scrub.rs:95-103 | the tally is the container's clean chunks plus those of the blocks read twice |
| `Scrub.RereadNothingIff` | crates/ozone-dn-server/src/scrub.rs:99-102 | nothing is read twice if and only if no page ends inside a local id |
| `Scrub.CleanIsExactIff` | crates/ozone-dn-server/src/scrub.rs:95-97 | the tally is never short, and exact if and only if no block read twice has a clean chunk; so it is when no page ends inside a local id, and only then if every block has a clean chunk |
| `Scrub.RequestsAreExactIff` | crates/ozone-dn-server/src/scrub.rs:87-94 | the list of requests repeats nothing if and only if no block read twice is corrupt; so it is when no page ends inside a local id, and only then if every block is corrupt |
| `Scrub.PassIsExactIff` | crates/ozone-dn-server/src/scrub.rs:64-106 | over all containers the tally is never short, and exact if and only if no block read twice has a clean chunk |
| `Scrub.CountedTwice` | crates/ozone-dn-server/src/scrub.rs:95-102 | a container of 257 blocks of which the scrub counts a clean chunk twice, or reports a missing one twice |
| `Datanode.ReadThroughRecord` | crates/ozone-dn-server/src/lib.rs:403-431 | a verified read through a shard's record serves exactly the bytes the record was made for |
| `Datanode.RecordIs` | crates/ozone-dn-server/src/repair.rs:376-392 | a shard's record carries its length, the group's length and the digest of every cell |
| `Survey.Gather` | crates/ozone-dn-server/src/repair.rs:217-261 | the nested loops over sources and listed blocks compute the survey of all visits |
| `Survey.ShardsWereRead` | crates/ozone-dn-server/src/repair.rs:254-258 | every buffer in the survey was read from the source of that slot |
| `Survey.ReadsWereKept` | crates/ozone-dn-server/src/repair.rs:254-258 | under each slot of a group the survey holds exactly the last buffer a source delivered for it |
| `Survey.LengthIsMinimum` | crates/ozone-dn-server/src/repair.rs:239-243 | the recorded length of a group is the least any source lists |
| `Survivors.VisitIs` | crates/ozone-dn-server/src/repair.rs:217-261 | the visits of a survey are exactly what the sources with an eligible slot list and answer |
| `Survivors.FoundIsServed` | crates/ozone-dn-server/src/repair.rs:217-261 | the survey holds a buffer for a slot of a group if and only if an eligible source lists the group and serves that shard |
| `Survivors.SurvivorCount` | crates/ozone-dn-server/src/repair.rs:360-362 | the survivors counted are as many as the distinct slots served |
| `Repair.MinimumLengthIsTrue` | crates/ozone-dn-server/src/repair.rs:188-191 | if no listed length is below the true one and one is exact, the minimum is the true length |
| `Repair.ReconstructionIsExact` | crates/ozone-dn-server/src/repair.rs:344-397 | then every rebuilt shard, data or parity, is the original byte for byte, with its record |
| `Repair.TrueGroupDecodes` | crates/ozone-dn-server/src/repair.rs:360-365 | a truthfully surveyed group with k survivors always decodes |
| `Repair.Target.PersistShard` | crates/ozone-dn-server/src/repair.rs:378-392 | writes the bytes, then the record; a failure leaves at most the bytes; an open container and no fault mean success |
| `Repair.Target.RebuildGroup` | crates/ozone-dn-server/src/repair.rs:354-394 | touches only the targeted slots of the group and stores each rebuilt shard with its record |
| `Repair.Target.RebuildGroups` | crates/ozone-dn-server/src/repair.rs:344-397 | rebuilds exactly the groups of which at least k slots hold a buffer, in ascending order, and nothing else |
| `Repair.Target.RollbackCreated` | crates/ozone-dn-server/src/repair.rs:326-337 | removes the container's metadata and bytes, each on its own best effort |
| `Repair.RollbackRestores` | crates/ozone-dn-server/src/repair.rs:288-301 | undoing a created container restores the store as it was |
| `Repair.Target.RebuildAbsent` | crates/ozone-dn-server/src/repair.rs:281-319 | a container created for a rebuild is rolled back, or Closed with at least one group rebuilt, or, when a close failed, left Open with every recoverable group stored; it is Closed if and only if a non-empty success is reported |
| `Repair.Target.ReconstructFromSurvivors` | crates/ozone-dn-server/src/repair.rs:205-321 | a group is rebuilt if and only if the peers serve at least k distinct slots of it; a pre-existing container is never deleted or closed and only targeted slots change; Closed is a no-op; other containers are untouched; the container ends Closed if and only if it was, or was absent and a group was rebuilt; without faults every decodable survey succeeds |
| `Rebuilds.RebuildFromPeers` | crates/ozone-dn-server/src/repair.rs:205-397 | with no failing call, an absent or open container and truthful peers: a group is in the result, and then each of its missing slots holds the original shard and record, if and only if at least k distinct slots of it are served |
| `Repair.Redeliver` | crates/ozone-dn-server/src/repair.rs:274-281 | an open container stays open and a closed one closed however often the command is delivered, whatever the peers answer and whichever calls fail |
| `Repair.CloseFailsThenRedelivered` | crates/ozone-dn-server/src/repair.rs:313-318 | when nothing but closes fails, the first delivery fails if and only if its own close does; it then leaves every recoverable group stored in an open container, which no later delivery closes |
| `Repair.Target.ReconstructAndPersist` | crates/ozone-dn-server/src/repair.rs:74-171 | refuses an absent or closed container, and a group of which fewer than k distinct slots are served, without touching anything; otherwise stores every valid missing slot |
| `Rebuilds.RebuildKnownFromPeers` | crates/ozone-dn-server/src/repair.rs:74-171 | with no failing call, an open container and true shards: the group is rebuilt as it was if and only if at least k distinct slots are served, and otherwise nothing changes |
| `Repair.GatheredIsKnown` | crates/ozone-dn-server/src/repair.rs:99-124 | a buffer is gathered for a slot if and only if some eligible source serves it, and it is what the last such source answered |
| `Repair.InRangeJoin` | crates/ozone-dn-server/src/repair.rs:134-171 | the slots reported are the missing ones from 1 to k+p, in order (with `Repair.InRangeOne`) |
| `Repair.KnownGroupIsExact` | crates/ozone-dn-server/src/repair.rs:71-73 | rebuilt at its true length from true shards, a single group's slots are the originals |
| `SelfHeal.StepKeeps` | crates/ozone-dn-server/src/repair.rs:205-397 | every step other than an unrecorded read keeps all records and pending shards true, and every survey buffer true or of a length the decoder discards |
| `SelfHeal.StepKeepsIff` | crates/ozone-dn-server/src/lib.rs:403-431 | a step keeps the cluster truthful if and only if it does not take untrue bytes of the expected length that have no record |
| `SelfHeal.RunIsGoodIff` | crates/ozone-dn-server/src/repair.rs:205-397 | a run of any number of datanodes and interleaved reconstructions is truthful throughout if and only if all its steps are harmless |
| `SelfHeal.RepairIsSafe` | crates/ozone-dn-server/src/repair.rs:205-397 | in every such run, any shard at rest that matches its recorded digest is the original shard of its group and slot |
| `SelfHeal.RefusalIsSafe` | crates/ozone-dn-server/src/lib.rs:403-431 | if bytes without a record are refused, all of them or only those of the expected length, every state of every run is safe |
| `HealRace.ParityDiffers` | crates/isa-l-safe/src/lib.rs:551-564 | objects that differ in one data shard differ in the first parity shard |
| `HealRace.UnrecordedReadPersistsWrongShard` | crates/ozone-dn-server/src/lib.rs:408-431 | for every configuration, every group holding bytes and every rot of one data shard, a run of a command that names the k data slots, in which one read after the metadata went makes repair persist a wrong shard |
| `HealRace.SafeIffRefused` | crates/ozone-dn-server/src/lib.rs:408-431 | repair is safe in every run if and only if bytes without a record are refused, or no group holds any bytes |
| `Listing.FoldedIffExtends` | crates/ozone-s3-gw/src/backend.rs:386-392 | once some key folds into a prefix, a key folds into it if and only if it extends it |
| `Text.FindIs` | crates/ozone-s3-gw/src/backend.rs:386-392 | the search gives the first place where the text stands, and none only if it stands nowhere |
| `Text.BeforeIs` | crates/test-fixtures/src/compliant_om.rs:844-879 | key order is decided at the first difference, a prefix before its extensions |
| `Listing.FoldedIs` | crates/ozone-s3-gw/src/backend.rs:386-392 | a key folds into p if and only if there is a delimiter, it stands past the prefix, and p is the key up to the end of its first occurrence there |
| `Listing.GroupsAre` | crates/ozone-s3-gw/src/backend.rs:394-425 | folding an ascending key list gives each distinct fold once, ascending |
| `Listing.ScanBatch` | crates/ozone-s3-gw/src/backend.rs:384-425 | folding a batch keeps the page equal to the entries of the keys consumed and stops exactly at the first entry beyond a full page |
| `Listing.ListObjects` | crates/ozone-s3-gw/src/backend.rs:335-447 | the page covers the first n keys after the token; it is truncated if and only if an entry is left over, and then it is full and its token the last key consumed |
| `Listing.ChainIsOneShot` | crates/ozone-s3-gw/src/backend.rs:335-447 | following tokens: non-final pages hold exactly max_keys entries, tokens strictly grow, the chain is bounded, and the pages together are the one-shot fold |
| `Listing.OneShotFold` | crates/ozone-s3-gw/src/backend.rs:317-333 | that fold, from the key set alone: ascending, the keys past whose prefix no delimiter stands, and ascending, the distinct cuts of the others after their first delimiter |
| `Listing.EntriesAre` | crates/ozone-s3-gw/src/backend.rs:394-425 | each entry of the contents carries the size and ETag of its own key |
| `Om.CompliantOm.ListKeys` | crates/test-fixtures/src/compliant_om.rs:844-879 | the first `count` matching names after the start key, 1000 if no count is given, in key order, each with its own size and ETag |
| `Om.CompliantOm.Allocate` | crates/test-fixtures/src/compliant_om.rs:245-264 | the next local id on the one pipeline, and the counter moves past it |
| `Om.LocalIdsAreFresh` | crates/test-fixtures/src/compliant_om.rs:245-264 | whatever operations run in between, a later block gets a larger local id |
| `Om.CompliantOm.Commit` | crates/test-fixtures/src/compliant_om.rs:438-489 | stores the committed extents with the pipeline re-attached and changes nothing else |
| `Om.CompliantOm.CommitUploadPart` | crates/test-fixtures/src/compliant_om.rs:556-611 | range and upload errors; otherwise the part is the last one committed |
| `Om.CompliantOm.CompleteUpload` | crates/test-fixtures/src/compliant_om.rs:612-746 | the validation errors in order; otherwise stitches and drops the upload; an error changes nothing |
| `Om.CompleteErrorIs` | crates/test-fixtures/src/compliant_om.rs:612-700 | the error names the first thing wrong: an empty list, part numbers that do not increase, an unknown upload, or the first listed part that is missing or, unless last, below 5 MiB |
| `Om.PartsAreLatest` | crates/test-fixtures/src/compliant_om.rs:587-596 | in every run a live upload holds, part by part, what was last committed |
| `Om.LatestIs` | crates/test-fixtures/src/compliant_om.rs:556-596 | the latest commit of a part is one that no later commit of the same part follows, under a number from 1 to 10000 |
| `Om.CompleteStitchesLatest` | crates/test-fixtures/src/compliant_om.rs:556-746 | for every history, complete succeeds if and only if the listed parts ascend, each has a latest commit and all but the last are large enough; then the key is the concatenation of those commits with their summed size and the rollup of the listed or committed ETags; otherwise nothing changes |
| `Gateway.Backend.WriteSlot` | crates/ozone-s3-gw/src/backend.rs:519-549 | on success the first member with that replica index holds the shard and its record under the block's ids; without such a member, and only then, the slot is reported as missing and nothing changes; no other block changes |
| `Gateway.EndpointIs` | crates/ozone-s3-gw/src/backend.rs:985-992 | a slot's endpoint is that of the first member with its replica index, and there is none if and only if no member has it |
| `Gateway.EndpointIgnoresOrder` | crates/ozone-s3-gw/src/backend.rs:985-992 | the order in which members with distinct replica indices are listed changes no endpoint |
| `Gateway.WrittenIs` | crates/ozone-s3-gw/src/backend.rs:519-549 | a shard counts as written if and only if the first member with its replica index holds it and its record |
| `Gateway.Backend.WriteBlockGroup` | crates/ozone-s3-gw/src/backend.rs:506-555 | every slot of the group holds its shard of the segment; only this local id is written |
| `Gateway.Backend.AllocateAndWrite` | crates/ozone-s3-gw/src/backend.rs:462-499 | the segments stored in order are the body, all but the last of them full, in blocks not used before: the first in the new container, the rest in container 1 |
| `Gateway.Backend.PutObject` | crates/ozone-s3-gw/src/backend.rs:561-593 | on success the object held under the key is the body; a failed PUT commits nothing; everything else held, objects and parts, stays held; with no failing call and the containers the body touches open it succeeds |
| `Gateway.Backend.UploadPart` | crates/ozone-s3-gw/src/backend.rs:846-880 | on success the part held is the body, otherwise nothing changes; earlier parts and all objects stay held; it succeeds under the same conditions as a PUT |
| `Gateway.Backend.InitiateUpload` | crates/ozone-s3-gw/src/backend.rs:833-840 | a new upload without parts; everything held stays held |
| `Gateway.Backend.CompleteUpload` | crates/ozone-s3-gw/src/backend.rs:885-917 | on success the object held under the key is the concatenation of the listed parts' bodies and the upload is gone; an error changes nothing |
| `Gateway.Backend.AbortUpload` | crates/ozone-s3-gw/src/backend.rs:921-932 | the upload and its parts are gone; everything else held stays held |
| `Gateway.HeldStays` | crates/ozone-s3-gw/src/backend.rs:462-499 | writing freshly allocated blocks disturbs no object or part held |
| `Gateway.CompletedIsConcatenation` | crates/test-fixtures/src/compliant_om.rs:612-746 | the blocks stitched for a completed upload store the concatenation of its listed parts' bodies |
| `Gateway.StoredJoin` | crates/ozone-s3-gw/src/backend.rs:726-733 | bodies stored block list after block list are stored as their concatenation |
| `ObjectRead.ReadBlockGroup` | crates/ozone-s3-gw/src/backend.rs:745-779 | the answer is what the readable shards of the group decode to, or the decoder's error |
| `ObjectRead.GetObject` | crates/ozone-s3-gw/src/backend.rs:715-741 | a missing key is an error; otherwise every group decoded in order, or the error of the first group that does not |
| `ObjectRead.ReadableIsRead` | crates/ozone-s3-gw/src/backend.rs:715-779 | on a readable object the answer is its body and nothing else |
| `ObjectRead.GroupSurvives` | crates/ozone-s3-gw/src/backend.rs:745-779 | a written group stays readable under any loss or rot of at most p shards |
| `ObjectRead.GroupLost` | crates/ozone-s3-gw/src/backend.rs:745-779 | after the loss of more it is refused for want of shards |
| `ObjectRead.StoredIsRead` | crates/ozone-s3-gw/src/backend.rs:715-779 | reading a stored object from a damaged cluster gives its body if no group lost more than p shards, and the shortage error otherwise |
| `ObjectRead.DeadMembersTolerable` | crates/ozone-s3-gw/src/backend.rs:745-779 | when no endpoint serves two slots, any p datanodes may be dead or unreachable, in any mix |
| `ObjectRead.GetHeld` | crates/ozone-s3-gw/src/backend.rs:715-779 | GET of any object the gateway holds, from what is left of the cluster: its body if and only if no group lost more than p shards |
| `ObjectRead.PutThenGet` | crates/ozone-s3-gw/src/backend.rs:462-779 | PUT, any damage, GET: the body if and only if no group of the object lost more than p shards |
| `ObjectRead.UploadThenGet` | crates/ozone-s3-gw/src/backend.rs:715-917 | initiate, upload parts, complete, any damage, GET: the concatenation of the parts if and only if no group lost more than p shards; with no failing call, open containers and allowed part sizes the upload succeeds |
| `ScmQueue.CompliantScm.Heartbeat` | crates/test-fixtures/src/compliant_scm.rs:209-254 | new unhealthy findings are queued once, then the commands targeting this datanode are answered and the others kept in order |
| `ScmBeats.BeatAnswers` | crates/test-fixtures/src/compliant_scm.rs:209-254 | every unhealthy report whose finding is new is answered at once with one command to rebuild it from all of the fixture's sources; queued commands are answered if and only if they name the datanode or are not reconstructs, and the rest stay |
| `ScmQueue.BeatIsSteps` | crates/test-fixtures/src/compliant_scm.rs:209-254 | undisturbed, the lock-protected steps of a heartbeat give the same queue and the same answer |
| `ScmQueue.RunFollows` | crates/test-fixtures/src/compliant_scm.rs:209-254 | in every interleaving of those steps the queue is exactly the commands nobody has taken, in the order queued, and the issued findings those minted or under way |
| `ScmQueue.AnswersAreServed` | crates/test-fixtures/src/compliant_scm.rs:233-248 | every answer is the commands of the queue entries it delivers, in order, each naming the datanode that asked and marked as taken by it for good |
| `ScmBeats.ServedIs` | crates/test-fixtures/src/compliant_scm.rs:239-247 | a drain delivers exactly the queued entries that name the datanode or are not reconstructs |
| `ScmQueue.ServedOnce` | crates/test-fixtures/src/compliant_scm.rs:233-248 | no two answers deliver the same entry |
| `ScmQueue.TakenWasServed` | crates/test-fixtures/src/compliant_scm.rs:233-248 | whatever has left the queue was delivered by some answer |
| `ScmQueue.NothingLeft` | crates/test-fixtures/src/compliant_scm.rs:239-247 | after a drain nothing queued targets the datanode |
| `ScmQueue.RunIsSound` | crates/test-fixtures/src/compliant_scm.rs:25-78 | each finding is turned into at most one command, which asks for its slot of its container and has an id of its own, even if heartbeats interleave between marking and queueing |
| `ScmBeats.MintedWasReported` | crates/test-fixtures/src/compliant_scm.rs:25-78 | in every interleaving, a synthesized command names one target, a datanode that reported the finding, and the fixture's sources and profile |
| `ScmBeats.ReportedIsMinted` | crates/test-fixtures/src/compliant_scm.rs:209-232 | with a fixture, every finding reported has its command minted or under way |
| `ScmBeats.GivenAreQueued` | crates/test-fixtures/src/compliant_scm.rs:209-254 | the entries that were not synthesized are the commands enqueued, in order |
| `ScmQueue.FindingServedOnce` | crates/test-fixtures/src/compliant_scm.rs:209-254 | no finding is delivered twice |
| `ScmQueue.CommandsConserved` | crates/test-fixtures/src/compliant_scm.rs:209-254 | queued plus answered commands are exactly those enqueued, as multisets |
| `ScmHandler.MySlots` | crates/ozone-dn-server/src/scm_compliant.rs:265-271 | exactly the missing slots paired with this datanode |
| `ScmHandler.AskableIs` | crates/ozone-dn-server/src/scm_compliant.rs:283-299 | the sources asked are exactly those with an endpoint and a slot that is not being rebuilt here |
| `ScmHandler.NotMine` | crates/ozone-dn-server/src/scm_compliant.rs:265-274 | a command is ignored if and only if it pairs no slot with this datanode |
| `ScmHandler.MintedRebuildsItsFinding` | crates/ozone-dn-server/src/scm_compliant.rs:260-307 | in every interleaving, whoever is answered with a synthesized command reported its finding, rebuilds exactly that slot of that container with the fixture's profile, and asks every other source that has an endpoint |
| `Calendar.DaysRoundTrip` | crates/ozone-s3-gw/src/lib.rs:1047-1115 | days_from_civil inverts the civil-from-days arithmetic for every day of every era |
| `Calendar.CalendarIsGregorian` | crates/ozone-s3-gw/src/lib.rs:1047-1056 | each day's civil date is the Gregorian successor of the day before |
| `Calendar.Epoch` | crates/ozone-s3-gw/src/lib.rs:1043-1056 | day 0 is 1 January 1970 |
| `HttpDate.DateRoundTrip` | crates/ozone-s3-gw/src/lib.rs:1037-1115 | parsing a printed date gives its second, for every 64-bit millisecond count |
| `HttpDate.WeekdaysFollow` | crates/ozone-s3-gw/src/lib.rs:1046 | 1970 began on a Thursday and the weekdays follow each other |
| `HttpDate.DateColumns` | crates/ozone-s3-gw/src/lib.rs:1037-1067 | up to the year 9999 a date is printed in 29 characters, each field in its own columns |
| `HttpDate.MonthNameIs` | crates/ozone-s3-gw/src/lib.rs:1039-1041 | the names of the months, in order |
| `HttpDate.ClockIs` | crates/ozone-s3-gw/src/lib.rs:1080-1092 | a time is read if and only if its three fields are numbers within their ranges |
| `HttpDate.DateIs` | crates/ozone-s3-gw/src/lib.rs:1073-1095 | a date is read, as that second, if and only if its day is from 1 to 31, its month is named, its year and time are read and the second is not before 1970 |
| `Numerals.ParseSigned` | crates/ozone-s3-gw/src/lib.rs:1077-1085 | signed decimals are read as their value if 64 bits hold it |
| `XmlText.EscapeIsCoded` | crates/ozone-s3-gw/src/lib.rs:546-550 | the three replacement passes write each special character as its entity, once |
| `XmlText.UnescapeInvertsEscape` | crates/ozone-s3-gw/src/lib.rs:1214-1220 | unescaping inverts escaping on all text |
| `XmlText.UnescapeReads` | crates/ozone-s3-gw/src/lib.rs:1214-1220 | text in which any characters are written as one of the five entities, with no bare ampersand, is read as those characters |
| `XmlText.EscapedHasNoBracket` | crates/ozone-s3-gw/src/lib.rs:546-550 | escaped text never holds a tag delimiter |
| `Tagging.Render` | crates/ozone-s3-gw/src/lib.rs:913-927 | the loop writes the XML declaration, the root, the tag elements in order and the closing tags |
| `Tagging.OneElement` | crates/ozone-s3-gw/src/lib.rs:917-924 | a tag is written as its key, then its value, escaped |
| `Tagging.ValidateTags` | crates/ozone-s3-gw/src/lib.rs:932-946 | success if and only if there are at most ten tags, keys of 1 to 128 characters and values of at most 256; else too many, or what is wrong with the first tag that does not fit |
| `Tagging.Parse` | crates/ozone-s3-gw/src/lib.rs:952-970 | the scanning loop returns the document's tags, or the first error |
| `Tagging.ElementIs` | crates/ozone-s3-gw/src/lib.rs:993-1000 | an element's text runs from its first opening tag to the first closing tag after it |
| `Tagging.TagOfIs` | crates/ozone-s3-gw/src/lib.rs:962-966 | a block without a key is no tag; without a value, the value is empty |
| `Tagging.TaggingRoundTrip` | crates/ozone-s3-gw/src/lib.rs:913-1000 | parsing a rendered tag list returns it if and only if it is within the limits, and the limit error otherwise |
| `AwsChunked.Decode` | crates/ozone-s3-gw/src/lib.rs:755-787 | the de-framing loop terminates and returns the payload, the first framing error, or the overflow of a chunk's end |
| `AwsChunked.OverflowIsCutShort` | crates/ozone-s3-gw/src/lib.rs:777-779 | only a body with a chunk cut short overflows |
| `AwsChunked.FirstChunkOverflowsIff` | crates/ozone-s3-gw/src/lib.rs:764-779 | a first chunk cut short overflows if and only if header, line end and size exceed a usize, and is reported as truncated otherwise |
| `AwsChunked.LargestSizeOverflows` | crates/ozone-s3-gw/src/lib.rs:772-777 | a body that announces ffffffffffffffff bytes overflows, whatever follows |
| `AwsChunked.DecodeInvertsFraming` | crates/ozone-s3-gw/src/lib.rs:750-795 | for every list of non-empty chunks, data with line ends included, any extensions and any trailers, the payload is their concatenation |
| `AwsChunked.FramedNeverOverflows` | crates/ozone-s3-gw/src/lib.rs:750-795 | a properly framed body de-frames to its chunks and never overflows |
| `AwsChunked.HexFrameIsWellFramed` | crates/ozone-s3-gw/src/lib.rs:767-775 | a hexadecimal size, alone or with an extension, frames its data if and only if the extension holds no line end |
| `AwsChunked.AnyHexFrameIsWellFramed` | crates/ozone-s3-gw/src/lib.rs:766-773 | so does one in either case, with leading zeros or a plus sign |
| `Numerals.UpperSameValue` | crates/ozone-s3-gw/src/lib.rs:772-773 | hexadecimal digits mean the same in upper case |
| `AwsChunked.TrimIs` | crates/ozone-s3-gw/src/lib.rs:772 | white space around the size is taken off both ends |
| `AwsChunked.PayloadOfBareChunk` | crates/ozone-s3-gw/src/lib.rs:780-784 | the line end after a chunk's data may be missing |
| `AwsChunked.BadSizeLine` | crates/ozone-s3-gw/src/lib.rs:759-773 | a size line that is missing, not text or not hexadecimal is refused as such |

## Left out

- ISA-L and its bindings: `Gauss.Invert` and `Coder.RunKernel` stand for `gf_invert_matrix` and `ec_encode_data`; the SIMD tables are not modelled.
- Flat row-major matrix buffers: they are two-index arrays, and output buffers are arrays of byte sequences.
- Machine integers: `usize` and `u64` are unbounded except where the source saturates, truncates or casts; in particular overflow in `days_from_civil` on years no printed date has is not modelled.
- `Checksum.VerifyIsEquality`: assumes an ideal digest in place of CRC32C.
- `SelfHeal.RepairIsSafe`: states safety only; a block group is written once, its shards are byte vectors, and commands carry the container's own EC config. The scrub, report and delivery steps are subsumed, since a reconstruction may start at any time, on any datanode, for any slots and sources.
- `Scrub.ScrubOnce`: the store does not change during a pass.
- `Repair.Target.RebuildAbsent`: which of its end states is reached is stated for runs whose deletes succeed; a failed delete leaves the container half removed.
- `Listing.ListObjects`: assumes the key set does not change between the OM calls of one listing and that max_keys fits an i32; the HTTP layer caps it at 1000 (crates/ozone-s3-gw/src/lib.rs:312-319).
- `ObjectRead.PutThenGet`: the damage keeps a shard's record intact or drops it with its bytes intact or lost; a dropped record over rotten bytes is the finding above. Bodies are small enough for their shards to be byte vectors.
- `delete_object`, `copy_object` and the tagging of objects in the gateway: not part of this model.
- `HttpDate.DateRoundTrip`: dates before 1970 and other date formats are not part of this model.
- `AwsChunked.Decode`: UTF-8 decoding of a size field is a parameter; the round trip needs its value on ASCII only.
- `ScmQueue.CompliantScm.Heartbeat`: registration, version and the recorded requests are not modelled; the command id counter belongs to one SCM; a finding keeps the low byte of its slot.
- `Om.CompliantOm.CompleteUpload`: upload ids are their ordinals, and the MD5 rollup of part ETags is an abstract function.
- OM buckets, ListMultiPartUploadParts, ListMultipartUploads and the tagging handlers: lookups without a hard property.
- The finding latch and heartbeat loop of the datanode: reporting is not live, so there is only safety to state.
- `parse_range`, `precondition_status`, `pct_decode`, XML renderers other than tagging, configuration and error-to-status mapping: small single-function branching.
- tonic, tokio, fjall, postcard and the filesystem: partitions and chunk files are maps with atomic steps.
