/** The Ozone Manager: block allocation, committed keys and multipart uploads. */
module Om {
  import opened Wrappers
  import opened Layout
  import opened Text

  const MIN_PART_SIZE: nat := 5 * 1024 * 1024
  const MAX_PART_NUMBER: nat := 10_000
  const DEFAULT_LIST_KEYS_LIMIT: nat := 1000

  datatype KeyName = KeyName(volume: string, bucket: string, key: string)

  datatype DatanodeSlot = DatanodeSlot(replicaIndex: nat, endpoint: string)

  datatype Pipeline = Pipeline(ec: Profile, members: seq<DatanodeSlot>)

  /** A block as a client names it: its ids and its byte extent. */
  datatype Extent = Extent(container: nat, local: nat, offset: nat, length: nat)

  datatype BlockLocation = BlockLocation(extent: Extent, pipeline: Pipeline)

  datatype KeyInfo = KeyInfo(size: nat, blocks: seq<BlockLocation>, etag: string)

  datatype Part = Part(extents: seq<Extent>, size: nat, etag: string)

  datatype Upload = Upload(name: KeyName, parts: map<nat, Part>)

  /** One entry of a complete request; an empty etag defers to the stored one. */
  datatype PartRef = PartRef(number: nat, etag: string)

  datatype KeyListing = KeyListing(key: string, size: nat, etag: string)

  datatype OmError = InvalidRequest | InvalidPart | InvalidPartOrder | EntityTooSmall
    | NoSuchMultipartUpload | KeyNotFound

  /** The one pipeline every block is placed on, and the MD5 rollup of part ETags. */
  datatype Config = Config(pipeline: Pipeline, rollup: seq<string> -> string)

  datatype OmState = OmState(keys: map<KeyName, KeyInfo>, uploads: map<nat, Upload>,
                             nextLocal: nat, nextClient: nat, nextContainer: nat, nextUpload: nat)

  const EMPTY := OmState(map[], map[], 1, 1, 1, 1)

  function Attached(pipeline: Pipeline, extents: seq<Extent>): (r: seq<BlockLocation>)
    ensures |r| == |extents|
  {
    seq(|extents|, i requires 0 <= i < |extents| => BlockLocation(extents[i], pipeline))
  }

  // ---- the operations, as functions of the state ----

  function AllocBlock(cfg: Config, s: OmState, container: nat): (OmState, BlockLocation) {
    (s.(nextLocal := s.nextLocal + 1), BlockLocation(Extent(container, s.nextLocal, 0, 0), cfg.pipeline))
  }

  function CreateKey(cfg: Config, s: OmState): (OmState, (nat, BlockLocation)) {
    var (t, block) := AllocBlock(cfg,
      s.(nextClient := s.nextClient + 1, nextContainer := s.nextContainer + 1), s.nextContainer);
    (t, (s.nextClient, block))
  }

  function CommitKey(cfg: Config, s: OmState, name: KeyName, extents: seq<Extent>, size: nat, etag: string): OmState {
    s.(keys := s.keys[name := KeyInfo(size, Attached(cfg.pipeline, extents), etag)])
  }

  function Initiate(s: OmState, name: KeyName): OmState {
    s.(uploads := s.uploads[s.nextUpload := Upload(name, map[])], nextUpload := s.nextUpload + 1)
  }

  function CommitPart(s: OmState, upload: nat, number: nat, part: Part): (OmState, Result<(), OmError>) {
    if !(1 <= number <= MAX_PART_NUMBER) then (s, Err(InvalidRequest))
    else if upload !in s.uploads then (s, Err(NoSuchMultipartUpload))
    else
      var u := s.uploads[upload];
      (s.(uploads := s.uploads[upload := u.(parts := u.parts[number := part])]), Ok(()))
  }

  predicate InOrder(refs: seq<PartRef>) {
    forall i :: 0 <= i < |refs| - 1 ==> refs[i].number < refs[i + 1].number
  }

  /** The first listed part, from the i-th on, that cannot be stitched. */
  function FirstBadPart(parts: map<nat, Part>, refs: seq<PartRef>, i: nat): Option<OmError>
    requires i <= |refs|
    decreases |refs| - i
  {
    if i == |refs| then None
    else if refs[i].number !in parts then Some(InvalidPart)
    else if i != |refs| - 1 && parts[refs[i].number].size < MIN_PART_SIZE then Some(EntityTooSmall)
    else FirstBadPart(parts, refs, i + 1)
  }

  function CompleteError(s: OmState, upload: nat, refs: seq<PartRef>): Option<OmError> {
    if refs == [] then Some(InvalidPart)
    else if !InOrder(refs) then Some(InvalidPartOrder)
    else if upload !in s.uploads then Some(NoSuchMultipartUpload)
    else FirstBadPart(s.uploads[upload].parts, refs, 0)
  }

  predicate AllListed(parts: map<nat, Part>, refs: seq<PartRef>) {
    forall i :: 0 <= i < |refs| ==> refs[i].number in parts
  }

  function StitchedExtents(parts: map<nat, Part>, refs: seq<PartRef>): seq<Extent>
    requires AllListed(parts, refs)
  {
    if refs == [] then [] else StitchedExtents(parts, refs[..|refs| - 1]) + parts[refs[|refs| - 1].number].extents
  }

  function StitchedSize(parts: map<nat, Part>, refs: seq<PartRef>): nat
    requires AllListed(parts, refs)
  {
    if refs == [] then 0 else StitchedSize(parts, refs[..|refs| - 1]) + parts[refs[|refs| - 1].number].size
  }

  function Etags(parts: map<nat, Part>, refs: seq<PartRef>): seq<string>
    requires AllListed(parts, refs)
  {
    seq(|refs|, i requires 0 <= i < |refs| => if refs[i].etag != "" then refs[i].etag else parts[refs[i].number].etag)
  }

  function Complete(cfg: Config, s: OmState, name: KeyName, upload: nat,
      refs: seq<PartRef>): (OmState, Result<string, OmError>) {
    var e := CompleteError(s, upload, refs);
    if e.Some? then (s, Err(e.value))
    else
      var parts := s.uploads[upload].parts;
      NoBadPart(parts, refs, 0);
      var etag := cfg.rollup(Etags(parts, refs));
      var info := KeyInfo(StitchedSize(parts, refs), Attached(cfg.pipeline, StitchedExtents(parts, refs)), etag);
      (s.(uploads := s.uploads - {upload}, keys := s.keys[name := info]), Ok(etag))
  }

  lemma {:induction false} NoBadPart(parts: map<nat, Part>, refs: seq<PartRef>, i: nat)
    requires i <= |refs|
    ensures FirstBadPart(parts, refs, i).None? <==>
      forall j :: i <= j < |refs| ==>
        refs[j].number in parts && (j != |refs| - 1 ==> parts[refs[j].number].size >= MIN_PART_SIZE)
    decreases |refs| - i
  {
    if i < |refs| && refs[i].number in parts && !(i != |refs| - 1 && parts[refs[i].number].size < MIN_PART_SIZE) {
      NoBadPart(parts, refs, i + 1);
    }
  }

  /** Part numbers in order are pairwise increasing. */
  lemma {:induction false} OrderIsPairwise(refs: seq<PartRef>, i: nat, j: nat)
    requires InOrder(refs) && i < j < |refs|
    ensures refs[i].number < refs[j].number
    decreases j
  {
    if i < j - 1 { OrderIsPairwise(refs, i, j - 1); }
  }

  /** The j-th listed part is there, and big enough unless it is the last. */
  predicate Usable(parts: map<nat, Part>, refs: seq<PartRef>, j: nat)
    requires j < |refs|
  {
    refs[j].number in parts && (j == |refs| - 1 || parts[refs[j].number].size >= 5 * 1024 * 1024)
  }

  /** A refused complete names the first thing wrong: the list, its order, the upload, or its first unusable part. */
  lemma CompleteErrorIs(s: OmState, upload: nat, refs: seq<PartRef>)
    ensures var e := CompleteError(s, upload, refs);
      && (refs == [] ==> e == Some(InvalidPart))
      && (refs != [] && !(forall i, j :: 0 <= i < j < |refs| ==> refs[i].number < refs[j].number) ==>
            e == Some(InvalidPartOrder))
      && (refs != [] && (forall i, j :: 0 <= i < j < |refs| ==> refs[i].number < refs[j].number) ==>
            if upload !in s.uploads then e == Some(NoSuchMultipartUpload)
            else
              var parts := s.uploads[upload].parts;
              && (e.None? <==> forall i :: 0 <= i < |refs| ==> Usable(parts, refs, i))
              && (e.Some? ==> exists i: nat :: Blamed(parts, refs, i, e.value)))
  {
    if InOrder(refs) {
      forall i, j | 0 <= i < j < |refs| ensures refs[i].number < refs[j].number { OrderIsPairwise(refs, i, j); }
    }
    if refs != [] && InOrder(refs) && upload in s.uploads {
      BadPartIs(s.uploads[upload].parts, refs, 0);
    }
  }

  /** The i-th listed part is the first unusable one, and e says why. */
  ghost predicate Blamed(parts: map<nat, Part>, refs: seq<PartRef>, i: nat, e: OmError) {
    && i < |refs| && !Usable(parts, refs, i) && (forall j: nat :: j < i ==> Usable(parts, refs, j))
    && e == if refs[i].number in parts then EntityTooSmall else InvalidPart
  }

  lemma {:induction false} BadPartIs(parts: map<nat, Part>, refs: seq<PartRef>, i: nat)
    requires i <= |refs| && forall j: nat :: j < i ==> Usable(parts, refs, j)
    ensures var e := FirstBadPart(parts, refs, i);
      && (e.None? <==> forall j: nat :: j < |refs| ==> Usable(parts, refs, j))
      && (e.Some? ==> exists j: nat :: Blamed(parts, refs, j, e.value))
    decreases |refs| - i
  {
    if i < |refs| {
      if Usable(parts, refs, i) {
        BadPartIs(parts, refs, i + 1);
      } else {
        assert Blamed(parts, refs, i, FirstBadPart(parts, refs, i).value);
      }
    }
  }

  lemma StitchNone(parts: map<nat, Part>, refs: seq<PartRef>)
    ensures AllListed(parts, refs[..0]) && StitchedExtents(parts, refs[..0]) == []
      && StitchedSize(parts, refs[..0]) == 0 && Etags(parts, refs[..0]) == []
  {}

  lemma StitchNext(parts: map<nat, Part>, refs: seq<PartRef>, i: nat)
    requires i < |refs| && AllListed(parts, refs[..i]) && refs[i].number in parts
    ensures var part := parts[refs[i].number];
            && AllListed(parts, refs[..i + 1])
            && StitchedExtents(parts, refs[..i + 1]) == StitchedExtents(parts, refs[..i]) + part.extents
            && StitchedSize(parts, refs[..i + 1]) == StitchedSize(parts, refs[..i]) + part.size
            && Etags(parts, refs[..i + 1]) == Etags(parts, refs[..i]) +
              [if refs[i].etag != "" then refs[i].etag else part.etag]
  {
    assert refs[..i + 1][..i] == refs[..i];
  }

  // ---- key listing ----

  /** The names of the bucket's keys that start with `prefix` and come after `start`. */
  ghost function Matching(keys: map<KeyName, KeyInfo>, volume: string, bucket: string, prefix: string,
      start: string): (r: set<string>)
    ensures forall k :: k in r <==> KeyName(volume, bucket, k) in keys && prefix <= k && Before(start, k)
  {
    set n | n in keys && n.volume == volume && n.bucket == bucket && prefix <= n.key && Before(start, n.key) :: n.key
  }

  ghost function Sorted(names: set<string>): (r: seq<string>)
    ensures Ascending(r) && forall k :: k in r <==> k in names
  {
    if names == {} then []
    else
      var k :| k in names;
      InsertKeeps(Sorted(names - {k}), k);
      Insert(Sorted(names - {k}), k)
  }

  function ListingsOf(keys: map<KeyName, KeyInfo>, volume: string, bucket: string,
      names: seq<string>): (r: seq<KeyListing>)
    requires forall k :: k in names ==> KeyName(volume, bucket, k) in keys
    ensures |r| == |names|
  {
    seq(|names|, i requires 0 <= i < |names| =>
      var info := keys[KeyName(volume, bucket, names[i])];
      KeyListing(names[i], info.size, info.etag))
  }

  /** The entry carries the size and the entity tag of its own key. */
  predicate EntryIs(keys: map<KeyName, KeyInfo>, volume: string, bucket: string, x: KeyListing) {
    var n := KeyName(volume, bucket, x.key);
    n in keys && x.size == keys[n].size && x.etag == keys[n].etag
  }

  function Limit(count: int): nat {
    if count > 0 then count else DEFAULT_LIST_KEYS_LIMIT
  }

  class CompliantOm {
    var keys: map<KeyName, KeyInfo>
    var uploads: map<nat, Upload>
    var nextLocal: nat
    var nextClient: nat
    var nextContainer: nat
    var nextUpload: nat
    const cfg: Config

    function View(): OmState
      reads this
    {
      OmState(keys, uploads, nextLocal, nextClient, nextContainer, nextUpload)
    }

    constructor (cfg: Config)
      ensures View() == EMPTY && this.cfg == cfg
    {
      this.cfg := cfg;
      keys, uploads, nextLocal, nextClient, nextContainer, nextUpload := map[], map[], 1, 1, 1, 1;
    }

    method Allocate(container: nat) returns (block: BlockLocation)
      modifies this
      ensures (View(), block) == AllocBlock(cfg, old(View()), container)
    {
      var id := nextLocal;
      nextLocal := nextLocal + 1;
      return BlockLocation(Extent(container, id, 0, 0), cfg.pipeline);
    }

    method Open() returns (client: nat, block: BlockLocation)
      modifies this
      ensures (View(), (client, block)) == CreateKey(cfg, old(View()))
    {
      client := nextClient;
      nextClient := nextClient + 1;
      var container := nextContainer;
      nextContainer := nextContainer + 1;
      block := Allocate(container);
    }

    method Commit(name: KeyName, extents: seq<Extent>, size: nat, etag: string)
      modifies this
      ensures View() == CommitKey(cfg, old(View()), name, extents, size, etag)
    {
      keys := keys[name := KeyInfo(size, Attached(cfg.pipeline, extents), etag)];
    }

    method GetKeyInfo(name: KeyName) returns (r: Result<KeyInfo, OmError>)
      ensures r == if name in keys then Ok(keys[name]) else Err(KeyNotFound)
    {
      r := if name in keys then Ok(keys[name]) else Err(KeyNotFound);
    }

    method InitiateUpload(name: KeyName) returns (upload: nat)
      modifies this
      ensures upload == old(nextUpload) && View() == Initiate(old(View()), name)
    {
      upload := nextUpload;
      nextUpload := nextUpload + 1;
      uploads := uploads[upload := Upload(name, map[])];
    }

    method CommitUploadPart(upload: nat, number: nat, part: Part) returns (r: Result<(), OmError>)
      modifies this
      ensures (View(), r) == CommitPart(old(View()), upload, number, part)
    {
      if !(1 <= number <= MAX_PART_NUMBER) {
        return Err(InvalidRequest);
      }
      if upload !in uploads {
        return Err(NoSuchMultipartUpload);
      }
      var u := uploads[upload];
      uploads := uploads[upload := u.(parts := u.parts[number := part])];
      return Ok(());
    }

    method CompleteUpload(name: KeyName, upload: nat, refs: seq<PartRef>) returns (r: Result<string, OmError>)
      modifies this
      ensures (View(), r) == Complete(cfg, old(View()), name, upload, refs)
    {
      if refs == [] {
        return Err(InvalidPart);
      }
      if !InOrder(refs) {
        return Err(InvalidPartOrder);
      }
      if upload !in uploads {
        return Err(NoSuchMultipartUpload);
      }
      var parts := uploads[upload].parts;
      var size, extents: seq<Extent>, etags: seq<string> := 0, [], [];
      NoBadPart(parts, refs, 0);
      hide StitchedExtents, StitchedSize, Etags;
      StitchNone(parts, refs);
      for i := 0 to |refs|
        invariant FirstBadPart(parts, refs, 0) == FirstBadPart(parts, refs, i)
        invariant AllListed(parts, refs[..i])
        invariant size == StitchedSize(parts, refs[..i])
        invariant extents == StitchedExtents(parts, refs[..i])
        invariant etags == Etags(parts, refs[..i])
        invariant View() == old(View())
      {
        if refs[i].number !in parts {
          return Err(InvalidPart);
        }
        var stored := parts[refs[i].number];
        if i != |refs| - 1 && stored.size < MIN_PART_SIZE {
          return Err(EntityTooSmall);
        }
        StitchNext(parts, refs, i);
        etags := etags + [if refs[i].etag != "" then refs[i].etag else stored.etag];
        size := size + stored.size;
        extents := extents + stored.extents;
      }
      assert refs[..|refs|] == refs;
      var etag := cfg.rollup(etags);
      uploads := uploads - {upload};
      keys := keys[name := KeyInfo(size, Attached(cfg.pipeline, extents), etag)];
      return Ok(etag);
    }

    method AbortUpload(upload: nat)
      modifies this`uploads
      ensures uploads == old(uploads) - {upload}
    {
      uploads := uploads - {upload};
    }

    /** The first `count` names after `start`, in key order. */
    method ListKeys(volume: string, bucket: string, prefix: string, start: string, count: int)
        returns (r: seq<KeyListing>)
      ensures var names := Sorted(Matching(keys, volume, bucket, prefix, start));
              r == ListingsOf(keys, volume, bucket, names[..Min(|names|, if count > 0 then count else 1000)])
      ensures forall i :: 0 <= i < |r| ==> EntryIs(keys, volume, bucket, r[i])
    {
      var todo, found := keys.Keys, [];
      while todo != {}
        invariant todo <= keys.Keys
        invariant forall i, j :: 0 <= i < j < |found| ==> found[i] != found[j]
        invariant forall k :: k in found <==>
          KeyName(volume, bucket, k) in keys.Keys - todo && prefix <= k && Before(start, k)
        decreases todo
      {
        var n :| n in todo;
        todo := todo - {n};
        if n.volume == volume && n.bucket == bucket && prefix <= n.key && Before(start, n.key) {
          found := found + [n.key];
        }
      }
      SortKeeps(found);
      var names := Sort(found);
      AscendingUnique(names, Sorted(Matching(keys, volume, bucket, prefix, start)));
      names := names[..Min(|names|, Limit(count))];
      r := ListingsOf(keys, volume, bucket, names);
    }
  }

  // ---- runs ----

  datatype Op =
    | DoCreateKey
    | DoAllocate(container: nat)
    | DoCommitKey(name: KeyName, extents: seq<Extent>, size: nat, etag: string)
    | DoDeleteKey(name: KeyName)
    | DoInitiate(name: KeyName)
    | DoCommitPart(upload: nat, number: nat, part: Part)
    | DoComplete(name: KeyName, upload: nat, refs: seq<PartRef>)
    | DoAbort(upload: nat)

  function Apply(cfg: Config, s: OmState, op: Op): OmState {
    match op
    case DoCreateKey => CreateKey(cfg, s).0
    case DoAllocate(c) => AllocBlock(cfg, s, c).0
    case DoCommitKey(name, extents, size, etag) => CommitKey(cfg, s, name, extents, size, etag)
    case DoDeleteKey(name) => s.(keys := s.keys - {name})
    case DoInitiate(name) => Initiate(s, name)
    case DoCommitPart(u, n, part) => CommitPart(s, u, n, part).0
    case DoComplete(name, u, refs) => Complete(cfg, s, name, u, refs).0
    case DoAbort(u) => s.(uploads := s.uploads - {u})
  }

  function Run(cfg: Config, s: OmState, ops: seq<Op>): OmState {
    if ops == [] then s else Apply(cfg, Run(cfg, s, ops[..|ops| - 1]), ops[|ops| - 1])
  }

  /** What the run last committed as part n of upload u. */
  function Latest(ops: seq<Op>, u: nat, n: nat): Option<Part> {
    if ops == [] then None
    else
      var op := ops[|ops| - 1];
      if op.DoCommitPart? && op.upload == u && op.number == n && 1 <= n <= MAX_PART_NUMBER then Some(op.part)
      else Latest(ops[..|ops| - 1], u, n)
  }

  /** The run's last commit of the part, if any: no later one names the same part. */
  lemma {:induction false} LatestIs(ops: seq<Op>, u: nat, n: nat)
    ensures Latest(ops, u, n).None? <==> forall i: nat :: i < |ops| ==> !Commits(ops[i], u, n)
    ensures Latest(ops, u, n).Some? ==> exists i: nat ::
      i < |ops| && Commits(ops[i], u, n) && ops[i].part == Latest(ops, u, n).value
        && forall j: nat :: i < j < |ops| ==> !Commits(ops[j], u, n)
  {
    if ops != [] {
      var m := |ops| - 1;
      LatestIs(ops[..m], u, n);
      assert forall i: nat :: i < m ==> ops[..m][i] == ops[i];
      if Commits(ops[m], u, n) {
      } else if Latest(ops[..m], u, n).Some? {
        var i: nat :| i < m && Commits(ops[..m][i], u, n) && ops[..m][i].part == Latest(ops[..m], u, n).value
          && forall j: nat :: i < j < m ==> !Commits(ops[..m][j], u, n);
        assert Commits(ops[i], u, n) && forall j: nat :: i < j < m ==> !Commits(ops[j], u, n);
      }
    }
  }

  /** The step commits part n of upload u under a number from 1 to 10000. */
  predicate Commits(op: Op, u: nat, n: nat) {
    op.DoCommitPart? && op.upload == u && op.number == n && 1 <= n <= 10_000
  }

  function Lookup(parts: map<nat, Part>, n: nat): Option<Part> {
    if n in parts then Some(parts[n]) else None
  }

  /** Upload ids are handed out once. */
  ghost predicate IdsBelow(s: OmState) {
    forall u :: u in s.uploads ==> u < s.nextUpload
  }

  lemma {:induction false} IdsStayBelow(cfg: Config, s: OmState, ops: seq<Op>)
    requires IdsBelow(s)
    ensures IdsBelow(Run(cfg, s, ops)) && s.nextUpload <= Run(cfg, s, ops).nextUpload
  {
    if ops != [] {
      IdsStayBelow(cfg, s, ops[..|ops| - 1]);
      hide StitchedExtents, StitchedSize, Etags;
    }
  }

  /** Local ids are handed out once: whatever runs in between, a later block gets a larger id. */
  lemma {:induction false} LocalIdsGrow(cfg: Config, s: OmState, ops: seq<Op>)
    ensures s.nextLocal <= Run(cfg, s, ops).nextLocal
  {
    if ops != [] {
      LocalIdsGrow(cfg, s, ops[..|ops| - 1]);
      hide StitchedExtents, StitchedSize, Etags;
    }
  }

  lemma LocalIdsAreFresh(cfg: Config, s: OmState, c: nat, ops: seq<Op>, d: nat)
    ensures var (t, first) := AllocBlock(cfg, s, c);
            first.extent.local < AllocBlock(cfg, Run(cfg, t, ops), d).1.extent.local
  {
    LocalIdsGrow(cfg, AllocBlock(cfg, s, c).0, ops);
  }

  lemma StepKeepsParts(cfg: Config, s: OmState, op: Op, u: nat)
    requires IdsBelow(s) && u < s.nextUpload && u in Apply(cfg, s, op).uploads
    ensures u in s.uploads
    ensures op.DoCommitPart? && op.upload == u && 1 <= op.number <= MAX_PART_NUMBER ==>
      Apply(cfg, s, op).uploads[u].parts == s.uploads[u].parts[op.number := op.part]
    ensures !(op.DoCommitPart? && op.upload == u && 1 <= op.number <= MAX_PART_NUMBER) ==>
      Apply(cfg, s, op).uploads[u] == s.uploads[u]
  {
    hide StitchedExtents, StitchedSize, Etags;
  }

  /** A live upload holds, part by part, what was last committed. */
  lemma {:induction false} PartsAreLatest(cfg: Config, s: OmState, ops: seq<Op>, u: nat, n: nat)
    requires IdsBelow(s) && u in s.uploads && u in Run(cfg, s, ops).uploads
    ensures Lookup(Run(cfg, s, ops).uploads[u].parts, n) == OrElse(Latest(ops, u, n), Lookup(s.uploads[u].parts, n))
  {
    if ops != [] {
      var before := ops[..|ops| - 1];
      IdsStayBelow(cfg, s, before);
      StepKeepsParts(cfg, Run(cfg, s, before), ops[|ops| - 1], u);
      PartsAreLatest(cfg, s, before, u, n);
    }
  }

  predicate LatestListed(ops: seq<Op>, u: nat, refs: seq<PartRef>) {
    forall i :: 0 <= i < |refs| ==> Latest(ops, u, refs[i].number).Some?
  }

  /** The listed parts' latest blocks, in listed order. */
  function LatestExtents(ops: seq<Op>, u: nat, refs: seq<PartRef>): seq<Extent>
    requires LatestListed(ops, u, refs)
  {
    if refs == [] then [] else Latest(ops, u, refs[0].number).value.extents + LatestExtents(ops, u, refs[1..])
  }

  function LatestSize(ops: seq<Op>, u: nat, refs: seq<PartRef>): nat
    requires LatestListed(ops, u, refs)
  {
    if refs == [] then 0 else Latest(ops, u, refs[0].number).value.size + LatestSize(ops, u, refs[1..])
  }

  /** The listed parts' entity tags: the listed one, or where that is empty the committed one. */
  function LatestEtags(ops: seq<Op>, u: nat, refs: seq<PartRef>): (r: seq<string>)
    requires LatestListed(ops, u, refs)
    ensures |r| == |refs|
  {
    seq(|refs|, i requires 0 <= i < |refs| =>
      if refs[i].etag == "" then Latest(ops, u, refs[i].number).value.etag else refs[i].etag)
  }

  lemma {:induction false} LatestSnoc(ops: seq<Op>, u: nat, refs: seq<PartRef>)
    requires refs != [] && LatestListed(ops, u, refs)
    ensures var n := |refs| - 1; var last := Latest(ops, u, refs[n].number).value;
            && LatestListed(ops, u, refs[..n])
            && LatestExtents(ops, u, refs) == LatestExtents(ops, u, refs[..n]) + last.extents
            && LatestSize(ops, u, refs) == LatestSize(ops, u, refs[..n]) + last.size
  {
    var n := |refs| - 1;
    if n > 0 {
      LatestSnoc(ops, u, refs[1..]);
      assert refs[1..][..n - 1] == refs[..n][1..];
    }
  }

  lemma {:induction false} StitchedIsLatest(parts: map<nat, Part>, ops: seq<Op>, u: nat, refs: seq<PartRef>)
    requires forall i :: 0 <= i < |refs| ==> Lookup(parts, refs[i].number) == Latest(ops, u, refs[i].number)
    requires AllListed(parts, refs)
    ensures LatestListed(ops, u, refs)
    ensures StitchedExtents(parts, refs) == LatestExtents(ops, u, refs)
    ensures StitchedSize(parts, refs) == LatestSize(ops, u, refs)
  {
    assert LatestListed(ops, u, refs);
    if refs != [] {
      LatestSnoc(ops, u, refs);
      StitchedIsLatest(parts, ops, u, refs[..|refs| - 1]);
    }
  }

  lemma EtagsAreLatest(parts: map<nat, Part>, ops: seq<Op>, u: nat, refs: seq<PartRef>)
    requires forall i :: 0 <= i < |refs| ==> Lookup(parts, refs[i].number) == Latest(ops, u, refs[i].number)
    requires AllListed(parts, refs)
    ensures LatestListed(ops, u, refs) && Etags(parts, refs) == LatestEtags(ops, u, refs)
  {
    hide Latest;
  }

  /** The upload was initiated after `before`; `ops` ran since. */
  function Since(cfg: Config, before: seq<Op>, name: KeyName, ops: seq<Op>): OmState {
    Run(cfg, Initiate(Run(cfg, EMPTY, before), name), ops)
  }

  lemma SinceParts(cfg: Config, before: seq<Op>, name: KeyName, ops: seq<Op>, n: nat)
    requires Run(cfg, EMPTY, before).nextUpload in Since(cfg, before, name, ops).uploads
    ensures var u := Run(cfg, EMPTY, before).nextUpload;
            Lookup(Since(cfg, before, name, ops).uploads[u].parts, n) == Latest(ops, u, n)
  {
    IdsStayBelow(cfg, EMPTY, before);
    var s := Run(cfg, EMPTY, before);
    PartsAreLatest(cfg, Initiate(s, name), ops, s.nextUpload, n);
  }

  predicate BigEnough(ops: seq<Op>, u: nat, refs: seq<PartRef>)
    requires LatestListed(ops, u, refs)
  {
    forall i :: 0 <= i < |refs| - 1 ==> Latest(ops, u, refs[i].number).value.size >= 5_242_880
  }

  /** A complete succeeds exactly when every listed part has a large enough latest commit,
      and then stores those commits' blocks in listed order; otherwise nothing changes. */
  lemma CompleteStitchesLatest(cfg: Config, before: seq<Op>, name: KeyName, ops: seq<Op>,
      target: KeyName, refs: seq<PartRef>)
    ensures var u := Run(cfg, EMPTY, before).nextUpload;
            var t := Since(cfg, before, name, ops);
            var (t', r) := Complete(cfg, t, target, u, refs);
            && (r.Ok? <==>
                && refs != [] && InOrder(refs) && u in t.uploads
                && LatestListed(ops, u, refs) && BigEnough(ops, u, refs))
            && (r.Err? ==> t' == t)
            && (r.Ok? ==>
                && r.value == cfg.rollup(LatestEtags(ops, u, refs))
                && t'.keys == t.keys[target := KeyInfo(LatestSize(ops, u, refs),
                  Attached(cfg.pipeline, LatestExtents(ops, u, refs)), r.value)]
                && t' == t.(keys := t'.keys, uploads := t.uploads - {u}))
  {
    var u := Run(cfg, EMPTY, before).nextUpload;
    var t := Since(cfg, before, name, ops);
    if u in t.uploads {
      var parts := t.uploads[u].parts;
      forall n ensures Lookup(parts, n) == Latest(ops, u, n) {
        SinceParts(cfg, before, name, ops, n);
      }
      hide Since, Run, Latest, Etags, LatestEtags, StitchedExtents, StitchedSize, LatestExtents, LatestSize;
      NoBadPart(parts, refs, 0);
      assert AllListed(parts, refs) <==> LatestListed(ops, u, refs);
      if AllListed(parts, refs) {
        StitchedIsLatest(parts, ops, u, refs);
        EtagsAreLatest(parts, ops, u, refs);
      }
    }
  }
}
