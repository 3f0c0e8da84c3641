/** Enumerating a container's block groups from the surviving peers: crates/ozone-dn-server/src/repair.rs. */
module Survey {
  import opened Wrappers
  import opened ReedSolomon
  import opened Layout
  import opened Decode
  import opened MetaStore

  datatype Source = Source(slot: nat, endpoint: string)

  datatype ReconstructInput = ReconstructInput(container: nat, ec: Profile, missing: seq<nat>, sources: seq<Source>)

  /** What the peers answer: None is an unreachable peer or a failed call. A read is a verified read. */
  datatype Peers = Peers(list: (string, nat) -> Option<seq<BlockData>>, read: (string, BlockId) -> Option<seq<byte>>)

  /** One listed group of one source: its slot, the recorded length and the shard bytes, if the read succeeds. */
  datatype Visit = Visit(slot: nat, local: nat, len: nat, bytes: Option<seq<byte>>)

  /** A source that is asked at all. */
  predicate Asked(input: ReconstructInput, s: Source) {
    1 <= s.slot <= input.ec.Total() && s.slot !in input.missing
  }

  function BlockVisits(input: ReconstructInput, peers: Peers, s: Source, blocks: seq<BlockData>): (vs: seq<Visit>) {
    if blocks == [] then []
    else
      var n := |blocks| - 1;
      var bd := blocks[n];
      BlockVisits(input, peers, s, blocks[..n]) +
      if bd.groupLen.None? || bd.groupLen.value == 0 then []
      else
        var bytes := peers.read(s.endpoint, BlockId(input.container, bd.id.local, s.slot));
        [Visit(s.slot, bd.id.local, bd.groupLen.value, bytes)]
  }

  function SourceVisits(input: ReconstructInput, peers: Peers, s: Source): seq<Visit> {
    if !Asked(input, s) then []
    else match peers.list(s.endpoint, input.container)
         case None => []
         case Some(blocks) => BlockVisits(input, peers, s, blocks)
  }

  function AllVisits(input: ReconstructInput, peers: Peers, sources: seq<Source>): seq<Visit> {
    if sources == [] then []
    else AllVisits(input, peers, sources[..|sources| - 1]) + SourceVisits(input, peers, sources[|sources| - 1])
  }

  /** Shards by group, one optional buffer per slot, and the least recorded length of each group. */
  datatype Found = Found(shards: map<nat, Slots>, lengths: map<nat, nat>)

  const NOTHING := Found(map[], map[])

  function Blank(total: nat): (s: Slots)
    ensures |s| == total && forall i :: 0 <= i < total ==> s[i] == None
  {
    seq(total, _ => None)
  }

  predicate Shaped(total: nat, f: Found) {
    forall l :: l in f.shards ==> |f.shards[l]| == total
  }

  predicate InRange(total: nat, vs: seq<Visit>) {
    forall i :: 0 <= i < |vs| ==> 1 <= vs[i].slot <= total
  }

  function Absorb(total: nat, f: Found, v: Visit): (g: Found)
    requires Shaped(total, f) && 1 <= v.slot <= total
    ensures Shaped(total, g)
  {
    var lengths := f.lengths[v.local := if v.local in f.lengths then Min(f.lengths[v.local], v.len) else v.len];
    if v.bytes.None? then Found(f.shards, lengths)
    else
      var slots := if v.local in f.shards then f.shards[v.local] else Blank(total);
      Found(f.shards[v.local := slots[v.slot - 1 := v.bytes]], lengths)
  }

  function AbsorbAll(total: nat, vs: seq<Visit>): (f: Found)
    requires InRange(total, vs)
    ensures Shaped(total, f)
  {
    if vs == [] then NOTHING else Absorb(total, AbsorbAll(total, vs[..|vs| - 1]), vs[|vs| - 1])
  }

  lemma {:induction false} VisitsInRange(input: ReconstructInput, peers: Peers, s: Source, blocks: seq<BlockData>)
    requires Asked(input, s)
    ensures InRange(input.ec.Total(), BlockVisits(input, peers, s, blocks))
  {
    if blocks != [] { VisitsInRange(input, peers, s, blocks[..|blocks| - 1]); }
  }

  lemma {:induction false} AllVisitsInRange(input: ReconstructInput, peers: Peers, sources: seq<Source>)
    ensures InRange(input.ec.Total(), AllVisits(input, peers, sources))
  {
    if sources != [] {
      var s := sources[|sources| - 1];
      AllVisitsInRange(input, peers, sources[..|sources| - 1]);
      if Asked(input, s) {
        match peers.list(s.endpoint, input.container)
        case None =>
        case Some(blocks) => VisitsInRange(input, peers, s, blocks);
      }
    }
  }

  /** What the peers' answers amount to. */
  function SurveyOf(input: ReconstructInput, peers: Peers): Found {
    AllVisitsInRange(input, peers, input.sources);
    AbsorbAll(input.ec.Total(), AllVisits(input, peers, input.sources))
  }

  // ---- what a survey knows ----

  /** Every buffer found was read from the source holding that slot. */
  lemma {:induction false} ShardsWereRead(total: nat, vs: seq<Visit>, l: nat, i: nat)
    requires InRange(total, vs) && l in AbsorbAll(total, vs).shards && i < total
      && AbsorbAll(total, vs).shards[l][i].Some?
    ensures exists n ::
      0 <= n < |vs| && vs[n].local == l && vs[n].slot == i + 1 && vs[n].bytes == AbsorbAll(total, vs).shards[l][i]
  {
    var n := |vs| - 1;
    var f, v := AbsorbAll(total, vs[..n]), vs[n];
    if v.bytes.Some? && v.local == l && v.slot == i + 1 {
    } else {
      ShardsWereRead(total, vs[..n], l, i);
      var k :| 0 <= k < n && vs[..n][k].local == l && vs[..n][k].slot == i + 1 && vs[..n][k].bytes == f.shards[l][i];
      assert vs[k] == vs[..n][k];
    }
  }

  /** The last buffer delivered for the slot of the group. */
  function LastRead(vs: seq<Visit>, l: nat, slot: nat): Option<seq<byte>> {
    if vs == [] then None
    else
      var v := vs[|vs| - 1];
      if v.local == l && v.slot == slot && v.bytes.Some? then v.bytes else LastRead(vs[..|vs| - 1], l, slot)
  }

  /** Under each slot the survey holds exactly the last buffer a source delivered for it. */
  lemma {:induction false} ReadsWereKept(total: nat, vs: seq<Visit>, l: nat, i: nat)
    requires InRange(total, vs) && i < total
    ensures var shards := AbsorbAll(total, vs).shards;
            LastRead(vs, l, i + 1) == if l in shards then shards[l][i] else None
  {
    if vs != [] {
      ReadsWereKept(total, vs[..|vs| - 1], l, i);
    }
  }

  /** The recorded length is the minimum over the sources that list the group. */
  lemma {:induction false} LengthIsMinimum(total: nat, vs: seq<Visit>, l: nat)
    requires InRange(total, vs)
    ensures l in AbsorbAll(total, vs).lengths <==> exists n :: 0 <= n < |vs| && vs[n].local == l
    ensures l in AbsorbAll(total, vs).lengths ==>
      && (exists n :: 0 <= n < |vs| && vs[n].local == l && vs[n].len == AbsorbAll(total, vs).lengths[l])
      && (forall n :: 0 <= n < |vs| && vs[n].local == l ==> AbsorbAll(total, vs).lengths[l] <= vs[n].len)
    ensures l in AbsorbAll(total, vs).shards ==> l in AbsorbAll(total, vs).lengths
  {
    if vs != [] {
      var n := |vs| - 1;
      LengthIsMinimum(total, vs[..n], l);
      assert forall k :: 0 <= k < n ==> vs[..n][k] == vs[k];
      var f := AbsorbAll(total, vs[..n]);
      if l in f.lengths {
        var k :| 0 <= k < n && vs[..n][k].local == l && vs[..n][k].len == f.lengths[l];
        assert vs[k].local == l && vs[k].len == f.lengths[l];
      }
    }
  }

  // ---- the gathering loops ----

  method SurveySource(input: ReconstructInput, peers: Peers, s: Source, ghost vs: seq<Visit>, before: Found)
      returns (f: Found)
    requires InRange(input.ec.Total(), vs) && before == AbsorbAll(input.ec.Total(), vs)
    ensures InRange(input.ec.Total(), vs + SourceVisits(input, peers, s))
    ensures f == AbsorbAll(input.ec.Total(), vs + SourceVisits(input, peers, s))
  {
    hide Absorb;
    var total := input.ec.Total();
    f := before;
    assert vs + [] == vs;
    if s.slot == 0 || s.slot > total || s.slot in input.missing {
      return;
    }
    var listed := peers.list(s.endpoint, input.container);
    if listed.None? {
      return;
    }
    var blocks := listed.value;
    for i := 0 to |blocks|
      invariant InRange(total, vs + BlockVisits(input, peers, s, blocks[..i]))
      invariant f == AbsorbAll(total, vs + BlockVisits(input, peers, s, blocks[..i]))
    {
      hide BlockVisits, AbsorbAll;
      var bd := blocks[i];
      ghost var done := vs + BlockVisits(input, peers, s, blocks[..i]);
      NextVisit(input, peers, s, blocks, i, vs);
      if bd.groupLen.None? || bd.groupLen.value == 0 {
        continue;
      }
      var v := Visit(s.slot, bd.id.local, bd.groupLen.value,
        peers.read(s.endpoint, BlockId(input.container, bd.id.local, s.slot)));
      AbsorbNext(total, done, v);
      f := AbsorbVisit(total, f, v);
    }
    assert blocks[..|blocks|] == blocks;
  }

  lemma NextVisit(input: ReconstructInput, peers: Peers, s: Source, blocks: seq<BlockData>, i: nat, vs: seq<Visit>)
    requires i < |blocks|
    ensures var bd, before := blocks[i], vs + BlockVisits(input, peers, s, blocks[..i]);
            vs + BlockVisits(input, peers, s, blocks[..i + 1]) ==
            if bd.groupLen.None? || bd.groupLen.value == 0 then before
            else
              var bytes := peers.read(s.endpoint, BlockId(input.container, bd.id.local, s.slot));
              before + [Visit(s.slot, bd.id.local, bd.groupLen.value, bytes)]
  {
    assert blocks[..i + 1][..i] == blocks[..i];
  }

  lemma AbsorbNext(total: nat, done: seq<Visit>, v: Visit)
    requires InRange(total, done) && 1 <= v.slot <= total
    ensures InRange(total, done + [v]) && AbsorbAll(total, done + [v]) == Absorb(total, AbsorbAll(total, done), v)
  {
    assert (done + [v])[..|done|] == done;
  }

  /** Lower the group's length and store the shard read, if any. */
  method AbsorbVisit(total: nat, f: Found, v: Visit) returns (g: Found)
    requires Shaped(total, f) && 1 <= v.slot <= total
    ensures g == Absorb(total, f, v)
  {
    var lengths, shards := f.lengths, f.shards;
    if v.local in lengths {
      lengths := lengths[v.local := Min(lengths[v.local], v.len)];
    } else {
      lengths := lengths[v.local := v.len];
    }
    if v.bytes.Some? {
      if v.local !in shards {
        shards := shards[v.local := Blank(total)];
      }
      shards := shards[v.local := shards[v.local][v.slot - 1 := v.bytes]];
    }
    g := Found(shards, lengths);
  }

  method Gather(input: ReconstructInput, peers: Peers) returns (f: Found)
    ensures f == SurveyOf(input, peers)
  {
    hide SourceVisits, AbsorbAll;
    AbsorbNone(input.ec.Total());
    f := NOTHING;
    for i := 0 to |input.sources|
      invariant InRange(input.ec.Total(), AllVisits(input, peers, input.sources[..i]))
      invariant f == AbsorbAll(input.ec.Total(), AllVisits(input, peers, input.sources[..i]))
    {
      assert input.sources[..i + 1][..i] == input.sources[..i];
      f := SurveySource(input, peers, input.sources[i], AllVisits(input, peers, input.sources[..i]), f);
    }
    assert input.sources[..|input.sources|] == input.sources;
  }

  lemma AbsorbNone(total: nat)
    ensures AbsorbAll(total, []) == NOTHING
  {}
}
