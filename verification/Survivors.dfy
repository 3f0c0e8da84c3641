/** Which slots the peers of a rebuild serve, told from the peers' own answers: crates/ozone-dn-server/src/repair.rs. */
module Survivors {
  import opened Wrappers
  import opened ReedSolomon
  import opened Layout
  import opened Shards
  import opened Decode
  import opened MetaStore
  import opened Survey

  /** Source x holds a slot of the group that is not itself to be rebuilt. */
  predicate Eligible(input: ReconstructInput, x: nat) {
    && x < |input.sources|
    && input.sources[x].slot >= 1 && input.sources[x].slot <= input.ec.data + input.ec.parity
    && input.sources[x].slot !in input.missing
  }

  /** Source x lists group l with the recorded length len, which is not zero. */
  ghost predicate Lists(input: ReconstructInput, peers: Peers, x: nat, l: nat, len: nat) {
    && Eligible(input, x) && len > 0
    && var listed := peers.list(input.sources[x].endpoint, input.container);
       listed.Some? && exists i :: 0 <= i < |listed.value| && Names(listed.value[i], l, len)
  }

  predicate Names(bd: BlockData, l: nat, len: nat) {
    bd.id.local == l && bd.groupLen == Some(len)
  }

  /** What source x answers when asked for its shard of group l. */
  function Answer(input: ReconstructInput, peers: Peers, x: nat, l: nat): Option<seq<byte>>
    requires x < |input.sources|
  {
    peers.read(input.sources[x].endpoint, BlockId(input.container, l, input.sources[x].slot))
  }

  /** Source x lists group l and serves its shard. */
  ghost predicate Serves(input: ReconstructInput, peers: Peers, x: nat, l: nat) {
    (exists len: nat :: Lists(input, peers, x, l, len)) && Answer(input, peers, x, l).Some?
  }

  ghost predicate SlotServed(input: ReconstructInput, peers: Peers, l: nat, t: nat) {
    exists x: nat :: Serves(input, peers, x, l) && input.sources[x].slot == t
  }

  /** The slots of group l that are served. */
  ghost function ServedSlots(input: ReconstructInput, peers: Peers, l: nat): set<nat> {
    set t | 1 <= t <= input.ec.data + input.ec.parity && SlotServed(input, peers, l, t)
  }

  ghost predicate SlotKnown(input: ReconstructInput, peers: Peers, l: nat, t: nat) {
    exists x: nat :: Eligible(input, x) && Answer(input, peers, x, l).Some? && input.sources[x].slot == t
  }

  /** The slots served when the group is asked for without listing it. */
  ghost function KnownSlots(input: ReconstructInput, peers: Peers, l: nat): set<nat> {
    set t | 1 <= t <= input.ec.data + input.ec.parity && SlotKnown(input, peers, l, t)
  }

  // ---- visits are listings ----

  /** v is what source x says about a group it lists. */
  ghost predicate VisitOf(input: ReconstructInput, peers: Peers, x: nat, v: Visit) {
    && Lists(input, peers, x, v.local, v.len)
    && v.slot == input.sources[x].slot && v.bytes == Answer(input, peers, x, v.local)
  }

  lemma {:induction false} BlockVisitIs(input: ReconstructInput, peers: Peers, s: Source, blocks: seq<BlockData>,
      v: Visit)
    ensures v in BlockVisits(input, peers, s, blocks) <==>
      && v.slot == s.slot && v.len > 0
      && v.bytes == peers.read(s.endpoint, BlockId(input.container, v.local, s.slot))
      && exists i :: 0 <= i < |blocks| && Names(blocks[i], v.local, v.len)
  {
    if blocks != [] {
      var n := |blocks| - 1;
      BlockVisitIs(input, peers, s, blocks[..n], v);
      assert (exists i :: 0 <= i < |blocks| && Names(blocks[i], v.local, v.len)) <==>
        (exists i :: 0 <= i < n && Names(blocks[..n][i], v.local, v.len)) || Names(blocks[n], v.local, v.len) by {
        forall i | 0 <= i < n ensures blocks[..n][i] == blocks[i] {}
        if (exists i :: 0 <= i < n && Names(blocks[..n][i], v.local, v.len)) {
          var i :| 0 <= i < n && Names(blocks[..n][i], v.local, v.len);
          assert Names(blocks[i], v.local, v.len);
        }
        if (exists i :: 0 <= i < |blocks| && Names(blocks[i], v.local, v.len)) {
          var i :| 0 <= i < |blocks| && Names(blocks[i], v.local, v.len);
          assert i < n ==> Names(blocks[..n][i], v.local, v.len);
        }
      }
    }
  }

  lemma SourceVisitIs(input: ReconstructInput, peers: Peers, x: nat, v: Visit)
    requires x < |input.sources|
    ensures v in SourceVisits(input, peers, input.sources[x]) <==> VisitOf(input, peers, x, v)
  {
    hide BlockVisits;
    var s := input.sources[x];
    var listed := peers.list(s.endpoint, input.container);
    if listed.Some? { BlockVisitIs(input, peers, s, listed.value, v); }
  }

  lemma {:induction false} AllVisitIs(input: ReconstructInput, peers: Peers, n: nat, v: Visit)
    requires n <= |input.sources|
    ensures v in AllVisits(input, peers, input.sources[..n]) <==> exists x: nat :: x < n && VisitOf(input, peers, x, v)
  {
    hide VisitOf, SourceVisits;
    if n > 0 {
      assert input.sources[..n][..n - 1] == input.sources[..n - 1];
      AllVisitIs(input, peers, n - 1, v);
      SourceVisitIs(input, peers, n - 1, v);
    }
  }

  /** The visits of the survey are exactly what the eligible sources list. */
  lemma VisitIs(input: ReconstructInput, peers: Peers, v: Visit)
    ensures v in AllVisits(input, peers, input.sources) <==> exists x: nat :: VisitOf(input, peers, x, v)
  {
    assert input.sources[..|input.sources|] == input.sources;
    AllVisitIs(input, peers, |input.sources|, v);
  }

  // ---- slots found are slots served ----

  lemma {:induction false} LastReadIs(vs: seq<Visit>, l: nat, slot: nat)
    ensures LastRead(vs, l, slot).Some? <==> exists v :: v in vs && v.local == l && v.slot == slot && v.bytes.Some?
  {
    if vs != [] {
      var n := |vs| - 1;
      LastReadIs(vs[..n], l, slot);
      assert forall v :: v in vs <==> v in vs[..n] || v == vs[n];
    }
  }

  /** The survey holds a buffer under a slot if and only if some source served it. */
  lemma FoundIsServed(input: ReconstructInput, peers: Peers, l: nat, i: nat)
    requires i < input.ec.Total()
    ensures var shards := SurveyOf(input, peers).shards;
      (l in shards && shards[l][i].Some?) <==> i + 1 in ServedSlots(input, peers, l)
  {
    var vs := AllVisits(input, peers, input.sources);
    AllVisitsInRange(input, peers, input.sources);
    hide AllVisits, AbsorbAll, Names;
    ReadsWereKept(input.ec.Total(), vs, l, i);
    LastReadIs(vs, l, i + 1);
    if LastRead(vs, l, i + 1).Some? {
      var v :| v in vs && v.local == l && v.slot == i + 1 && v.bytes.Some?;
      VisitIs(input, peers, v);
      var x: nat :| VisitOf(input, peers, x, v);
      assert Serves(input, peers, x, l);
    }
    if i + 1 in ServedSlots(input, peers, l) {
      assert SlotServed(input, peers, l, i + 1);
      var x: nat :| Serves(input, peers, x, l) && x < |input.sources| && input.sources[x].slot == i + 1;
      var len: nat :| Lists(input, peers, x, l, len);
      var v := Visit(i + 1, l, len, Answer(input, peers, x, l));
      assert VisitOf(input, peers, x, v);
      VisitIs(input, peers, v);
    }
  }

  /** A group is in the survey if and only if some slot of it is served. */
  lemma FoundIffServed(input: ReconstructInput, peers: Peers, l: nat)
    ensures l in SurveyOf(input, peers).shards <==> ServedSlots(input, peers, l) != {}
  {
    hide AbsorbAll, AllVisits, Serves;
    var f := SurveyOf(input, peers);
    AllVisitsInRange(input, peers, input.sources);
    if l in f.shards {
      FoundHasOne(input.ec.Total(), AllVisits(input, peers, input.sources), l);
      var i :| 0 <= i < input.ec.Total() && f.shards[l][i].Some?;
      FoundIsServed(input, peers, l, i);
    }
    if ServedSlots(input, peers, l) != {} {
      var t :| t in ServedSlots(input, peers, l);
      FoundIsServed(input, peers, l, t - 1);
    }
  }

  lemma {:induction false} FoundHasOne(total: nat, vs: seq<Visit>, l: nat)
    requires InRange(total, vs) && l in AbsorbAll(total, vs).shards
    ensures exists i :: 0 <= i < total && AbsorbAll(total, vs).shards[l][i].Some?
  {
    var n := |vs| - 1;
    var v := vs[n];
    var f := AbsorbAll(total, vs[..n]);
    if v.local == l && v.bytes.Some? {
      assert AbsorbAll(total, vs).shards[l][v.slot - 1].Some?;
    } else {
      FoundHasOne(total, vs[..n], l);
    }
  }

  /** Slot t, counted from one, holds a buffer. */
  predicate Present(slots: Slots, t: nat) {
    1 <= t <= |slots| && slots[t - 1].Some?
  }

  ghost function PresentSlots(slots: Slots, n: nat): set<nat> {
    set t | 1 <= t <= n && Present(slots, t)
  }

  lemma PresentStep(slots: Slots, n: nat)
    ensures |PresentSlots(slots, n + 1)| == |PresentSlots(slots, n)| + if Present(slots, n + 1) then 1 else 0
  {
    var before := PresentSlots(slots, n);
    assert PresentSlots(slots, n + 1) == if Present(slots, n + 1) then before + {n + 1} else before;
    assert n + 1 !in before;
  }

  lemma {:induction false} HavingCount(slots: Slots, n: nat)
    requires n <= |slots|
    ensures |Having(slots, true, n)| == |PresentSlots(slots, n)|
  {
    hide PresentSlots, Present;
    if n == 0 {
      NonePresent(slots);
    } else {
      HavingCount(slots, n - 1);
      PresentStep(slots, n - 1);
      PresentMeans(slots, n);
    }
  }

  lemma NonePresent(slots: Slots)
    ensures |PresentSlots(slots, 0)| == 0
  {
    assert PresentSlots(slots, 0) == {};
  }

  lemma PresentMeans(slots: Slots, t: nat)
    requires 1 <= t <= |slots|
    ensures Present(slots, t) <==> slots[t - 1].Some?
  {}

  /** The survey's survivors of a group are as many as its served slots. */
  lemma SurvivorCount(input: ReconstructInput, peers: Peers, l: nat)
    requires l in SurveyOf(input, peers).shards
    ensures |SurveyOf(input, peers).shards[l]| == input.ec.Total()
    ensures |Having(SurveyOf(input, peers).shards[l], true, input.ec.Total())| == |ServedSlots(input, peers, l)|
  {
    hide AbsorbAll, AllVisits, SlotServed, Having;
    var slots := SurveyOf(input, peers).shards[l];
    AllVisitsInRange(input, peers, input.sources);
    HavingCount(slots, |slots|);
    forall t | 1 <= t <= |slots| ensures Present(slots, t) <==> t in ServedSlots(input, peers, l) {
      FoundIsServed(input, peers, l, t - 1);
    }
    assert PresentSlots(slots, |slots|) == ServedSlots(input, peers, l);
  }

  // ---- truthful peers ----

  /** What the eligible sources say about group l is true of obj: no recorded length below its own, one exact,
      and every shard they serve its own. */
  ghost predicate Truthful(input: ReconstructInput, peers: Peers, l: nat, obj: seq<byte>)
    requires input.ec.Layable() && ValidConfig(input.ec.Config())
  {
    && (forall x: nat, len: nat :: Lists(input, peers, x, l, len) ==> |obj| <= len)
    && (exists x: nat :: Lists(input, peers, x, l, |obj|))
    && (forall x: nat :: Serves(input, peers, x, l) ==>
          Answer(input, peers, x, l).value == StoredShard(input.ec, obj, input.sources[x].slot - 1))
  }

  /** Every group that is listed at all is listed and served truthfully. */
  ghost predicate TruthfulAll(input: ReconstructInput, peers: Peers, objs: map<nat, seq<byte>>)
    requires input.ec.Layable() && ValidConfig(input.ec.Config())
  {
    && (forall l :: l in objs ==> Fits(input.ec, |objs[l]|) && Truthful(input, peers, l, objs[l]))
    && (forall x: nat, l: nat, len: nat :: Lists(input, peers, x, l, len) ==> l in objs)
  }
}
