/** How a datanode reads a reconstruct command: crates/ozone-dn-server/src/scm_compliant.rs. */
module ScmHandler {
  import opened Wrappers
  import opened Survey
  import opened ScmQueue
  import opened ScmBeats

  /** The slots paired, position by position, with this datanode. */
  function MySlots(targets: seq<Option<string>>, missing: seq<nat>, uuid: string): (r: seq<nat>)
    decreases |targets|
    ensures forall s :: s in r <==>
      exists i :: 0 <= i < |targets| && i < |missing| && targets[i] == Some(uuid) && missing[i] == s
  {
    if targets == [] || missing == [] then []
    else
      var rest := MySlots(targets[1..], missing[1..], uuid);
      assert forall i :: 1 <= i < |targets| && i < |missing| ==>
        targets[i] == targets[1..][i - 1] && missing[i] == missing[1..][i - 1];
      if targets[0] == Some(uuid) then [missing[0]] + rest else rest
  }

  /** Slots are paired position by position, and keep their order. */
  lemma {:induction false} MySlotsJoin(a: seq<Option<string>>, x: seq<nat>, b: seq<Option<string>>, y: seq<nat>,
      uuid: string)
    requires |a| == |x|
    ensures MySlots(a + b, x + y, uuid) == MySlots(a, x, uuid) + MySlots(b, y, uuid)
  {
    if a == [] {
      assert a + b == b && x + y == y;
    } else {
      MySlotsJoin(a[1..], x[1..], b, y, uuid);
      assert (a + b)[1..] == a[1..] + b && (x + y)[1..] == x[1..] + y;
    }
  }

  lemma MySlotsOne(target: Option<string>, slot: nat, uuid: string)
    ensures MySlots([target], [slot], uuid) == if target == Some(uuid) then [slot] else []
  {
    assert MySlots([target][1..], [slot][1..], uuid) == [];
  }

  /** The source is this replica, under the low byte of its slot, which is not one being rebuilt here. */
  predicate SourceOf(r: Replica, mine: seq<nat>, s: Source) {
    r.endpoint == Some(s.endpoint) && s.slot == r.slot % 256 && s.slot !in mine
  }

  /** The survivors to ask. */
  function Askable(sources: seq<Replica>, mine: seq<nat>): seq<Source> {
    if sources == [] then []
    else
      var first, rest := sources[0], Askable(sources[1..], mine);
      if first.slot % 256 in mine || first.endpoint.None? then rest
      else [Source(first.slot % 256, first.endpoint.value)] + rest
  }

  lemma AskableCons(sources: seq<Replica>, mine: seq<nat>)
    requires sources != []
    ensures Askable(sources, mine) == Askable([sources[0]], mine) + Askable(sources[1..], mine)
  {
    assert [sources[0]][1..] == [];
    assert Askable([], mine) == [];
  }

  lemma AskableOne(r: Replica, mine: seq<nat>, s: Source)
    ensures s in Askable([r], mine) <==> SourceOf(r, mine, s)
    ensures |Askable([r], mine)| <= 1
  {
    assert [r][1..] == [] && Askable([], mine) == [];
  }

  /** They are exactly those with an endpoint and a slot that is not being rebuilt here. */
  lemma {:induction false} AskableIs(sources: seq<Replica>, mine: seq<nat>, s: Source)
    ensures s in Askable(sources, mine) <==> exists i :: 0 <= i < |sources| && SourceOf(sources[i], mine, s)
  {
    if sources == [] {
      assert Askable(sources, mine) == [];
    } else {
      var rest := sources[1..];
      AskableIs(rest, mine, s);
      AskableCons(sources, mine);
      AskableOne(sources[0], mine, s);
      hide Askable, SourceOf;
      if i :| 0 <= i < |rest| && SourceOf(rest[i], mine, s) {
        assert SourceOf(sources[i + 1], mine, s);
      }
      if i :| 0 < i < |sources| && SourceOf(sources[i], mine, s) {
        assert SourceOf(rest[i - 1], mine, s);
      }
    }
  }

  lemma SourcesRegroup(a: seq<Source>, b: seq<Source>, c: seq<Source>)
    ensures a + (b + c) == a + b + c
  {}

  lemma FirstAndRest(a: seq<Replica>, b: seq<Replica>)
    requires a != []
    ensures a + b != [] && (a + b)[0] == a[0] && (a + b)[1..] == a[1..] + b
  {}

  lemma AskableNone(mine: seq<nat>)
    ensures Askable([], mine) == []
  {}

  /** They are asked in the order given: a later source of a slot overrides an earlier one. */
  lemma {:induction false} AskableJoin(a: seq<Replica>, b: seq<Replica>, mine: seq<nat>)
    ensures Askable(a + b, mine) == Askable(a, mine) + Askable(b, mine)
  {
    hide *;
    if a == [] {
      AskableNone(mine);
      assert a + b == b;
    } else {
      AskableJoin(a[1..], b, mine);
      FirstAndRest(a, b);
      AskableCons(a, mine);
      AskableCons(a + b, mine);
      SourcesRegroup(Askable([a[0]], mine), Askable(a[1..], mine), Askable(b, mine));
    }
  }

  function InputFor(c: Command, uuid: string): Option<ReconstructInput>
    requires c.ReconstructEc?
  {
    var mine := MySlots(c.targets, c.missing, uuid);
    if mine == [] then None
    else Some(ReconstructInput(c.container % 0x1_0000_0000_0000_0000, c.ec, mine, Askable(c.sources, mine)))
  }

  /** A command that pairs no slot with this datanode is not for it. */
  lemma NotMine(c: Command, uuid: string)
    requires c.ReconstructEc?
    ensures InputFor(c, uuid).None? <==>
      forall i :: 0 <= i < |c.targets| && i < |c.missing| ==> c.targets[i] != Some(uuid)
  {
    var mine := MySlots(c.targets, c.missing, uuid);
    hide MySlots;
    if mine != [] {
      assert mine[0] in mine;
    }
    forall i | 0 <= i < |c.targets| && i < |c.missing| && c.targets[i] == Some(uuid) ensures mine != [] {
      assert c.missing[i] in mine;
    }
  }

  /** The input rebuilds the finding: its slot, its container, the fixture's profile, from all of the fixture's sources
      that have an endpoint and another slot. */
  ghost predicate InputIs(pipe: Fixture, f: Finding, input: ReconstructInput) {
    && input.container == f.0 && input.missing == [f.1 % 256] && input.ec == pipe.ec
    && forall s :: s in input.sources <==>
         exists i :: 0 <= i < |pipe.sources| && SourceOf(pipe.sources[i], [f.1 % 256], s)
  }

  /** In every interleaving, whoever is answered with a synthesized command rebuilds exactly the reported slot of the
      reported container, and reported it itself. */
  lemma MintedRebuildsItsFinding(pipe: Option<Fixture>, events: seq<Event>, n: nat, k: nat)
    requires n < |events| && k in Served(pipe, events, n) && k < |Run(pipe, events).log|
      && Run(pipe, events).log[k].minted.Some?
    requires 0 <= Run(pipe, events).log[k].minted.value.0 <= 0x7FFF_FFFF_FFFF_FFFF
    ensures events[n].Drain? && Run(pipe, events).log[k].cmd.ReconstructEc? && pipe.Some?
    ensures ReportedBy(events, Run(pipe, events).log[k].minted.value, events[n].uuid)
    ensures var e := Run(pipe, events).log[k];
            var input := InputFor(e.cmd, events[n].uuid);
            input.Some? && InputIs(pipe.value, e.minted.value, input.value)
  {
    MintedWasReported(pipe, events);
    AnswersAreServed(pipe, events, n);
    hide Run, Served, CommandsAt, ReportedBy, InputIs, InputFor;
    var e := Run(pipe, events).log[k];
    assert Founded(pipe, events, e);
    var uuid :| ReportedBy(events, e.minted.value, uuid) && Rebuilds(pipe.value, e.cmd, e.minted.value, uuid);
    RebuildsItsFinding(pipe.value, e.cmd, e.minted.value, uuid);
    assert e.cmd.targets[0] == Some(uuid);
  }

  lemma RebuildsItsFinding(pipe: Fixture, c: Command, f: Finding, uuid: string)
    requires Rebuilds(pipe, c, f, uuid) && 0 <= f.0 <= 0x7FFF_FFFF_FFFF_FFFF
    ensures var input := InputFor(c, uuid); input.Some? && InputIs(pipe, f, input.value)
  {
    MySlotsOne(Some(uuid), f.1 % 256, uuid);
    hide Askable, MySlots, SourceOf;
    forall s ensures s in Askable(pipe.sources, [f.1 % 256]) <==>
      exists i :: 0 <= i < |pipe.sources| && SourceOf(pipe.sources[i], [f.1 % 256], s) {
      AskableIs(pipe.sources, [f.1 % 256], s);
    }
  }
}
