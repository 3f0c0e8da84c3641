/** The SCM's command queue: crates/test-fixtures/src/compliant_scm.rs. Unhealthy reports become
    reconstruct commands, and each heartbeat drains the commands that target its datanode. */
module ScmQueue {
  import opened Wrappers
  import opened Layout

  /** A survivor and its slot; without a replication port it cannot be dialled. */
  datatype Replica = Replica(slot: int, endpoint: Option<string>)

  datatype Fixture = Fixture(sources: seq<Replica>, ec: Profile)

  datatype Command =
    | ReconstructEc(id: nat, container: int, sources: seq<Replica>, targets: seq<Option<string>>,
      missing: seq<nat>, ec: Profile)
    | OtherCommand(id: nat, kind: nat)

  datatype Report = Report(container: int, unhealthy: bool, slot: int)

  /** A container and the slot reported unhealthy in it. */
  type Finding = (int, int)

  /** A reconstruct goes only to a datanode it names; any other command goes to whoever asks. */
  predicate Targets(c: Command, uuid: string) {
    c.ReconstructEc? ==> Some(uuid) in c.targets
  }

  /** The wire form keeps the low byte of the slot. */
  function Synthesize(pipe: Fixture, id: nat, f: Finding, uuid: string): Command {
    ReconstructEc(id, f.0, pipe.sources, [Some(uuid)], [f.1 % 256], pipe.ec)
  }

  datatype Scm = Scm(pending: seq<Command>, issued: set<Finding>, nextId: nat)

  // ---- one heartbeat ----

  function MintOne(pipe: Fixture, s: Scm, uuid: string, r: Report): Scm {
    if !r.unhealthy || (r.container, r.slot) in s.issued then s
    else
      var f := (r.container, r.slot);
      Scm(s.pending + [Synthesize(pipe, s.nextId, f, uuid)], s.issued + {f}, s.nextId + 1)
  }

  function Mint(pipe: Fixture, s: Scm, uuid: string, reports: seq<Report>): Scm {
    if reports == [] then s
    else MintOne(pipe, Mint(pipe, s, uuid, reports[..|reports| - 1]), uuid, reports[|reports| - 1])
  }

  function MintIf(pipe: Option<Fixture>, s: Scm, uuid: string, reports: seq<Report>): Scm {
    match pipe
    case None => s
    case Some(p) => Mint(p, s, uuid, reports)
  }

  /** The queued commands that do, or do not, target this datanode, in queue order. */
  function Sift(q: seq<Command>, uuid: string, want: bool): seq<Command> {
    if q == [] then []
    else Sift(q[..|q| - 1], uuid, want) + (if Targets(q[|q| - 1], uuid) == want then [q[|q| - 1]] else [])
  }

  function Beat(pipe: Option<Fixture>, s: Scm, uuid: string, reports: seq<Report>): (Scm, seq<Command>) {
    var m := MintIf(pipe, s, uuid, reports);
    (m.(pending := Sift(m.pending, uuid, false)), Sift(m.pending, uuid, true))
  }

  class CompliantScm {
    const pipe: Option<Fixture>
    var pending: seq<Command>
    var issued: set<Finding>
    var nextId: nat

    function View(): Scm
      reads this
    {
      Scm(pending, issued, nextId)
    }

    constructor (pipe: Option<Fixture>, commands: seq<Command>)
      ensures this.pipe == pipe && View() == Scm(commands, {}, 1)
    {
      this.pipe, pending, issued, nextId := pipe, commands, {}, 1;
    }

    method Enqueue(c: Command)
      modifies this
      ensures View() == old(View()).(pending := old(pending) + [c])
    {
      pending := pending + [c];
    }

    method Heartbeat(uuid: string, reports: seq<Report>) returns (commands: seq<Command>)
      modifies this
      ensures (View(), commands) == Beat(pipe, old(View()), uuid, reports)
    {
      if pipe.Some? {
        for i := 0 to |reports|
          invariant View() == Mint(pipe.value, old(View()), uuid, reports[..i])
        {
          var r := reports[i];
          assert reports[..i + 1][..i] == reports[..i];
          if !r.unhealthy {
            continue;
          }
          if (r.container, r.slot) in issued {
            continue;
          }
          issued := issued + {(r.container, r.slot)};
          pending := pending + [Synthesize(pipe.value, nextId, (r.container, r.slot), uuid)];
          nextId := nextId + 1;
        }
        assert reports[..|reports|] == reports;
      }
      ghost var q := pending;
      ghost var before := View();
      var keep, n := [], 0;
      commands := [];
      while pending != []
        invariant n + |pending| == |q| && pending == q[n..]
        invariant View() == before.(pending := pending)
        invariant keep == Sift(q[..n], uuid, false) && commands == Sift(q[..n], uuid, true)
        decreases |pending|
      {
        var c := pending[0];
        pending := pending[1..];
        assert q[..n + 1][..n] == q[..n];
        if Targets(c, uuid) {
          commands := commands + [c];
        } else {
          keep := keep + [c];
        }
        n := n + 1;
      }
      assert q[..n] == q;
      pending := keep;
    }
  }

  // ---- interleaved heartbeats, step by step ----

  /** Every command ever queued, what it was minted for, and who took it. */
  datatype Entry = Entry(cmd: Command, minted: Option<Finding>, taken: Option<string>)

  /** A finding a heartbeat has marked as issued but not yet queued a command for. */
  datatype Claimed = Claimed(finding: Finding, uuid: string)

  /** The queue, the claims under way, and the history of the queue; the history guides no step. */
  datatype Machine = Machine(scm: Scm, flight: seq<Claimed>, log: seq<Entry>)

  /** The lock-protected steps heartbeats are made of, in any interleaving. */
  datatype Event = Queue(cmd: Command) | Claim(uuid: string, report: Report) | Push(n: nat) | Drain(uuid: string)

  function Step(pipe: Option<Fixture>, w: Machine, e: Event): Machine {
    match e
    case Queue(c) => Machine(w.scm.(pending := w.scm.pending + [c]), w.flight, w.log + [Entry(c, None, None)])
    case Claim(uuid, r) =>
      if pipe.None? || !r.unhealthy || (r.container, r.slot) in w.scm.issued then w
      else
        var f := (r.container, r.slot);
        Machine(w.scm.(issued := w.scm.issued + {f}), w.flight + [Claimed(f, uuid)], w.log)
    case Push(n) =>
      if pipe.None? || n >= |w.flight| then w
      else
        var f := w.flight[n];
        var cmd := Synthesize(pipe.value, w.scm.nextId, f.finding, f.uuid);
        Machine(Scm(w.scm.pending + [cmd], w.scm.issued, w.scm.nextId + 1), w.flight[..n] + w.flight[n + 1..],
          w.log + [Entry(cmd, Some(f.finding), None)])
    case Drain(uuid) => Machine(w.scm.(pending := Sift(w.scm.pending, uuid, false)), w.flight, Take(w.log, uuid))
  }

  /** What a drain answers with. */
  function Answer(w: Machine, e: Event): seq<Command> {
    if e.Drain? then Sift(w.scm.pending, e.uuid, true) else []
  }

  const INITIAL := Machine(Scm([], {}, 1), [], [])

  function Run(pipe: Option<Fixture>, events: seq<Event>): Machine {
    if events == [] then INITIAL else Step(pipe, Run(pipe, events[..|events| - 1]), events[|events| - 1])
  }

  /** The datanode takes every waiting command that targets it. */
  function Take(l: seq<Entry>, uuid: string): (r: seq<Entry>)
    ensures |r| == |l|
  {
    seq(|l|, i requires 0 <= i < |l| => if Due(l[i], uuid) then l[i].(taken := Some(uuid)) else l[i])
  }

  predicate Due(e: Entry, uuid: string) {
    e.taken.None? && Targets(e.cmd, uuid)
  }

  function Waiting(l: seq<Entry>): seq<Command> {
    if l == [] then [] else Waiting(l[..|l| - 1]) + (if l[|l| - 1].taken.None? then [l[|l| - 1].cmd] else [])
  }

  // ---- one heartbeat alone ----

  /** The steps of a heartbeat: each report is claimed and queued, then the queue is drained. */
  function Steps(uuid: string, reports: seq<Report>): seq<Event> {
    if reports == [] then [] else Steps(uuid, reports[..|reports| - 1]) + [Claim(uuid, reports[|reports| - 1]), Push(0)]
  }

  function After(pipe: Option<Fixture>, w: Machine, events: seq<Event>): Machine {
    if events == [] then w else Step(pipe, After(pipe, w, events[..|events| - 1]), events[|events| - 1])
  }

  lemma AfterTwo(pipe: Option<Fixture>, w: Machine, events: seq<Event>, a: Event, b: Event)
    ensures After(pipe, w, events + [a, b]) == Step(pipe, Step(pipe, After(pipe, w, events), a), b)
  {
    assert (events + [a, b])[..|events| + 1] == events + [a];
    assert (events + [a])[..|events|] == events;
    hide Step;
  }

  lemma {:induction false} StepsMint(pipe: Option<Fixture>, w: Machine, uuid: string, reports: seq<Report>)
    requires w.flight == []
    ensures var t := After(pipe, w, Steps(uuid, reports)); t.flight == [] && t.scm == MintIf(pipe, w.scm, uuid, reports)
  {
    if reports != [] {
      var init, r := reports[..|reports| - 1], reports[|reports| - 1];
      StepsMint(pipe, w, uuid, init);
      AfterTwo(pipe, w, Steps(uuid, init), Claim(uuid, r), Push(0));
      hide After, Steps;
      var u := After(pipe, w, Steps(uuid, init));
      var v := Step(pipe, u, Claim(uuid, r));
      assert v == u || v.flight == [Claimed((r.container, r.slot), uuid)];
    }
  }

  /** Undisturbed, those steps are the heartbeat: the same queue afterwards, and the same answer. */
  lemma BeatIsSteps(pipe: Option<Fixture>, w: Machine, uuid: string, reports: seq<Report>)
    requires w.flight == []
    ensures var t := After(pipe, w, Steps(uuid, reports));
            Beat(pipe, w.scm, uuid, reports) == (Step(pipe, t, Drain(uuid)).scm, Answer(t, Drain(uuid)))
  {
    StepsMint(pipe, w, uuid, reports);
    hide After, Steps, MintIf, Take;
  }

  // ---- the queue follows the history ----

  ghost predicate MintedFor(l: seq<Entry>, f: Finding) {
    exists i :: 0 <= i < |l| && l[i].minted == Some(f)
  }

  ghost predicate Flying(flight: seq<Claimed>, f: Finding) {
    exists n :: 0 <= n < |flight| && flight[n].finding == f
  }

  /** The queue is the untaken commands in order; the findings issued are those minted and those under way. */
  ghost predicate Follows(w: Machine) {
    w.scm.pending == Waiting(w.log) && forall f :: f in w.scm.issued <==> MintedFor(w.log, f) || Flying(w.flight, f)
  }

  lemma {:induction false} WaitingAfterTake(l: seq<Entry>, uuid: string)
    ensures Waiting(Take(l, uuid)) == Sift(Waiting(l), uuid, false)
  {
    if l != [] {
      var n := |l| - 1;
      WaitingAfterTake(l[..n], uuid);
      assert Take(l, uuid)[..n] == Take(l[..n], uuid);
      if l[n].taken.None? {
        assert Waiting(l)[..|Waiting(l)| - 1] == Waiting(l[..n]);
      } else {
        assert Waiting(l) == Waiting(l[..n]);
      }
    }
  }

  lemma WaitingSnoc(l: seq<Entry>, e: Entry)
    requires e.taken.None?
    ensures Waiting(l + [e]) == Waiting(l) + [e.cmd]
  {
    assert (l + [e])[..|l|] == l;
  }

  lemma MintedSnoc(l: seq<Entry>, e: Entry, f: Finding)
    ensures MintedFor(l + [e], f) <==> MintedFor(l, f) || e.minted == Some(f)
  {
    var m := l + [e];
    assert m[|l|] == e && forall i :: 0 <= i < |l| ==> m[i] == l[i];
  }

  lemma MintedTake(l: seq<Entry>, uuid: string, f: Finding)
    ensures MintedFor(Take(l, uuid), f) <==> MintedFor(l, f)
  {
    var t := Take(l, uuid);
    assert forall i :: 0 <= i < |l| ==> t[i].minted == l[i].minted;
  }

  lemma FlyingChanges(flight: seq<Claimed>, c: Claimed, n: nat, f: Finding)
    ensures Flying(flight + [c], f) <==> Flying(flight, f) || c.finding == f
    ensures n < |flight| ==> (Flying(flight, f) <==> Flying(flight[..n] + flight[n + 1..], f) || flight[n].finding == f)
  {
    var more := flight + [c];
    assert more[|flight|] == c && forall i :: 0 <= i < |flight| ==> more[i] == flight[i];
    if n < |flight| {
      var less := flight[..n] + flight[n + 1..];
      assert forall i :: 0 <= i < |less| ==> less[i] == if i < n then flight[i] else flight[i + 1];
      assert forall i :: 0 <= i < |flight| && i != n ==> flight[i] == less[if i < n then i else i - 1];
    }
  }

  lemma StepFollows(pipe: Option<Fixture>, w: Machine, e: Event)
    requires Follows(w)
    ensures Follows(Step(pipe, w, e))
  {
    var t := Step(pipe, w, e);
    hide Waiting, MintedFor, Flying, Sift, Take;
    match e
    case Queue(c) =>
      WaitingSnoc(w.log, Entry(c, None, None));
      forall f ensures MintedFor(t.log, f) <==> MintedFor(w.log, f) { MintedSnoc(w.log, Entry(c, None, None), f); }
    case Claim(uuid, r) =>
      forall f ensures Flying(w.flight + [Claimed((r.container, r.slot), uuid)], f) <==>
        Flying(w.flight, f) || (r.container, r.slot) == f {
        FlyingChanges(w.flight, Claimed((r.container, r.slot), uuid), 0, f);
      }
    case Push(n) =>
      if t != w {
        var entry := t.log[|w.log|];
        WaitingSnoc(w.log, entry);
        forall f ensures MintedFor(t.log, f) || Flying(t.flight, f) <==> MintedFor(w.log, f) || Flying(w.flight, f) {
          MintedSnoc(w.log, entry, f);
          FlyingChanges(w.flight, w.flight[n], n, f);
        }
      }
    case Drain(uuid) =>
      WaitingAfterTake(w.log, uuid);
      forall f ensures MintedFor(t.log, f) <==> MintedFor(w.log, f) { MintedTake(w.log, uuid, f); }
  }

  /** In every interleaving the queue holds exactly the untaken commands, in the order they were queued. */
  lemma {:induction false} RunFollows(pipe: Option<Fixture>, events: seq<Event>)
    ensures Follows(Run(pipe, events))
  {
    if events != [] {
      hide Follows, Step;
      RunFollows(pipe, events[..|events| - 1]);
      StepFollows(pipe, Run(pipe, events[..|events| - 1]), events[|events| - 1]);
    }
  }

  // ---- what the answers deliver ----

  /** The history's entries the datanode is due, by position. */
  function DueNow(l: seq<Entry>, uuid: string): (r: seq<nat>)
    ensures forall i :: 0 <= i < |r| ==> r[i] < |l|
    ensures forall k: nat :: k in r <==> k < |l| && Due(l[k], uuid)
    ensures forall i, j :: 0 <= i < j < |r| ==> r[i] < r[j]
  {
    if l == [] then []
    else DueNow(l[..|l| - 1], uuid) + if Due(l[|l| - 1], uuid) then [|l| - 1] else []
  }

  function CommandsAt(l: seq<Entry>, ks: seq<nat>): (r: seq<Command>)
    requires forall k :: k in ks ==> k < |l|
    ensures |r| == |ks|
  {
    seq(|ks|, i requires 0 <= i < |ks| => assert ks[i] in ks; l[ks[i]].cmd)
  }

  lemma {:induction false} AnswerIsDue(l: seq<Entry>, uuid: string)
    ensures Sift(Waiting(l), uuid, true) == CommandsAt(l, DueNow(l, uuid))
  {
    if l != [] {
      var n := |l| - 1;
      var init, e := l[..n], l[n];
      AnswerIsDue(init, uuid);
      CommandsOfPrefix(l, n, DueNow(init, uuid), DueNow(l, uuid), uuid);
      SiftSnoc(Waiting(init), e.cmd, uuid, true);
      hide Sift, Targets, CommandsAt;
      if e.taken.Some? {
        assert Waiting(l) == Waiting(init);
      }
    }
  }

  /** The commands of the entries due before the last one, and its own if it is due. */
  lemma CommandsOfPrefix(l: seq<Entry>, n: nat, ks: seq<nat>, all: seq<nat>, uuid: string)
    requires n + 1 == |l| && all == ks + if Due(l[n], uuid) then [n] else []
    requires (forall k :: k in ks ==> k < n) && (forall k :: k in all ==> k < |l|)
    ensures CommandsAt(l, all) == CommandsAt(l[..n], ks) + if Due(l[n], uuid) then [l[n].cmd] else []
  {
    hide Due;
    forall i | 0 <= i < |ks| ensures CommandsAt(l, all)[i] == CommandsAt(l[..n], ks)[i] {
      assert ks[i] in ks;
    }
  }

  /** The entries the n-th event delivers. */
  function Served(pipe: Option<Fixture>, events: seq<Event>, n: nat): seq<nat>
    requires n < |events|
  {
    if events[n].Drain? then DueNow(Run(pipe, events[..n]).log, events[n].uuid) else []
  }

  /** The history only grows; an entry keeps its command, and once taken it stays taken by the same datanode. */
  ghost predicate Extends(l: seq<Entry>, m: seq<Entry>) {
    |l| <= |m| && forall i :: 0 <= i < |l| ==> SameEntry(l[i], m[i])
  }

  predicate SameEntry(a: Entry, b: Entry) {
    a.cmd == b.cmd && a.minted == b.minted && (a.taken.Some? ==> b.taken == a.taken)
  }

  lemma {:induction false} HistoryExtends(pipe: Option<Fixture>, events: seq<Event>, n: nat)
    requires n <= |events|
    ensures Extends(Run(pipe, events[..n]).log, Run(pipe, events).log)
  {
    if n == |events| {
      assert events[..n] == events;
    } else {
      var init := events[..|events| - 1];
      HistoryExtends(pipe, init, n);
      assert init[..n] == events[..n];
      StepExtends(pipe, Run(pipe, init), events[|events| - 1]);
      hide Step;
    }
  }

  lemma StepExtends(pipe: Option<Fixture>, w: Machine, e: Event)
    ensures Extends(w.log, Step(pipe, w, e).log)
  {}

  /** Every answer is the commands of the entries it delivers, in the order they were queued; each of them names the
      datanode that asked, and stays marked as taken by it. */
  lemma AnswersAreServed(pipe: Option<Fixture>, events: seq<Event>, n: nat)
    requires n < |events|
    ensures forall k :: k in Served(pipe, events, n) ==> k < |Run(pipe, events).log|
    ensures Answer(Run(pipe, events[..n]), events[n]) == CommandsAt(Run(pipe, events).log, Served(pipe, events, n))
    ensures forall k :: k in Served(pipe, events, n) ==>
      var e := Run(pipe, events).log[k];
      events[n].Drain? && e.taken == Some(events[n].uuid) && Targets(e.cmd, events[n].uuid)
  {
    var w, l := Run(pipe, events[..n]), Run(pipe, events).log;
    RunFollows(pipe, events[..n]);
    HistoryExtends(pipe, events, n);
    HistoryExtends(pipe, events, n + 1);
    assert events[..n + 1][..n] == events[..n];
    assert Run(pipe, events[..n + 1]) == Step(pipe, w, events[n]);
    if events[n].Drain? {
      hide Run, Waiting, Sift, Targets;
      AnswerIsDue(w.log, events[n].uuid);
      SameCommands(w.log, l, DueNow(w.log, events[n].uuid));
      hide DueNow;
      forall k | k in Served(pipe, events, n) ensures l[k].taken == Some(events[n].uuid)
        && Targets(l[k].cmd, events[n].uuid) {
        assert Take(w.log, events[n].uuid)[k].taken == Some(events[n].uuid);
      }
    }
  }

  lemma SameCommands(l: seq<Entry>, m: seq<Entry>, ks: seq<nat>)
    requires Extends(l, m) && forall k :: k in ks ==> k < |l|
    ensures forall k :: k in ks ==> k < |m|
    ensures CommandsAt(l, ks) == CommandsAt(m, ks)
  {
    forall i | 0 <= i < |ks| ensures CommandsAt(l, ks)[i] == CommandsAt(m, ks)[i] {
      assert ks[i] in ks;
      assert SameEntry(l[ks[i]], m[ks[i]]);
    }
  }

  /** No two answers deliver the same entry. */
  lemma ServedOnce(pipe: Option<Fixture>, events: seq<Event>, n: nat, m: nat, k: nat)
    requires n < m < |events| && k in Served(pipe, events, n)
    ensures k !in Served(pipe, events, m)
  {
    hide Run, CommandsAt, Answer, Targets, DueNow;
    var before := events[..m];
    assert before[..n] == events[..n] && before[n] == events[n];
    assert Served(pipe, before, n) == Served(pipe, events, n);
    AnswersAreServed(pipe, before, n);
    assert Run(pipe, before).log[k].taken.Some?;
  }

  /** Whatever is taken was delivered by an answer to the datanode that took it. */
  lemma {:induction false} TakenWasServed(pipe: Option<Fixture>, events: seq<Event>, k: nat)
    requires k < |Run(pipe, events).log| && Run(pipe, events).log[k].taken.Some?
    ensures exists n :: 0 <= n < |events| && k in Served(pipe, events, n)
  {
    if events != [] {
      var last := |events| - 1;
      var init := events[..last];
      var w := Run(pipe, init);
      if k < |w.log| && w.log[k].taken.Some? {
        TakenWasServed(pipe, init, k);
        var n :| 0 <= n < |init| && k in Served(pipe, init, n);
        assert init[..n] == events[..n] && init[n] == events[n];
        assert k in Served(pipe, events, n);
      } else {
        assert k in Served(pipe, events, last);
      }
    }
  }

  /** A drain leaves nothing queued that targets the datanode. */
  lemma {:induction false} NothingLeft(q: seq<Command>, uuid: string)
    ensures forall c :: c in Sift(q, uuid, false) ==> !Targets(c, uuid)
  {
    if q != [] { NothingLeft(q[..|q| - 1], uuid); }
  }

  // ---- findings ----

  /** A minted entry is the reconstruct of its finding, for one target. */
  ghost predicate MintedRight(e: Entry) {
    e.minted.Some? ==>
      && e.cmd.ReconstructEc? && e.cmd.container == e.minted.value.0
        && e.cmd.missing == [e.minted.value.1 % 256] && |e.cmd.targets| == 1
  }

  /** No finding is minted twice, nor claimed again once minted or claimed; minted ids are distinct. */
  ghost predicate MintedOnce(w: Machine) {
    && (forall i, j :: 0 <= i < j < |w.log| && w.log[i].minted.Some? ==> w.log[i].minted != w.log[j].minted)
    && (forall n, m :: 0 <= n < m < |w.flight| ==> w.flight[n].finding != w.flight[m].finding)
    && (forall i, n :: 0 <= i < |w.log| && 0 <= n < |w.flight| ==> w.log[i].minted != Some(w.flight[n].finding))
  }

  ghost predicate IdsClimb(w: Machine) {
    && (forall i :: 0 <= i < |w.log| && w.log[i].minted.Some? ==> w.log[i].cmd.id < w.scm.nextId)
    && (forall i, j :: 0 <= i < j < |w.log| && w.log[i].minted.Some? && w.log[j].minted.Some? ==>
      w.log[i].cmd.id < w.log[j].cmd.id)
  }

  ghost predicate AllRight(w: Machine) {
    MintedOnce(w) && IdsClimb(w) && forall i :: 0 <= i < |w.log| ==> MintedRight(w.log[i])
  }

  lemma StepOnce(pipe: Option<Fixture>, w: Machine, e: Event)
    requires Follows(w) && MintedOnce(w)
    ensures MintedOnce(Step(pipe, w, e))
  {
    hide Waiting, Sift, Targets;
    var t := Step(pipe, w, e);
    if e.Push? && t != w {
      var n, f := e.n, w.flight[e.n].finding;
      assert forall i :: 0 <= i < |t.flight| ==> t.flight[i] == if i < n then w.flight[i] else w.flight[i + 1];
      assert t.log[|w.log|].minted == Some(f);
    }
    if e.Claim? && t != w {
      var f := (e.report.container, e.report.slot);
      assert !MintedFor(w.log, f) && !Flying(w.flight, f);
    }
  }

  lemma StepIds(pipe: Option<Fixture>, w: Machine, e: Event)
    requires IdsClimb(w)
    ensures IdsClimb(Step(pipe, w, e))
  {
    hide Waiting, Sift, Targets;
  }

  lemma StepRight(pipe: Option<Fixture>, w: Machine, e: Event)
    requires Follows(w) && AllRight(w)
    ensures AllRight(Step(pipe, w, e))
  {
    StepOnce(pipe, w, e);
    StepIds(pipe, w, e);
    hide MintedOnce, IdsClimb, Waiting, Sift, Targets, Follows;
    var t := Step(pipe, w, e);
    forall i | 0 <= i < |t.log| ensures MintedRight(t.log[i]) {
      if i < |w.log| { assert MintedRight(w.log[i]); }
    }
  }

  /** In every interleaving: each finding is turned into at most one command, which asks for its slot of its container,
      and synthesized commands have distinct ids. */
  lemma {:induction false} RunIsSound(pipe: Option<Fixture>, events: seq<Event>)
    ensures AllRight(Run(pipe, events))
  {
    if events != [] {
      hide AllRight, Step, Follows;
      RunIsSound(pipe, events[..|events| - 1]);
      RunFollows(pipe, events[..|events| - 1]);
      StepRight(pipe, Run(pipe, events[..|events| - 1]), events[|events| - 1]);
    }
  }

  /** No finding is delivered twice: two deliveries for one finding are one delivery of one entry. */
  lemma FindingServedOnce(pipe: Option<Fixture>, events: seq<Event>, n: nat, k: nat, m: nat, j: nat)
    requires n < |events| && m < |events| && k in Served(pipe, events, n) && j in Served(pipe, events, m)
    requires k < |Run(pipe, events).log| && j < |Run(pipe, events).log|
    requires Run(pipe, events).log[k].minted.Some? && Run(pipe, events).log[k].minted == Run(pipe, events).log[j].minted
    ensures k == j && n == m
  {
    RunIsSound(pipe, events);
    hide Run, Served;
    assert k == j;
    if n < m { ServedOnce(pipe, events, n, m, k); }
    if m < n { ServedOnce(pipe, events, m, n, k); }
  }

  // ---- conservation ----

  /** Everything answered so far. */
  function Answers(pipe: Option<Fixture>, events: seq<Event>): seq<Command> {
    if events == [] then []
    else Answers(pipe, events[..|events| - 1]) + Answer(Run(pipe, events[..|events| - 1]), events[|events| - 1])
  }

  function Commands(l: seq<Entry>): (r: seq<Command>)
    ensures |r| == |l|
  {
    seq(|l|, i requires 0 <= i < |l| => l[i].cmd)
  }

  lemma {:induction false} SiftSplits(q: seq<Command>, uuid: string)
    ensures multiset(q) == multiset(Sift(q, uuid, true)) + multiset(Sift(q, uuid, false))
  {
    if q != [] {
      var init, last := q[..|q| - 1], q[|q| - 1];
      SiftSplits(init, uuid);
      assert q == init + [last];
      SiftSnoc(init, last, uuid, true);
      SiftSnoc(init, last, uuid, false);
      hide Sift, Targets;
    }
  }

  lemma SiftSnoc(q: seq<Command>, c: Command, uuid: string, want: bool)
    ensures Sift(q + [c], uuid, want) == Sift(q, uuid, want) + if Targets(c, uuid) == want then [c] else []
  {
    assert (q + [c])[..|q|] == q;
  }

  lemma StepConserves(pipe: Option<Fixture>, w: Machine, e: Event, answered: seq<Command>)
    requires multiset(Commands(w.log)) == multiset(w.scm.pending) + multiset(answered)
    ensures var t := Step(pipe, w, e);
      multiset(Commands(t.log)) == multiset(t.scm.pending) + multiset(answered + Answer(w, e))
  {
    hide Targets, Sift, Commands;
    var t := Step(pipe, w, e);
    assert e.Drain? || answered + Answer(w, e) == answered;
    match e {
      case Queue(c) => CommandsSnoc(w.log, Entry(c, None, None));
      case Claim(_, _) =>
      case Push(n) => if t != w { CommandsSnoc(w.log, t.log[|w.log|]); }
      case Drain(uuid) => CommandsTake(w.log, uuid); SiftSplits(w.scm.pending, uuid);
    }
  }

  lemma CommandsSnoc(l: seq<Entry>, e: Entry)
    ensures Commands(l + [e]) == Commands(l) + [e.cmd]
  {}

  lemma CommandsTake(l: seq<Entry>, uuid: string)
    ensures Commands(Take(l, uuid)) == Commands(l)
  {}

  /** In every interleaving, queued plus delivered commands are exactly those enqueued. */
  lemma {:induction false} CommandsConserved(pipe: Option<Fixture>, events: seq<Event>)
    ensures multiset(Commands(Run(pipe, events).log)) == multiset(Run(pipe, events).scm.pending) +
      multiset(Answers(pipe, events))
  {
    if events != [] {
      hide Step, Commands, Answer;
      CommandsConserved(pipe, events[..|events| - 1]);
      StepConserves(pipe, Run(pipe, events[..|events| - 1]), events[|events| - 1],
        Answers(pipe, events[..|events| - 1]));
    }
  }
}
