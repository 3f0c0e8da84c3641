/** What a heartbeat answers, and where queued commands come from: crates/test-fixtures/src/compliant_scm.rs. */
module ScmBeats {
  import opened Wrappers
  import opened Layout
  import opened ScmQueue

  /** The command is for this datanode: it names it, or is not a reconstruct at all. */
  ghost predicate IsFor(c: Command, uuid: string) {
    c.OtherCommand? || exists i :: 0 <= i < |c.targets| && c.targets[i] == Some(uuid)
  }

  /** The command asks this datanode to rebuild the finding's slot of its container from the fixture's sources. */
  predicate Rebuilds(pipe: Fixture, c: Command, f: Finding, uuid: string) {
    && c.ReconstructEc? && c.container == f.0 && c.missing == [f.1 % 256]
    && c.targets == [Some(uuid)] && c.sources == pipe.sources && c.ec == pipe.ec
  }

  lemma TargetsIs(c: Command, uuid: string)
    ensures Targets(c, uuid) <==> IsFor(c, uuid)
  {
    if c.ReconstructEc? && Some(uuid) in c.targets {
      var i :| 0 <= i < |c.targets| && c.targets[i] == Some(uuid);
    }
  }

  // ---- one heartbeat ----

  ghost predicate Reports(reports: seq<Report>, f: Finding) {
    exists i :: 0 <= i < |reports| && reports[i] == Report(f.0, true, f.1)
  }

  lemma ReportsSnoc(reports: seq<Report>, f: Finding)
    requires reports != []
    ensures var n := |reports| - 1;
      Reports(reports, f) <==> Reports(reports[..n], f) || reports[n] == Report(f.0, true, f.1)
  {
    var n := |reports| - 1;
    if Reports(reports, f) {
      var i :| 0 <= i < |reports| && reports[i] == Report(f.0, true, f.1);
      assert i < n ==> reports[..n][i] == reports[i];
    }
    if Reports(reports[..n], f) {
      var i :| 0 <= i < n && reports[..n][i] == Report(f.0, true, f.1);
      assert reports[i] == Report(f.0, true, f.1);
    }
  }

  /** The queue from position n on holds a command for the finding. */
  ghost predicate Queued(pipe: Fixture, q: seq<Command>, n: nat, f: Finding, uuid: string) {
    exists i :: n <= i < |q| && Rebuilds(pipe, q[i], f, uuid)
  }

  ghost predicate NewlyFound(s: Scm, reports: seq<Report>, f: Finding) {
    Reports(reports, f) && f !in s.issued
  }

  /** The command rebuilds a finding that was not issued before and is now reported. */
  ghost predicate Justified(pipe: Fixture, s: Scm, uuid: string, reports: seq<Report>, c: Command) {
    exists f :: NewlyFound(s, reports, f) && Rebuilds(pipe, c, f, uuid)
  }

  ghost predicate AllQueued(pipe: Fixture, s: Scm, uuid: string, reports: seq<Report>, q: seq<Command>) {
    forall f :: NewlyFound(s, reports, f) ==> Queued(pipe, q, |s.pending|, f, uuid)
  }

  ghost predicate AllJustified(pipe: Fixture, s: Scm, uuid: string, reports: seq<Report>, q: seq<Command>) {
    forall i :: |s.pending| <= i < |q| ==> Justified(pipe, s, uuid, reports, q[i])
  }

  /** The findings issued are those issued before and those reported; ids and commands keep count of the new ones. */
  ghost predicate Issues(s: Scm, reports: seq<Report>, m: Scm) {
    && (forall f :: f in m.issued <==> f in s.issued || Reports(reports, f))
    && s.pending <= m.pending
    && |m.pending| - |s.pending| == m.nextId - s.nextId == |m.issued| - |s.issued|
  }

  /** Every finding not issued before gets its command, after all that was queued, and nothing else is queued. */
  ghost predicate Mints(pipe: Fixture, s: Scm, uuid: string, reports: seq<Report>, m: Scm) {
    && Issues(s, reports, m) && AllQueued(pipe, s, uuid, reports, m.pending)
    && AllJustified(pipe, s, uuid, reports, m.pending)
  }

  lemma {:induction false} MintIs(pipe: Fixture, s: Scm, uuid: string, reports: seq<Report>)
    ensures Mints(pipe, s, uuid, reports, Mint(pipe, s, uuid, reports))
  {
    if reports != [] {
      var n := |reports| - 1;
      var init, r := reports[..n], reports[n];
      MintIs(pipe, s, uuid, init);
      MintNext(pipe, s, uuid, reports, Mint(pipe, s, uuid, init));
    }
  }

  lemma MintNext(pipe: Fixture, s: Scm, uuid: string, reports: seq<Report>, m: Scm)
    requires reports != [] && Mints(pipe, s, uuid, reports[..|reports| - 1], m)
    ensures Mints(pipe, s, uuid, reports, MintOne(pipe, m, uuid, reports[|reports| - 1]))
  {
    hide Issues, AllQueued, AllJustified, MintOne;
    IssuesNext(pipe, s, uuid, reports, m);
    QueuesNext(pipe, s, uuid, reports, m);
    JustifiesNext(pipe, s, uuid, reports, m);
  }

  lemma IssuesNext(pipe: Fixture, s: Scm, uuid: string, reports: seq<Report>, m: Scm)
    requires reports != [] && Issues(s, reports[..|reports| - 1], m)
    ensures Issues(s, reports, MintOne(pipe, m, uuid, reports[|reports| - 1]))
  {
    var init, r := reports[..|reports| - 1], reports[|reports| - 1];
    forall f ensures Reports(reports, f) <==> Reports(init, f) || (r.unhealthy && f == (r.container, r.slot)) {
      ReportsSnoc(reports, f);
    }
    hide Reports;
  }

  lemma QueuesNext(pipe: Fixture, s: Scm, uuid: string, reports: seq<Report>, m: Scm)
    requires reports != [] && Issues(s, reports[..|reports| - 1], m)
    requires AllQueued(pipe, s, uuid, reports[..|reports| - 1], m.pending)
    ensures AllQueued(pipe, s, uuid, reports, MintOne(pipe, m, uuid, reports[|reports| - 1]).pending)
  {
    hide Reports, Rebuilds, Queued, MintOne;
    var init, r := reports[..|reports| - 1], reports[|reports| - 1];
    forall f | NewlyFound(s, reports, f)
      ensures Queued(pipe, MintOne(pipe, m, uuid, r).pending, |s.pending|, f, uuid)
    {
      ReportsSnoc(reports, f);
      assert Reports(init, f) ==> NewlyFound(s, init, f);
      QueuedNext(pipe, s, uuid, m, r, f);
    }
  }

  lemma JustifiesNext(pipe: Fixture, s: Scm, uuid: string, reports: seq<Report>, m: Scm)
    requires reports != [] && Issues(s, reports[..|reports| - 1], m)
    requires AllJustified(pipe, s, uuid, reports[..|reports| - 1], m.pending)
    ensures AllJustified(pipe, s, uuid, reports, MintOne(pipe, m, uuid, reports[|reports| - 1]).pending)
  {
    var init, r := reports[..|reports| - 1], reports[|reports| - 1];
    var t := MintOne(pipe, m, uuid, r);
    hide Reports, Rebuilds, NewlyFound;
    forall i | |s.pending| <= i < |t.pending| ensures Justified(pipe, s, uuid, reports, t.pending[i]) {
      if i < |m.pending| {
        assert t.pending[i] == m.pending[i];
        StillJustified(pipe, s, uuid, reports, m.pending[i]);
      } else {
        MintedRebuilds(pipe, m, uuid, r);
        NewIsFound(s, reports, m, (r.container, r.slot));
      }
    }
  }

  lemma StillJustified(pipe: Fixture, s: Scm, uuid: string, reports: seq<Report>, c: Command)
    requires reports != [] && Justified(pipe, s, uuid, reports[..|reports| - 1], c)
    ensures Justified(pipe, s, uuid, reports, c)
  {
    hide Reports, Rebuilds;
    var f :| NewlyFound(s, reports[..|reports| - 1], f) && Rebuilds(pipe, c, f, uuid);
    ReportsSnoc(reports, f);
    assert NewlyFound(s, reports, f);
  }

  lemma NewIsFound(s: Scm, reports: seq<Report>, m: Scm, f: Finding)
    requires reports != [] && Issues(s, reports[..|reports| - 1], m) && f !in m.issued
    requires reports[|reports| - 1] == Report(f.0, true, f.1)
    ensures NewlyFound(s, reports, f)
  {
    ReportsSnoc(reports, f);
    hide Reports;
  }

  lemma MintedRebuilds(pipe: Fixture, m: Scm, uuid: string, r: Report)
    requires r.unhealthy && (r.container, r.slot) !in m.issued
    ensures var t := MintOne(pipe, m, uuid, r);
      |t.pending| == |m.pending| + 1 && Rebuilds(pipe, t.pending[|m.pending|], (r.container, r.slot), uuid)
  {}

  lemma QueuedNext(pipe: Fixture, s: Scm, uuid: string, m: Scm, r: Report, f: Finding)
    requires |s.pending| <= |m.pending|
    requires Queued(pipe, m.pending, |s.pending|, f, uuid)
      || (r.unhealthy && f == (r.container, r.slot) && f !in m.issued)
    ensures Queued(pipe, MintOne(pipe, m, uuid, r).pending, |s.pending|, f, uuid)
  {
    hide Rebuilds;
    var t := MintOne(pipe, m, uuid, r);
    if Queued(pipe, m.pending, |s.pending|, f, uuid) {
      var i :| |s.pending| <= i < |m.pending| && Rebuilds(pipe, m.pending[i], f, uuid);
      assert t.pending[i] == m.pending[i];
    } else {
      MintedRebuilds(pipe, m, uuid, r);
    }
  }

  lemma {:induction false} SiftIs(q: seq<Command>, uuid: string, want: bool, c: Command)
    ensures c in Sift(q, uuid, want) <==> c in q && IsFor(c, uuid) == want
  {
    if q != [] {
      var n := |q| - 1;
      SiftIs(q[..n], uuid, want, c);
      TargetsIs(q[n], uuid);
      assert q == q[..n] + [q[n]];
    }
  }

  lemma OldStays(pipe: Fixture, s: Scm, uuid: string, reports: seq<Report>, m: Scm, c: Command)
    requires Mints(pipe, s, uuid, reports, m) && c in s.pending
    ensures c in m.pending
  {
    var i :| 0 <= i < |s.pending| && s.pending[i] == c;
    assert m.pending[i] == c;
  }

  lemma NewRebuilds(pipe: Fixture, s: Scm, uuid: string, reports: seq<Report>, m: Scm, c: Command)
    requires Mints(pipe, s, uuid, reports, m) && c in m.pending && c !in s.pending
    ensures IsFor(c, uuid) && Justified(pipe, s, uuid, reports, c)
  {
    hide Rebuilds, IsFor;
    var i :| 0 <= i < |m.pending| && m.pending[i] == c;
    assert forall j :: 0 <= j < |s.pending| ==> m.pending[j] == s.pending[j];
    assert Justified(pipe, s, uuid, reports, m.pending[i]);
    var f :| NewlyFound(s, reports, f) && Rebuilds(pipe, m.pending[i], f, uuid);
    RebuildIsFor(pipe, c, f, uuid);
  }

  lemma NewIsQueued(pipe: Fixture, s: Scm, uuid: string, reports: seq<Report>, m: Scm, f: Finding) returns (c: Command)
    requires Mints(pipe, s, uuid, reports, m) && NewlyFound(s, reports, f)
    ensures c in m.pending && IsFor(c, uuid) && Rebuilds(pipe, c, f, uuid)
  {
    hide Rebuilds, IsFor;
    assert Queued(pipe, m.pending, |s.pending|, f, uuid);
    var i :| |s.pending| <= i < |m.pending| && Rebuilds(pipe, m.pending[i], f, uuid);
    c := m.pending[i];
    RebuildIsFor(pipe, c, f, uuid);
  }

  ghost predicate Rebuilt(pipe: Fixture, answer: seq<Command>, uuid: string, f: Finding) {
    exists c :: c in answer && Rebuilds(pipe, c, f, uuid)
  }

  /**
   * A heartbeat is answered with the queued commands that are for its datanode and, for each unhealthy report whose
   * finding was not issued before, one new command to rebuild it; all other commands stay queued.
   */
  lemma BeatAnswers(pipe: Fixture, s: Scm, uuid: string, reports: seq<Report>)
    ensures var (t, answer) := Beat(Some(pipe), s, uuid, reports);
      && (forall c :: c in s.pending ==> if IsFor(c, uuid) then c in answer else c in t.pending)
      && (forall c :: c in answer ==> IsFor(c, uuid))
      && (forall c :: c in t.pending ==> c in s.pending && !IsFor(c, uuid))
      && (forall f :: NewlyFound(s, reports, f) ==> Rebuilt(pipe, answer, uuid, f))
      && (forall c :: c in answer && c !in s.pending ==> Justified(pipe, s, uuid, reports, c))
      && (forall f :: f in t.issued <==> f in s.issued || Reports(reports, f))
      && |t.pending| + |answer| == |s.pending| + |t.issued| - |s.issued|
  {
    var m := Mint(pipe, s, uuid, reports);
    MintIs(pipe, s, uuid, reports);
    SiftCounts(m.pending, uuid);
    hide Mint, Sift, IsFor, Reports, Rebuilds, Justified, NewlyFound;
    forall c ensures c in Sift(m.pending, uuid, true) <==> c in m.pending && IsFor(c, uuid) {
      SiftIs(m.pending, uuid, true, c);
    }
    forall c ensures c in Sift(m.pending, uuid, false) <==> c in m.pending && !IsFor(c, uuid) {
      SiftIs(m.pending, uuid, false, c);
    }
    forall c | c in s.pending ensures c in m.pending { OldStays(pipe, s, uuid, reports, m, c); }
    forall c | c in m.pending && c !in s.pending
      ensures IsFor(c, uuid) && Justified(pipe, s, uuid, reports, c)
    {
      NewRebuilds(pipe, s, uuid, reports, m, c);
    }
    forall f | NewlyFound(s, reports, f) ensures Rebuilt(pipe, Sift(m.pending, uuid, true), uuid, f) {
      var c := NewIsQueued(pipe, s, uuid, reports, m, f);
    }
  }

  lemma RebuildIsFor(pipe: Fixture, c: Command, f: Finding, uuid: string)
    requires Rebuilds(pipe, c, f, uuid)
    ensures IsFor(c, uuid)
  {
    assert c.targets[0] == Some(uuid);
  }

  lemma SiftCounts(q: seq<Command>, uuid: string)
    ensures |Sift(q, uuid, true)| + |Sift(q, uuid, false)| == |q|
  {
    hide Sift;
    SiftSplits(q, uuid);
    var a, b := Sift(q, uuid, true), Sift(q, uuid, false);
    assert |multiset(q)| == |multiset(a) + multiset(b)|;
  }

  // ---- where commands come from, in every interleaving ----

  /** Exactly the entries still queued that are for the datanode are delivered by a drain. */
  lemma ServedIs(pipe: Option<Fixture>, events: seq<Event>, n: nat, k: nat)
    requires n < |events|
    ensures k in Served(pipe, events, n) <==>
      var l := Run(pipe, events[..n]).log;
      events[n].Drain? && k < |l| && l[k].taken.None? && IsFor(l[k].cmd, events[n].uuid)
  {
    hide Run, IsFor, Targets;
    if events[n].Drain? && k < |Run(pipe, events[..n]).log| {
      TargetsIs(Run(pipe, events[..n]).log[k].cmd, events[n].uuid);
    }
  }

  ghost predicate ReportedBy(events: seq<Event>, f: Finding, uuid: string) {
    exists n :: 0 <= n < |events| && events[n] == Claim(uuid, Report(f.0, true, f.1))
  }

  /** The entry was minted for a finding some datanode reported, and sends that datanode to rebuild it. */
  ghost predicate Founded(pipe: Option<Fixture>, events: seq<Event>, e: Entry) {
    e.minted.Some? ==> pipe.Some? && exists uuid ::
      ReportedBy(events, e.minted.value, uuid) && Rebuilds(pipe.value, e.cmd, e.minted.value, uuid)
  }

  ghost predicate AllFounded(pipe: Option<Fixture>, events: seq<Event>, w: Machine) {
    && (forall i :: 0 <= i < |w.log| ==> Founded(pipe, events, w.log[i]))
    && (forall n :: 0 <= n < |w.flight| ==> ReportedBy(events, w.flight[n].finding, w.flight[n].uuid))
  }

  lemma ReportedMore(events: seq<Event>, e: Event, f: Finding, uuid: string)
    ensures ReportedBy(events, f, uuid) ==> ReportedBy(events + [e], f, uuid)
    ensures e == Claim(uuid, Report(f.0, true, f.1)) ==> ReportedBy(events + [e], f, uuid)
  {
    var more := events + [e];
    assert more[|events|] == e;
    if ReportedBy(events, f, uuid) {
      var n :| 0 <= n < |events| && events[n] == Claim(uuid, Report(f.0, true, f.1));
      assert more[n] == events[n];
    }
  }

  lemma FoundedMore(pipe: Option<Fixture>, events: seq<Event>, e: Event, entry: Entry)
    requires Founded(pipe, events, entry)
    ensures Founded(pipe, events + [e], entry)
  {
    hide ReportedBy, Rebuilds;
    if entry.minted.Some? {
      var uuid :| ReportedBy(events, entry.minted.value, uuid)
        && Rebuilds(pipe.value, entry.cmd, entry.minted.value, uuid);
      ReportedMore(events, e, entry.minted.value, uuid);
    }
  }

  /** The flight after a step holds what it held, or the claim the step makes. */
  lemma StepFlight(pipe: Option<Fixture>, w: Machine, e: Event, c: Claimed)
    requires c in Step(pipe, w, e).flight
    ensures c in w.flight || e == Claim(c.uuid, Report(c.finding.0, true, c.finding.1))
  {
    hide Sift, Take;
    if e.Push? && pipe.Some? && e.n < |w.flight| {
      assert c in w.flight[..e.n] || c in w.flight[e.n + 1..];
    }
  }

  /** The history after a step holds what it held, maybe taken, or the entry the step adds. */
  lemma StepEntry(pipe: Option<Fixture>, w: Machine, e: Event, i: nat)
    requires i < |Step(pipe, w, e).log|
    ensures var t := Step(pipe, w, e).log[i];
      || (i < |w.log| && t.minted == w.log[i].minted && t.cmd == w.log[i].cmd)
      || t.minted.None?
      || (e.Push? && pipe.Some? && e.n < |w.flight| && t.minted == Some(w.flight[e.n].finding)
          && Rebuilds(pipe.value, t.cmd, w.flight[e.n].finding, w.flight[e.n].uuid))
  {
    hide Sift;
  }

  lemma StepFounded(pipe: Option<Fixture>, events: seq<Event>, w: Machine, e: Event)
    requires AllFounded(pipe, events, w)
    ensures AllFounded(pipe, events + [e], Step(pipe, w, e))
  {
    var t := Step(pipe, w, e);
    forall i | 0 <= i < |t.log| ensures Founded(pipe, events + [e], t.log[i]) {
      StepEntry(pipe, w, e, i);
      hide Step, ReportedBy, Rebuilds;
      if i < |w.log| && t.log[i].minted == w.log[i].minted && t.log[i].cmd == w.log[i].cmd {
        FoundedMore(pipe, events, e, w.log[i]);
      } else if t.log[i].minted.Some? {
        ReportedMore(events, e, w.flight[e.n].finding, w.flight[e.n].uuid);
      }
    }
    forall n | 0 <= n < |t.flight| ensures ReportedBy(events + [e], t.flight[n].finding, t.flight[n].uuid) {
      StepFlight(pipe, w, e, t.flight[n]);
      ReportedMore(events, e, t.flight[n].finding, t.flight[n].uuid);
      hide Step, ReportedBy;
    }
  }

  /** In every interleaving, a command minted for a finding goes to a datanode that reported it. */
  lemma {:induction false} MintedWasReported(pipe: Option<Fixture>, events: seq<Event>)
    ensures AllFounded(pipe, events, Run(pipe, events))
  {
    if events != [] {
      hide Step, AllFounded;
      var n := |events| - 1;
      MintedWasReported(pipe, events[..n]);
      StepFounded(pipe, events[..n], Run(pipe, events[..n]), events[n]);
      assert events == events[..n] + [events[n]];
    } else {
      hide Founded, ReportedBy;
    }
  }

  /** With a fixture, every finding reported has its command minted, or under way. */
  lemma {:induction false} ReportedIsMinted(pipe: Option<Fixture>, events: seq<Event>, f: Finding, uuid: string)
    requires pipe.Some? && ReportedBy(events, f, uuid)
    ensures MintedFor(Run(pipe, events).log, f) || Flying(Run(pipe, events).flight, f)
  {
    RunFollows(pipe, events);
    IssuedStays(pipe, events, f, uuid);
    hide Run, MintedFor, Flying, Waiting;
  }

  lemma {:induction false} IssuedStays(pipe: Option<Fixture>, events: seq<Event>, f: Finding, uuid: string)
    requires pipe.Some? && ReportedBy(events, f, uuid)
    ensures f in Run(pipe, events).scm.issued
  {
    var last := |events| - 1;
    var n :| 0 <= n < |events| && events[n] == Claim(uuid, Report(f.0, true, f.1));
    if n < last {
      assert events[..last][n] == events[n];
      IssuedStays(pipe, events[..last], f, uuid);
    }
    hide Sift, Take;
  }

  /** The commands the events queue directly, in order. */
  function Given(events: seq<Event>): seq<Command> {
    if events == [] then []
    else Given(events[..|events| - 1]) + if events[|events| - 1].Queue? then [events[|events| - 1].cmd] else []
  }

  function Unminted(l: seq<Entry>): seq<Command> {
    if l == [] then [] else Unminted(l[..|l| - 1]) + if l[|l| - 1].minted.None? then [l[|l| - 1].cmd] else []
  }

  lemma UnmintedSnoc(l: seq<Entry>, e: Entry)
    ensures Unminted(l + [e]) == Unminted(l) + if e.minted.None? then [e.cmd] else []
  {
    assert (l + [e])[..|l|] == l;
  }

  lemma {:induction false} UnmintedTake(l: seq<Entry>, uuid: string)
    ensures Unminted(Take(l, uuid)) == Unminted(l)
  {
    if l != [] {
      var n := |l| - 1;
      UnmintedTake(l[..n], uuid);
      assert Take(l, uuid)[..n] == Take(l[..n], uuid);
    }
  }

  /** The entries of the history that were not minted are the commands given, in order. */
  lemma {:induction false} GivenAreQueued(pipe: Option<Fixture>, events: seq<Event>)
    ensures Unminted(Run(pipe, events).log) == Given(events)
  {
    if events != [] {
      var n := |events| - 1;
      var w, e := Run(pipe, events[..n]), events[n];
      GivenAreQueued(pipe, events[..n]);
      hide Sift, Take, Unminted;
      match e {
        case Queue(c) => UnmintedSnoc(w.log, Entry(c, None, None));
        case Claim(_, _) =>
        case Push(k) =>
          if Step(pipe, w, e) != w { UnmintedSnoc(w.log, Step(pipe, w, e).log[|w.log|]); }
        case Drain(uuid) => UnmintedTake(w.log, uuid);
      }
    }
  }
}
