/**
  Which experiment an activated proposal records, over whole runs.  ActivateApprovedPolicy of the
  operations service starts the experiment and then reads the active one in a second call
  (internal/matchmaking/application/operations_service.go:82-86), so another caller can come in
  between.
*/
module ExperimentRecords {
  import opened Prelude
  import Tickets
  import opened PolicyManagers
  import opened Proposals
  import opened ProposalSafety

  // The manager runs the proposal's own experiment.
  predicate RunsOwn(m: Manager, id: Id) {
    m.experiment.Some? && m.experiment.value.id == ExperimentId.Approved(id)
  }

  predicate Accepts(m: Manager, p: Proposal, now: Time) {
    PolicyManagers.Activating(m, p.candidate, ExperimentOf(m, p, now)).1.Ok?
  }

  // The event starts the proposal's experiment, or finds it running.
  predicate Restarts(s: System, e: Event, id: Id) {
    && e.Proceed? && e.c in s.calls && s.calls[e.c].ToActivate?
    && s.calls[e.c].copy.id == id && Accepts(s.manager, s.calls[e.c].copy, e.now)
  }

  // The event starts another proposal's experiment in its place, or stops it.
  predicate Displaces(s: System, e: Event, id: Id) {
    && e.Proceed? && e.c in s.calls
    && match s.calls[e.c]
       case ToActivate(copy) => copy.id != id && Accepts(s.manager, copy, e.now)
       case ToStop(copy) => copy.experimentId == Some(ExperimentId.Approved(id))
       case _ => false
  }

  // No event has displaced the experiment since it was last started.
  ghost predicate Undisplaced(s: System, id: Id, events: seq<Event>) {
    if events == [] then RunsOwn(s.manager, id)
    else
      var n := |events| - 1;
      var before := Run(s, events[..n]);
      Restarts(before, events[n], id) || (!Displaces(before, events[n], id) && Undisplaced(s, id, events[..n]))
  }

  lemma OneEvent(s: System, e: Event, id: Id)
    ensures RunsOwn(Next(s, e).manager, id) <==> Restarts(s, e, id) || (!Displaces(s, e, id) && RunsOwn(s.manager, id))
  {
    match e
    case Proceed(c, now) =>
      if c in s.calls {
        match s.calls[c]
        case ToActivate(copy) => assert Next(s, e) == ActivatingPolicy(s, c, copy, now);
        case ToStop(copy) => assert Next(s, e) == StoppingExperiment(s, c, copy, now);
        case CheckStopped(copy) =>
        case _ =>
      }
    case _ =>
  }

  /** In every run the manager runs the proposal's experiment iff nothing has displaced it since it was last started. */
  lemma {:induction false} RunsOwnExactly(s: System, id: Id, events: seq<Event>)
    ensures RunsOwn(Run(s, events).manager, id) <==> Undisplaced(s, id, events)
  {
    if events != [] {
      var n := |events| - 1;
      RunsOwnExactly(s, id, events[..n]);
      OneEvent(Run(s, events[..n]), events[n], id);
    }
  }

  ghost predicate NotBy(c: nat, events: seq<Event>) {
    forall i :: 0 <= i < |events| ==> !(events[i].Proceed? && events[i].c == c)
  }

  lemma {:induction false} CallWaits(s: System, c: nat, events: seq<Event>)
    requires c in s.calls && NotBy(c, events)
    ensures c in Run(s, events).calls && Run(s, events).calls[c] == s.calls[c]
  {
    if events != [] {
      var n := |events| - 1;
      CallWaits(s, c, events[..n]);
      OthersCalls(Run(s, events[..n]), c, events[n]);
    }
  }

  lemma OthersCalls(s: System, c: nat, e: Event)
    requires c in s.calls && !(e.Proceed? && e.c == c)
    ensures c in Next(s, e).calls && Next(s, e).calls[c] == s.calls[c]
  {
    if e.Proceed? && e.c in s.calls {
      OthersProceed(s, c, e.c, e.now);
    }
  }

  lemma OthersProceed(s: System, c: nat, d: nat, now: Time)
    requires c in s.calls && d in s.calls && c != d
    ensures c in Proceeding(s, d, now).calls && Proceeding(s, d, now).calls[c] == s.calls[c]
  {
    match s.calls[d]
    case ToActivate(copy) => assert Proceeding(s, d, now) == ActivatingPolicy(s, d, copy, now);
    case ToStop(copy) => assert Proceeding(s, d, now) == StoppingExperiment(s, d, copy, now);
    case ReadExperiment(copy) => assert Proceeding(s, d, now) == Recording(s, d, copy, now);
    case _ =>
  }

  /**
    Between the call that starts a proposal's experiment and the one that reads the active
    experiment anything may happen: the proposal records its own iff nothing has displaced it since
    it was last started.
  */
  lemma RecordedExperiment(s: System, c: nat, started: Time, between: seq<Event>, read: Time)
    requires c in s.calls && s.calls[c].ToActivate? && NotBy(c, between)
    requires Accepts(s.manager, s.calls[c].copy, started)
    ensures var copy := s.calls[c].copy;
            var after := Next(s, Event.Proceed(c, started));
            var end := Next(Run(after, between), Event.Proceed(c, read));
            && c in end.calls && (end.calls[c].CompleteUpdate? || end.calls[c].Refused?)
            && (end.calls[c].CompleteUpdate? ==>
                 (end.calls[c].copy.experimentId == Some(ExperimentId.Approved(copy.id)) <==>
                  Undisplaced(after, copy.id, between)))
  {
    var copy := s.calls[c].copy;
    var after := Next(s, Event.Proceed(c, started));
    assert after == ActivatingPolicy(s, c, copy, started);
    CallWaits(after, c, between);
    RunsOwnExactly(after, copy.id, between);
    assert Next(Run(after, between), Event.Proceed(c, read)) == Recording(Run(after, between), c, copy, read);
  }

  /* Two callers, two proposals */

  lemma OneMore(start: System, events: seq<Event>, e: Event)
    ensures Run(start, events + [e]) == Next(Run(start, events), e)
  {
    assert (events + [e])[..|events|] == events;
  }

  const POLICY := Tickets.Policy(5, 30, 64, 100.0, 400.0, 2.0, 120, 250, 1.0, 60_000_000_000, 0.5, 50.0)

  const RISK := RiskReport(true, 10, [Finding(1, Pass, 1), Finding(2, Pass, 1), Finding(3, Pass, 1),
                                      Finding(4, Pass, 1), Finding(5, Pass, 1)])

  const START := System(map[], map[], Manager(map[1 := VersionedPolicy(1, POLICY)], 1, None), map[])

  // A proposal as it is created for the policy version id + 1, and after its review.
  function Created(id: Id): Proposal {
    Proposal(id, 1, 1, VersionedPolicy(id + 1, POLICY), RISK, PendingApproval, NO_ID, NO_ID, ZERO_TIME, None, NO_ID, 0,
             NO_ID, ZERO_TIME,
             NO_ID, ZERO_TIME, 1, 1)
  }

  function ReviewedBy2(id: Id): Proposal {
    Created(id).(reviewerId := 2, reviewReason := 1, reviewedAt := 1, state := ProposalState.Approved)
  }

  function BegunWith(id: Id): Proposal {
    ReviewedBy2(id).(state := ProposalState.Activating, activatedBy := 1, basisPoints := 100, salt := 1,
                     activatedAt := 1)
  }

  function ActiveWith(id: Id, experiment: Id): Proposal {
    BegunWith(id).(state := Active, experimentId := Some(ExperimentId.Approved(experiment)))
  }

  // The stored proposals, the manager and the calls; the history is not followed here.
  ghost predicate Looks(s: System, proposals: map<Id, Proposal>, manager: Manager, calls: map<nat, Call>) {
    s.proposals == proposals && s.manager == manager && s.calls == calls
  }

  lemma AfterPropose(s: System, id: Id)
    requires id != NO_ID && id !in s.proposals
    ensures Looks(Next(s, Propose(id, 1, 1, VersionedPolicy(id + 1, POLICY), RISK, 1)), s.proposals[id := Created(id)],
                  s.manager, s.calls)
  {
  }

  lemma AfterCallReview(s: System, id: Id, c: nat)
    requires id in s.proposals && s.proposals[id] == Created(id) && c !in s.calls
    ensures Looks(Next(s, CallReview(c, id, 2, 1, true, 1)), s.proposals, s.manager,
                  s.calls[c := UpdateReview(ReviewedBy2(id))])
  {
  }

  lemma AfterReview(s: System, id: Id, c: nat)
    requires id in s.proposals && s.proposals[id] == Created(id) && c in s.calls
             && s.calls[c] == UpdateReview(ReviewedBy2(id))
    ensures Looks(Next(s, Event.Proceed(c, 1)), s.proposals[id := ReviewedBy2(id)], s.manager,
                  s.calls[c := Answered(ReviewedBy2(id))])
  {
  }

  lemma AfterCallActivate(s: System, id: Id, c: nat)
    requires id in s.proposals && s.proposals[id] == ReviewedBy2(id) && c !in s.calls
    ensures Looks(Next(s, CallActivate(c, id, 1, 100, 1, 1)), s.proposals, s.manager,
                  s.calls[c := BeginUpdate(BegunWith(id))])
  {
  }

  lemma AfterBegin(s: System, id: Id, c: nat)
    requires id in s.proposals && s.proposals[id] == ReviewedBy2(id) && c in s.calls
             && s.calls[c] == BeginUpdate(BegunWith(id))
    ensures Looks(Next(s, Event.Proceed(c, 1)), s.proposals[id := BegunWith(id)], s.manager,
                  s.calls[c := ToActivate(BegunWith(id))])
  {
  }

  // The events that take a proposal from nothing to the persisted activation, by the given two callers.
  function Beginning(id: Id, reviewer: nat, operator: nat): seq<Event> {
    [Propose(id, 1, 1, VersionedPolicy(id + 1, POLICY), RISK, 1),
     CallReview(reviewer, id, 2, 1, true, 1), Event.Proceed(reviewer, 1),
     CallActivate(operator, id, 1, 100, 1, 1), Event.Proceed(operator, 1)]
  }

  lemma FiveEvents(s: System, a: Event, b: Event, c: Event, d: Event, e: Event)
    ensures Run(s, [a, b, c, d, e]) == Next(Next(Next(Next(Next(s, a), b), c), d), e)
  {
    assert [a, b, c, d, e] == [] + [a] + [b] + [c] + [d] + [e];
    OneMore(s, [], a);
    OneMore(s, [] + [a], b);
    OneMore(s, [] + [a] + [b], c);
    OneMore(s, [] + [a] + [b] + [c], d);
    OneMore(s, [] + [a] + [b] + [c] + [d], e);
  }

  lemma RunBeginning(s: System, id: Id, reviewer: nat, operator: nat)
    requires id != NO_ID && id !in s.proposals && reviewer != operator && reviewer !in s.calls && operator !in s.calls
    ensures Looks(Run(s, Beginning(id, reviewer, operator)), s.proposals[id := BegunWith(id)], s.manager,
                  s.calls[reviewer := Answered(ReviewedBy2(id))][operator := ToActivate(BegunWith(id))])
  {
    var e := Beginning(id, reviewer, operator);
    FiveEvents(s, e[0], e[1], e[2], e[3], e[4]);
    var s1 := Next(s, e[0]);
    AfterPropose(s, id);
    var s2 := Next(s1, e[1]);
    AfterCallReview(s1, id, reviewer);
    var s3 := Next(s2, e[2]);
    AfterReview(s2, id, reviewer);
    var s4 := Next(s3, e[3]);
    AfterCallActivate(s3, id, operator);
    AfterBegin(s4, id, operator);
    LastWrites(s.proposals, id, Created(id), ReviewedBy2(id), BegunWith(id));
  }

  lemma LastWrites(m: map<Id, Proposal>, id: Id, a: Proposal, b: Proposal, c: Proposal)
    ensures m[id := a][id := b][id := c] == m[id := c]
  {
  }

  // The manager of the example once the proposal's experiment runs.
  function Running(m: Manager, id: Id): Manager {
    m.(policies := m.policies[id + 1 := VersionedPolicy(id + 1, POLICY)],
       experiment := Some(Experiment(ExperimentId.Approved(id), 1, id + 1, 100, 1, 1)))
  }

  predicate Free(m: Manager, id: Id) {
    m.defaultVersion == 1 && 1 in m.policies && id != NO_ID && id + 1 !in m.policies && !RunsOwn(m, id)
  }

  lemma AfterStart(s: System, id: Id, c: nat)
    requires c in s.calls && s.calls[c] == ToActivate(BegunWith(id)) && Free(s.manager, id)
    ensures Looks(Next(s, Event.Proceed(c, 1)), s.proposals, Running(s.manager, id),
                  s.calls[c := ReadExperiment(BegunWith(id))])
  {
  }

  lemma AfterRead(s: System, id: Id, other: Id, c: nat)
    requires c in s.calls && s.calls[c] == ReadExperiment(BegunWith(id)) && RunsOwn(s.manager, other)
    ensures Looks(Next(s, Event.Proceed(c, 1)), s.proposals, s.manager,
                  s.calls[c := CompleteUpdate(ActiveWith(id, other))])
  {
  }

  lemma AfterComplete(s: System, id: Id, other: Id, c: nat)
    requires c in s.calls && s.calls[c] == CompleteUpdate(ActiveWith(id, other)) && id in s.proposals
             && s.proposals[id] == BegunWith(id)
    ensures Looks(Next(s, Event.Proceed(c, 1)), s.proposals[id := ActiveWith(id, other)], s.manager,
                  s.calls[c := Answered(ActiveWith(id, other))])
  {
  }

  lemma RunConcat(s: System, a: seq<Event>, b: seq<Event>)
    ensures Run(s, a + b) == Run(Run(s, a), b)
  {
    if b == [] {
      assert a + b == a;
    } else {
      assert (a + b)[..|a + b| - 1] == a + b[..|b| - 1];
      RunConcat(s, a, b[..|b| - 1]);
    }
  }

  lemma ThreeEvents(s: System, a: Event, b: Event, c: Event)
    ensures Run(s, [a, b, c]) == Next(Next(Next(s, a), b), c)
  {
    assert [a, b, c] == [] + [a] + [b] + [c];
    OneMore(s, [], a);
    OneMore(s, [] + [a], b);
    OneMore(s, [] + [a] + [b], c);
  }

  // Two activations are begun by callers 1 and 3.
  lemma TwoBegun() returns (s: System)
    ensures s == Run(START, Beginning(1, 0, 1) + Beginning(2, 2, 3))
    ensures s.proposals == map[1 := BegunWith(1), 2 := BegunWith(2)] && s.manager == START.manager
    ensures s.calls == map[0 := Answered(ReviewedBy2(1)), 1 := ToActivate(BegunWith(1)), 2 := Answered(ReviewedBy2(2)),
                           3 := ToActivate(BegunWith(2))]
  {
    RunConcat(START, Beginning(1, 0, 1), Beginning(2, 2, 3));
    RunBeginning(START, 1, 0, 1);
    RunBeginning(Run(START, Beginning(1, 0, 1)), 2, 2, 3);
    s := Run(START, Beginning(1, 0, 1) + Beginning(2, 2, 3));
  }

  // Both start their experiments before the first reads the active one and records it.
  const OVERTAKING := [Event.Proceed(1, 1), Event.Proceed(3, 1), Event.Proceed(1, 1)]

  const RECORDING := [Event.Proceed(1, 1), Event.Proceed(3, 1), Event.Proceed(3, 1)]

  lemma Overtakes(s: System)
    requires s.proposals == map[1 := BegunWith(1), 2 := BegunWith(2)] && s.manager == START.manager
    requires 1 in s.calls && 3 in s.calls && s.calls[1] == ToActivate(BegunWith(1))
             && s.calls[3] == ToActivate(BegunWith(2))
    ensures Looks(Run(s, OVERTAKING), s.proposals, Running(Running(s.manager, 1), 2),
                  s.calls[1 := CompleteUpdate(ActiveWith(1, 2))][3 := ReadExperiment(BegunWith(2))])
  {
    ThreeEvents(s, OVERTAKING[0], OVERTAKING[1], OVERTAKING[2]);
    var s1 := Next(s, OVERTAKING[0]);
    AfterStart(s, 1, 1);
    var s2 := Next(s1, OVERTAKING[1]);
    AfterStart(s1, 2, 3);
    AfterRead(s2, 1, 2, 1);
  }

  lemma Records(s: System)
    requires s.proposals == map[1 := BegunWith(1), 2 := BegunWith(2)] && RunsOwn(s.manager, 2)
    requires 1 in s.calls && 3 in s.calls && s.calls[1] == CompleteUpdate(ActiveWith(1, 2))
             && s.calls[3] == ReadExperiment(BegunWith(2))
    ensures var s' := Run(s, RECORDING);
            s'.proposals == map[1 := ActiveWith(1, 2), 2 := ActiveWith(2, 2)] && s'.manager == s.manager
              && s'.calls.Keys == s.calls.Keys
  {
    ThreeEvents(s, RECORDING[0], RECORDING[1], RECORDING[2]);
    var s1 := Next(s, RECORDING[0]);
    AfterComplete(s, 1, 2, 1);
    var s2 := Next(s1, RECORDING[1]);
    AfterRead(s1, 2, 2, 3);
    AfterComplete(s2, 2, 2, 3);
    WrittenOver(BegunWith(1), BegunWith(2), ActiveWith(1, 2), ActiveWith(2, 2));
  }

  lemma WrittenOver(a: Proposal, b: Proposal, c: Proposal, d: Proposal)
    ensures map[1 := a, 2 := b][1 := c][2 := d] == map[1 := c, 2 := d]
  {
  }

  function OvertakenEvents(): seq<Event> {
    Beginning(1, 0, 1) + Beginning(2, 2, 3) + OVERTAKING + RECORDING
  }

  /** A run from an initial state to one where proposal 1 is active and has recorded the experiment of proposal 2. */
  lemma OvertakenRun()
    ensures IsInitial(START)
    ensures var s := Run(START, OvertakenEvents());
            && s.proposals == map[1 := ActiveWith(1, 2), 2 := ActiveWith(2, 2)] && RunsOwn(s.manager, 2)
            && s.calls.Keys == {0, 1, 2, 3}
  {
    var s := TwoBegun();
    Overtakes(s);
    Records(Run(s, OVERTAKING));
    RunConcat(START, Beginning(1, 0, 1) + Beginning(2, 2, 3), OVERTAKING);
    RunConcat(START, Beginning(1, 0, 1) + Beginning(2, 2, 3) + OVERTAKING, RECORDING);
  }

  /* Rolling back */

  /**
    Rolling a proposal back stops the experiment it has recorded.  It leaves every experiment but
    the proposal's own alone iff that is the one it has recorded.
  */
  lemma RollbackSparesOthers(p: Proposal)
    requires p.experimentId.Some?
    ensures (forall s: System, c, now :: !RunsOwn(s.manager, p.id) ==>
             StoppingExperiment(s, c, p, now).manager == s.manager)
       <==> p.experimentId.value == ExperimentId.Approved(p.id)
  {
    if p.experimentId.value != ExperimentId.Approved(p.id) {
      var other := START.manager.(experiment := Some(Experiment(p.experimentId.value, 1, 2, 100, 1, 1)));
      var s := START.(manager := other);
      assert !RunsOwn(s.manager, p.id);
      assert StoppingExperiment(s, 0, p, 0).manager.experiment.None?;
    }
  }

  const WITHDRAWING := [CallRollback(4, 1, 1, 1), Event.Proceed(4, 1), Event.Proceed(4, 1)]

  function RollingBackFirst(): Proposal {
    ActiveWith(1, 2).(state := RollingBack, rolledBackBy := 1, rolledBackAt := 1)
  }

  lemma AfterCallRollback(s: System)
    requires 4 !in s.calls && 1 in s.proposals && s.proposals[1] == ActiveWith(1, 2)
    ensures Looks(Next(s, WITHDRAWING[0]), s.proposals, s.manager, s.calls[4 := RollbackUpdate(RollingBackFirst())])
  {
  }

  lemma AfterRollback(s: System)
    requires 4 in s.calls && s.calls[4] == RollbackUpdate(RollingBackFirst()) && 1 in s.proposals
             && s.proposals[1] == ActiveWith(1, 2)
    ensures Looks(Next(s, WITHDRAWING[1]), s.proposals[1 := RollingBackFirst()], s.manager,
                  s.calls[4 := ToStop(RollingBackFirst())])
  {
  }

  lemma AfterStop(s: System)
    requires 4 in s.calls && s.calls[4] == ToStop(RollingBackFirst()) && RunsOwn(s.manager, 2)
    ensures Next(s, WITHDRAWING[2]).proposals == s.proposals && Next(s, WITHDRAWING[2]).manager.experiment.None?
  {
    assert Next(s, WITHDRAWING[2]) == StoppingExperiment(s, 4, RollingBackFirst(), 1);
  }

  lemma Withdraws(s: System)
    requires 4 !in s.calls && s.proposals == map[1 := ActiveWith(1, 2), 2 := ActiveWith(2, 2)] && RunsOwn(s.manager, 2)
    ensures var s' := Run(s, WITHDRAWING);
            s'.proposals == map[1 := RollingBackFirst(), 2 := ActiveWith(2, 2)] && s'.manager.experiment.None?
  {
    ThreeEvents(s, WITHDRAWING[0], WITHDRAWING[1], WITHDRAWING[2]);
    AfterCallRollback(s);
    AfterRollback(Next(s, WITHDRAWING[0]));
    AfterStop(Next(Next(s, WITHDRAWING[0]), WITHDRAWING[1]));
  }

  /** In that run, rolling proposal 1 back stops the experiment of proposal 2, which stays active without one. */
  lemma WrongRollback()
    ensures var s := Run(START, OvertakenEvents() + WITHDRAWING);
            && 1 in s.proposals && s.proposals[1].state == RollingBack
            && 2 in s.proposals && s.proposals[2] == ActiveWith(2, 2) && s.manager.experiment.None?
  {
    OvertakenRun();
    RunConcat(START, OvertakenEvents(), WITHDRAWING);
    Withdraws(Run(START, OvertakenEvents()));
  }
}
