/**
  What holds of proposals in every state of every interleaving, whatever callers stop half-way.
*/
module ProposalSafety {
  import opened Prelude
  import opened PolicyManagers
  import opened Proposals

  // The place of a state in the lifecycle.
  function Rank(state: ProposalState): nat {
    match state
    case PendingApproval => 0
    case Approved => 1
    case Rejected => 1
    case Activating => 2
    case Active => 3
    case RollingBack => 4
    case RolledBack => 5
  }

  // One legal transition, and what it may write.
  ghost predicate Follows(a: Proposal, b: Proposal) {
    match b.state
    case PendingApproval => false
    case Approved => Reviewed(a, b) && a.risk.passed
    case Rejected => Reviewed(a, b)
    case Activating =>
      && a.state == ProposalState.Approved && 1 <= b.basisPoints <= 10000 && b.salt != NO_ID && b.activatedBy != NO_ID
      && b == a.(state := b.state, activatedBy := b.activatedBy, basisPoints := b.basisPoints, salt := b.salt,
                 activatedAt := b.activatedAt, updatedAt := b.updatedAt)
    case Active =>
      a.state == ProposalState.Activating && b.experimentId.Some?
        && b == a.(state := b.state, experimentId := b.experimentId, updatedAt := b.updatedAt)
    case RollingBack =>
      a.state == Active && b == a.(state := b.state, rolledBackBy := b.rolledBackBy, rolledBackAt := b.rolledBackAt,
                                   updatedAt := b.updatedAt)
    case RolledBack => a.state == RollingBack && b == a.(state := b.state, updatedAt := b.updatedAt)
  }

  ghost predicate Reviewed(a: Proposal, b: Proposal) {
    && a.state == PendingApproval && b.reviewerId != NO_ID && b.reviewerId != a.requestedBy
    && b == a.(state := b.state, reviewerId := b.reviewerId, reviewReason := b.reviewReason,
               reviewedAt := b.reviewedAt, updatedAt := b.updatedAt)
  }

  // What a state says about the record.
  ghost predicate Sound(p: Proposal) {
    && p.id != NO_ID && p.candidate.Valid() && p.risk.Valid()
    && (p.state != PendingApproval ==> p.reviewerId != NO_ID && p.reviewerId != p.requestedBy)
    && (p.state != PendingApproval && p.state != Rejected ==> p.risk.passed)
    && (Rank(p.state) >= 2 ==> 1 <= p.basisPoints <= 10000 && p.salt != NO_ID && p.activatedBy != NO_ID)
    && (Rank(p.state) >= 3 ==> p.experimentId.Some?)
  }

  // The versions of a proposal; each has the place of its state.
  ghost predicate Chain(h: seq<Proposal>, id: Id) {
    && h != []
    && (forall i {:trigger h[i]} :: 0 <= i < |h| ==> Rank(h[i].state) == i && h[i].id == id && Sound(h[i]))
    && (forall i, j {:trigger h[i], h[j]} :: 0 <= i < j < |h| && j == i + 1 ==> Follows(h[i], h[j]))
  }

  ghost predicate EntryOk(s: System, id: Id) {
    && (id in s.proposals <==> id in s.history)
    && (id in s.proposals ==> Chain(s.history[id], id) && s.history[id][|s.history[id]| - 1] == s.proposals[id])
  }

  // The copy follows the stored version of the state it was read in.
  ghost predicate Proposes(s: System, copy: Proposal) {
    && copy.id in s.history && 1 <= Rank(copy.state) <= |s.history[copy.id]|
    && Follows(s.history[copy.id][Rank(copy.state) - 1], copy)
  }

  ghost predicate WasStored(s: System, copy: Proposal) {
    copy.id in s.history && Rank(copy.state) < |s.history[copy.id]| && s.history[copy.id][Rank(copy.state)] == copy
  }

  ghost predicate CallOk(s: System, c: nat) {
    c in s.calls ==>
      match s.calls[c]
      case UpdateReview(copy) => Proposes(s, copy) && Rank(copy.state) == 1
      case BeginUpdate(copy) => Proposes(s, copy) && copy.state == ProposalState.Activating
      case ToActivate(copy) => WasStored(s, copy) && copy.state == ProposalState.Activating
      case ReadExperiment(copy) => WasStored(s, copy) && copy.state == ProposalState.Activating
      case CompleteUpdate(copy) => Proposes(s, copy) && copy.state == Active
      case RollbackUpdate(copy) => Proposes(s, copy) && copy.state == RollingBack
      case ToStop(copy) => WasStored(s, copy) && copy.state == RollingBack
      case CheckStopped(copy) => WasStored(s, copy) && copy.state == RollingBack
      case FinishUpdate(copy) => Proposes(s, copy) && copy.state == RolledBack
      case Answered(copy) => WasStored(s, copy)
      case Refused => true
  }

  // The experiment of a proposal has the parameters with which its activation was persisted.
  ghost predicate ExperimentOk(s: System, id: Id) {
    s.manager.experiment.Some? && s.manager.experiment.value.id == ExperimentId.Approved(id) ==>
      && id in s.history && |s.history[id]| > 2
      && var e, p := s.manager.experiment.value, s.history[id][2];
         && e.control == s.manager.defaultVersion && e.treatment == p.candidate.version
            && e.basisPoints == p.basisPoints && e.salt == p.salt
         && e.treatment in s.manager.policies && s.manager.policies[e.treatment] == p.candidate
  }

  ghost predicate Safe(s: System) {
    && s.manager.Sound()
    && (forall id {:trigger EntryOk(s, id)} :: EntryOk(s, id))
    && (forall c {:trigger CallOk(s, c)} :: CallOk(s, c))
    && (forall id {:trigger ExperimentOk(s, id)} :: ExperimentOk(s, id))
  }

  /* Steps */

  ghost predicate HistoryGrows(s: System, s': System) {
    forall id {:trigger Grown(s, s', id)} :: Grown(s, s', id)
  }

  ghost predicate Grown(s: System, s': System, id: Id) {
    id in s.history ==> id in s'.history && s.history[id] <= s'.history[id]
  }

  lemma KeepCall(s: System, s': System, c: nat)
    requires CallOk(s, c) && HistoryGrows(s, s') && c in s.calls && c in s'.calls && s'.calls[c] == s.calls[c]
    ensures CallOk(s', c)
  {
    match s.calls[c]
    case UpdateReview(copy) => assert Grown(s, s', copy.id);
    case BeginUpdate(copy) => assert Grown(s, s', copy.id);
    case ToActivate(copy) => assert Grown(s, s', copy.id);
    case ReadExperiment(copy) => assert Grown(s, s', copy.id);
    case CompleteUpdate(copy) => assert Grown(s, s', copy.id);
    case RollbackUpdate(copy) => assert Grown(s, s', copy.id);
    case ToStop(copy) => assert Grown(s, s', copy.id);
    case CheckStopped(copy) => assert Grown(s, s', copy.id);
    case FinishUpdate(copy) => assert Grown(s, s', copy.id);
    case Answered(copy) => assert Grown(s, s', copy.id);
    case Refused =>
  }

  lemma KeepExperiment(s: System, s': System, id: Id)
    requires ExperimentOk(s, id) && HistoryGrows(s, s')
    requires VersionsKept(s.manager, s'.manager) && s'.manager.experiment == s.manager.experiment
    ensures ExperimentOk(s', id)
  {
    assert Grown(s, s', id);
  }

  // A caller changes nothing but its own next call.
  lemma Answering(s: System, c: nat, call: Call)
    requires Safe(s) && CallOk(s.Answer(c, call), c)
    ensures Safe(s.Answer(c, call))
  {
    var s' := s.Answer(c, call);
    forall id ensures EntryOk(s', id) && ExperimentOk(s', id) { assert EntryOk(s, id) && ExperimentOk(s, id); }
    assert HistoryGrows(s, s');
    forall d ensures CallOk(s', d) {
      assert CallOk(s, d);
      if d != c && d in s.calls {
        KeepCall(s, s', d);
      }
    }
  }

  // The manager changes, in a way that is right for its experiment.
  lemma Managing(s: System, m: Manager)
    requires Safe(s) && m.Sound() && forall id :: ExperimentOk(s.(manager := m), id)
    ensures Safe(s.(manager := m))
  {
    var s' := s.(manager := m);
    forall id ensures EntryOk(s', id) { assert EntryOk(s, id); }
    assert HistoryGrows(s, s');
    forall c ensures CallOk(s', c) {
      assert CallOk(s, c);
      if c in s.calls {
        KeepCall(s, s', c);
      }
    }
  }

  lemma FollowsIsSound(a: Proposal, b: Proposal)
    requires Sound(a) && Follows(a, b)
    ensures Sound(b) && b.id == a.id && Rank(b.state) == Rank(a.state) + 1
  {
  }

  lemma ChainGrows(h: seq<Proposal>, x: Proposal, id: Id)
    requires Chain(h, id) && Follows(h[|h| - 1], x)
    ensures Chain(h + [x], id)
  {
    FollowsIsSound(h[|h| - 1], x);
    var h' := h + [x];
    forall i, j | 0 <= i < j < |h'| && j == i + 1 ensures Follows(h'[i], h'[j]) {
      if j < |h| {
        assert Follows(h[i], h[j]);
      }
    }
  }

  lemma StoringKeeps(s: System, x: Proposal)
    requires Safe(s)
    requires if x.id in s.proposals then Follows(s.proposals[x.id], x) else Chain([x], x.id)
    ensures Safe(s.Stored(x))
  {
    var s' := s.Stored(x);
    assert EntryOk(s, x.id);
    if x.id in s.proposals {
      ChainGrows(s.history[x.id], x, x.id);
    } else {
      assert s'.history[x.id] == [x];
    }
    forall id ensures EntryOk(s', id) { assert EntryOk(s, id); }
    forall id ensures Grown(s, s', id) {}
    forall c ensures CallOk(s', c) {
      assert CallOk(s, c);
      if c in s.calls {
        KeepCall(s, s', c);
      }
    }
    forall id ensures ExperimentOk(s', id) {
      assert ExperimentOk(s, id);
      KeepExperiment(s, s', id);
    }
  }

  /** An update that is accepted is one legal transition of the record as it stands: no update is lost. */
  lemma AcceptedUpdate(s: System, copy: Proposal, expected: ProposalState)
    requires Safe(s) && Proposes(s, copy) && Rank(expected) + 1 == Rank(copy.state)
             && Updating(s.proposals, copy, expected).1.Ok?
    ensures Follows(s.proposals[copy.id], copy)
  {
    assert EntryOk(s, copy.id);
    var h := s.history[copy.id];
    assert Rank(h[|h| - 1].state) == |h| - 1;
  }

  lemma SavingKeeps(s: System, c: nat, copy: Proposal, expected: ProposalState, next: Call)
    requires Safe(s) && Proposes(s, copy) && Rank(expected) + 1 == Rank(copy.state)
    requires Updating(s.proposals, copy, expected).1.Ok? ==> CallOk(s.Stored(copy).Answer(c, next), c)
    ensures Safe(Saving(s, c, copy, expected, next))
  {
    if Updating(s.proposals, copy, expected).1.Ok? {
      AcceptedUpdate(s, copy, expected);
      StoringKeeps(s, copy);
      Answering(s.Stored(copy), c, next);
    } else {
      Answering(s, c, Refused);
    }
  }

  // After an accepted update the copy is a stored version.
  lemma SavedVersion(s: System, copy: Proposal, expected: ProposalState)
    requires Safe(s) && Proposes(s, copy) && Rank(expected) + 1 == Rank(copy.state)
             && Updating(s.proposals, copy, expected).1.Ok?
    ensures WasStored(s.Stored(copy), copy)
  {
    assert EntryOk(s, copy.id);
    var h := s.history[copy.id];
    assert Rank(h[|h| - 1].state) == |h| - 1;
  }

  // What a caller reads is a stored version.
  lemma ReadVersion(s: System, id: Id)
    requires Safe(s) && id in s.proposals
    ensures s.proposals[id].id == id && WasStored(s, s.proposals[id]) && Sound(s.proposals[id])
  {
    assert EntryOk(s, id);
    var h := s.history[id];
    assert Rank(h[|h| - 1].state) == |h| - 1;
  }

  lemma ProposesNext(s: System, p: Proposal, copy: Proposal)
    requires Safe(s) && WasStored(s, p) && Follows(p, copy)
    ensures Proposes(s, copy)
  {
    assert EntryOk(s, p.id);
    assert Sound(s.history[p.id][Rank(p.state)]);
    FollowsIsSound(p, copy);
  }

  lemma ReviewingKeeps(s: System, c: nat, id: Id, reviewer: Id, reason: Id, approve: bool, now: Time)
    requires Safe(s) && c !in s.calls
    ensures Safe(Reviewing(s, c, id, reviewer, reason, approve, now))
  {
    if id in s.proposals && s.proposals[id].Review(reviewer, reason, approve, now).Ok? {
      var copy := s.proposals[id].Review(reviewer, reason, approve, now).value;
      ReadVersion(s, id);
      ProposesNext(s, s.proposals[id], copy);
      Answering(s, c, UpdateReview(copy));
    } else {
      Answering(s, c, Refused);
    }
  }

  lemma CallingActivateKeeps(s: System, c: nat, id: Id, operator: Id, points: int, salt: Id, now: Time)
    requires Safe(s) && c !in s.calls
    ensures Safe(CallingActivate(s, c, id, operator, points, salt, now))
  {
    if operator == NO_ID || salt == NO_ID || points < 1 || points > 10000 || id !in s.proposals {
      Answering(s, c, Refused);
    } else {
      ActivatingFoundKeeps(s, c, id, operator, points, salt, now);
    }
  }

  lemma ActivatingFoundKeeps(s: System, c: nat, id: Id, operator: Id, points: int, salt: Id, now: Time)
    requires Safe(s) && c !in s.calls && id in s.proposals
    requires operator != NO_ID && salt != NO_ID && 1 <= points <= 10000
    ensures Safe(CallingActivate(s, c, id, operator, points, salt, now))
  {
    var p := s.proposals[id];
    ReadVersion(s, id);
    if p.state == Active {
      Answering(s, c, Answered(p));
    } else if p.state == ProposalState.Approved {
      match p.BeginActivation(operator, points, salt, now)
      case Err(_) => Answering(s, c, Refused);
      case Ok(copy) =>
        ProposesNext(s, p, copy);
        Answering(s, c, BeginUpdate(copy));
    } else if p.state == ProposalState.Activating {
      Answering(s, c, ToActivate(p));
    } else {
      Answering(s, c, Refused);
    }
  }

  lemma CallingRollbackKeeps(s: System, c: nat, id: Id, operator: Id, now: Time)
    requires Safe(s) && c !in s.calls
    ensures Safe(CallingRollback(s, c, id, operator, now))
  {
    if operator == NO_ID || id !in s.proposals {
      Answering(s, c, Refused);
    } else {
      RollingBackFoundKeeps(s, c, id, operator, now);
    }
  }

  lemma RollingBackFoundKeeps(s: System, c: nat, id: Id, operator: Id, now: Time)
    requires Safe(s) && c !in s.calls && id in s.proposals && operator != NO_ID
    ensures Safe(CallingRollback(s, c, id, operator, now))
  {
    var p := s.proposals[id];
    ReadVersion(s, id);
    if p.state == RolledBack {
      Answering(s, c, Answered(p));
    } else if p.state == Active {
      match p.BeginRollback(operator, now)
      case Err(_) => Answering(s, c, Refused);
      case Ok(copy) =>
        ProposesNext(s, p, copy);
        Answering(s, c, RollbackUpdate(copy));
    } else if p.state == RollingBack {
      Answering(s, c, ToStop(p));
    } else {
      Answering(s, c, Refused);
    }
  }

  lemma UpdatingKeeps(s: System, c: nat, now: Time)
    requires Safe(s) && c in s.calls
    requires var call := s.calls[c];
             call.UpdateReview? || call.BeginUpdate? || call.CompleteUpdate? || call.RollbackUpdate?
               || call.FinishUpdate?
    ensures Safe(Proceeding(s, c, now))
  {
    var copy := s.calls[c].copy;
    assert CallOk(s, c);
    match s.calls[c]
    case UpdateReview(_) => SavingVersionKeeps(s, c, copy, PendingApproval, Answered(copy));
    case BeginUpdate(_) => SavingVersionKeeps(s, c, copy, ProposalState.Approved, ToActivate(copy));
    case CompleteUpdate(_) => SavingVersionKeeps(s, c, copy, ProposalState.Activating, Answered(copy));
    case RollbackUpdate(_) => SavingVersionKeeps(s, c, copy, Active, ToStop(copy));
    case FinishUpdate(_) => SavingVersionKeeps(s, c, copy, RollingBack, Answered(copy));
  }

  lemma SavingVersionKeeps(s: System, c: nat, copy: Proposal, expected: ProposalState, next: Call)
    requires Safe(s) && Proposes(s, copy) && Rank(expected) + 1 == Rank(copy.state)
    requires || next == Answered(copy)
             || (next == ToActivate(copy) && copy.state == ProposalState.Activating)
             || (next == ToStop(copy) && copy.state == RollingBack)
    ensures Safe(Saving(s, c, copy, expected, next))
  {
    if Updating(s.proposals, copy, expected).1.Ok? {
      SavedVersion(s, copy, expected);
      assert CallOk(s.Stored(copy).Answer(c, next), c);
    }
    SavingKeeps(s, c, copy, expected, next);
  }

  lemma ActivatingKeeps(s: System, c: nat, copy: Proposal, now: Time)
    requires Safe(s) && WasStored(s, copy) && copy.state == ProposalState.Activating
    ensures Safe(ActivatingPolicy(s, c, copy, now))
  {
    var e := ExperimentOf(s.manager, copy, now);
    var r := PolicyManagers.Activating(s.manager, copy.candidate, e);
    StepsAreSound(s.manager, copy.candidate, e, e.id);
    StepsKeepVersions(s.manager, copy.candidate, e, e.id);
    forall id ensures ExperimentOk(s.(manager := r.0), id) { assert ExperimentOk(s, id); }
    Managing(s, r.0);
    Answering(s.(manager := r.0), c, if r.1.Ok? then ReadExperiment(copy) else Refused);
  }

  lemma RecordingKeeps(s: System, c: nat, copy: Proposal, now: Time)
    requires Safe(s) && WasStored(s, copy) && copy.state == ProposalState.Activating
    ensures Safe(Recording(s, c, copy, now))
  {
    var call := Recording(s, c, copy, now).calls[c];
    if call.CompleteUpdate? {
      ProposesNext(s, copy, call.copy);
    }
    Answering(s, c, call);
  }

  lemma FinishingKeeps(s: System, c: nat, copy: Proposal, now: Time)
    requires Safe(s) && WasStored(s, copy) && copy.state == RollingBack
    ensures Safe(FinishingRollback(s, c, copy, now))
  {
    var call := FinishingRollback(s, c, copy, now).calls[c];
    if call.FinishUpdate? {
      ProposesNext(s, copy, call.copy);
    }
    Answering(s, c, call);
  }

  lemma StoppingKeeps(s: System, c: nat, copy: Proposal, now: Time)
    requires Safe(s) && WasStored(s, copy) && copy.state == RollingBack
    ensures Safe(StoppingExperiment(s, c, copy, now))
  {
    if copy.experimentId.None? {
      Answering(s, c, Refused);
    } else {
      var r := Stopping(s.manager, copy.experimentId.value);
      if r.1.Ok? {
        forall id ensures ExperimentOk(s.(manager := r.0), id) {}
        Managing(s, r.0);
        FinishingKeeps(s.(manager := r.0), c, copy, now);
      } else {
        Answering(s, c, CheckStopped(copy));
      }
    }
  }

  lemma ProceedingKeeps(s: System, c: nat, now: Time)
    requires Safe(s) && c in s.calls
    ensures Safe(Proceeding(s, c, now))
  {
    assert CallOk(s, c);
    match s.calls[c]
    case ToActivate(copy) => ActivatingKeeps(s, c, copy, now);
    case ReadExperiment(copy) => RecordingKeeps(s, c, copy, now);
    case ToStop(copy) => StoppingKeeps(s, c, copy, now);
    case CheckStopped(copy) =>
      if s.manager.experiment.None? {
        FinishingKeeps(s, c, copy, now);
      } else {
        Answering(s, c, Refused);
      }
    case Answered(_) =>
    case Refused =>
    case _ => UpdatingKeeps(s, c, now);
  }

  lemma ManagerEventsKeep(s: System, e: Event)
    requires Safe(s) && (e.Register? || e.StartNamed?)
    ensures Safe(Next(s, e))
  {
    var m := Next(s, e).manager;
    match e
    case Register(p) =>
      forall id ensures ExperimentOk(s.(manager := m), id) { assert ExperimentOk(s, id); }
      Managing(s, m);
    case StartNamed(experiment) =>
      forall id ensures ExperimentOk(s.(manager := m), id) { assert ExperimentOk(s, id); }
      Managing(s, m);
  }

  lemma NextIsSafe(s: System, e: Event)
    requires Safe(s)
    ensures Safe(Next(s, e))
  {
    match e
    case Propose(id, runId, requestedBy, candidate, risk, now) =>
      var p := NewProposal(id, runId, requestedBy, candidate, risk, now);
      if p.Ok? && id !in s.proposals {
        assert Chain([p.value], id);
        StoringKeeps(s, p.value);
      }
    case CallReview(c, id, reviewer, reason, approve, now) =>
      if c !in s.calls {
        ReviewingKeeps(s, c, id, reviewer, reason, approve, now);
      }
    case CallActivate(c, id, operator, points, salt, now) =>
      if c !in s.calls {
        CallingActivateKeeps(s, c, id, operator, points, salt, now);
      }
    case CallRollback(c, id, operator, now) =>
      if c !in s.calls {
        CallingRollbackKeeps(s, c, id, operator, now);
      }
    case Proceed(c, now) =>
      if c in s.calls {
        ProceedingKeeps(s, c, now);
      }
    case Register(_) => ManagerEventsKeep(s, e);
    case StartNamed(_) => ManagerEventsKeep(s, e);
  }

  ghost predicate IsInitial(s: System) {
    && s.proposals == map[] && s.history == map[] && s.calls == map[]
    && s.manager.Sound() && s.manager.experiment.None?
  }

  ghost function Run(s: System, events: seq<Event>): System {
    if events == [] then s else Next(Run(s, events[..|events| - 1]), events[|events| - 1])
  }

  ghost predicate Reachable(s: System) {
    exists start, events {:trigger Run(start, events)} :: IsInitial(start) && s == Run(start, events)
  }

  lemma {:induction false} RunIsSafe(start: System, events: seq<Event>)
    requires IsInitial(start)
    ensures Safe(Run(start, events))
  {
    if events != [] {
      RunIsSafe(start, events[..|events| - 1]);
      NextIsSafe(Run(start, events[..|events| - 1]), events[|events| - 1]);
    }
  }

  lemma ReachableIsSafe(s: System)
    requires Reachable(s)
    ensures Safe(s)
  {
    var start, events :| IsInitial(start) && s == Run(start, events);
    RunIsSafe(start, events);
  }

  lemma NextIsReachable(s: System, e: Event)
    requires Reachable(s)
    ensures Reachable(Next(s, e))
  {
    var start, events :| IsInitial(start) && s == Run(start, events);
    assert (events + [e])[..|events|] == events;
    assert Next(s, e) == Run(start, events + [e]);
  }

  /* Results */

  /** The versions of a proposal follow its lifecycle one edge at a time, and none of its states comes twice. */
  lemma LifecycleIsAcyclic(s: System, id: Id, i: nat, j: nat)
    requires Reachable(s) && id in s.proposals && id in s.history && i < j < |s.history[id]|
    ensures s.history[id][i].state != s.history[id][j].state
    ensures j == i + 1 ==> Follows(s.history[id][i], s.history[id][j])
    ensures s.history[id][|s.history[id]| - 1] == s.proposals[id]
  {
    ReachableIsSafe(s);
    assert EntryOk(s, id);
    assert Rank(s.history[id][i].state) == i && Rank(s.history[id][j].state) == j;
  }

  /**
    The state is as good as a version number: two records of a proposal in the same state are the
    same record, so an update that passes the check on the state is made to the record it was read from.
  */
  lemma NoLostUpdate(s: System, c: nat)
    requires Reachable(s) && c in s.calls
    ensures var call := s.calls[c];
            && (call.UpdateReview? && Updating(s.proposals, call.copy, PendingApproval).1.Ok? ==>
                Follows(s.proposals[call.copy.id], call.copy))
            && (call.BeginUpdate? && Updating(s.proposals, call.copy, ProposalState.Approved).1.Ok? ==>
                Follows(s.proposals[call.copy.id], call.copy))
            && (call.CompleteUpdate? && Updating(s.proposals, call.copy, ProposalState.Activating).1.Ok? ==>
                Follows(s.proposals[call.copy.id], call.copy))
            && (call.RollbackUpdate? && Updating(s.proposals, call.copy, Active).1.Ok? ==>
                Follows(s.proposals[call.copy.id], call.copy))
            && (call.FinishUpdate? && Updating(s.proposals, call.copy, RollingBack).1.Ok? ==>
                Follows(s.proposals[call.copy.id], call.copy))
  {
    ReachableIsSafe(s);
    assert CallOk(s, c);
    var call := s.calls[c];
    match call
    case UpdateReview(copy) =>
      if Updating(s.proposals, copy, PendingApproval).1.Ok? {
        AcceptedUpdate(s, copy, PendingApproval);
      }
    case BeginUpdate(copy) =>
      if Updating(s.proposals, copy, ProposalState.Approved).1.Ok? {
        AcceptedUpdate(s, copy, ProposalState.Approved);
      }
    case CompleteUpdate(copy) =>
      if Updating(s.proposals, copy, ProposalState.Activating).1.Ok? {
        AcceptedUpdate(s, copy, ProposalState.Activating);
      }
    case RollbackUpdate(copy) =>
      if Updating(s.proposals, copy, Active).1.Ok? {
        AcceptedUpdate(s, copy, Active);
      }
    case FinishUpdate(copy) =>
      if Updating(s.proposals, copy, RollingBack).1.Ok? {
        AcceptedUpdate(s, copy, RollingBack);
      }
    case _ =>
  }

  /** Nothing gets past approval without somebody else's review and a report without a blocking finding. */
  lemma DutiesAreSeparated(s: System, id: Id)
    requires Reachable(s) && id in s.proposals && s.proposals[id].state != PendingApproval
             && s.proposals[id].state != Rejected
    ensures s.proposals[id].reviewerId != NO_ID && s.proposals[id].reviewerId != s.proposals[id].requestedBy
    ensures forall i :: 0 <= i < |s.proposals[id].risk.findings| ==> s.proposals[id].risk.findings[i].status != Block
  {
    ReachableIsSafe(s);
    ReadVersion(s, id);
  }

  /** Whoever retries an activation does so with the parameters that were persisted when it began. */
  lemma RetriesAgree(s: System, c: nat, d: nat)
    requires Reachable(s) && c in s.calls && d in s.calls && s.calls[c].ToActivate? && s.calls[d].ToActivate?
    requires s.calls[c].copy.id == s.calls[d].copy.id
    ensures s.calls[c].copy == s.calls[d].copy
  {
    ReachableIsSafe(s);
    assert CallOk(s, c) && CallOk(s, d);
  }

  /** So a retry leaves the manager as it is while the proposal's experiment is current, and goes on. */
  lemma RetryIsIdempotent(s: System, c: nat, now: Time)
    requires Reachable(s) && c in s.calls && s.calls[c].ToActivate? && now != ZERO_TIME
    requires s.manager.experiment.Some? && s.manager.experiment.value.id == ExperimentId.Approved(s.calls[c].copy.id)
    ensures Next(s, Event.Proceed(c, now)) == s.Answer(c, ReadExperiment(s.calls[c].copy))
  {
    ReachableIsSafe(s);
    var copy := s.calls[c].copy;
    assert CallOk(s, c) && EntryOk(s, copy.id) && ExperimentOk(s, copy.id);
    assert Sound(s.history[copy.id][2]);
  }
}
