/**
  The agent's proposal service (internal/agent/application/service.go:248-349) over its repository
  (internal/agent/repository/memory/repository.go) and the policy manager.  The ghost field system
  follows every call as a step of the saga.
*/
module AgentServices {
  import opened Prelude
  import opened PolicyManagers
  import opened Proposals
  import opened ProposalSafety

  datatype ServiceError =
    | InvalidCommand
    | NotFound
    | Conflict
    | BadProposal(error: ProposalError)
    | BadPolicy(reason: PolicyError)

  class Repository {
    var proposals: map<Id, Proposal>

    constructor ()
      ensures proposals == map[]
    {
      proposals := map[];
    }

    method GetProposal(id: Id) returns (r: Result<Proposal, RepositoryError>)
      ensures r == if id in proposals then Ok(proposals[id]) else Err(ProposalNotFound)
    {
      if id !in proposals {
        return Err(ProposalNotFound);
      }
      return Ok(proposals[id]);
    }

    method UpdateProposal(p: Proposal, expected: ProposalState) returns (r: Result<(), RepositoryError>)
      modifies this
      ensures (proposals, r) == Updating(old(proposals), p, expected)
    {
      if p.id !in proposals {
        return Err(ProposalNotFound);
      }
      if proposals[p.id].state != expected {
        return Err(RepositoryConflict);
      }
      proposals := proposals[p.id := p];
      return Ok(());
    }
  }

  // The proposal under which an activation goes on: begun by this call or by an earlier one.
  function Begun(p: Proposal, operator: Id, points: int, salt: Id, now: Time): Option<Proposal> {
    if p.state == ProposalState.Activating then Some(p)
    else
      match p.BeginActivation(operator, points, salt, now)
      case Err(_) => None
      case Ok(begun) => Some(begun)
  }

  function Started(m: Manager, p: Proposal, now: Time): (Manager, Result<(), PolicyError>) {
    PolicyManagers.Activating(m, p.candidate, ExperimentOf(m, p, now))
  }

  // When an undisturbed activation goes through.
  predicate Activates(proposals: map<Id, Proposal>, m: Manager, id: Id, operator: Id, points: int, salt: Id,
                      now: Time)
  {
    && id != NO_ID && operator != NO_ID && salt != NO_ID && 1 <= points <= 10000 && id in proposals
    && (proposals[id].state == Active ||
        (var p := Begun(proposals[id], operator, points, salt, now);
         p.Some? && Started(m, p.value, now).1.Ok? && p.value.activatedAt <= now))
  }

  /* When the calls go through, undisturbed */

  // The proposal is pending, the reviewer is not the requester, and what is approved has passed.
  predicate Reviewable(p: Proposal, reviewer: Id, reason: Id, approve: bool, now: Time) {
    && p.state == PendingApproval && p.createdAt <= now
    && reviewer != NO_ID && reason != NO_ID && reviewer != p.requestedBy && (approve ==> p.risk.passed)
  }

  // The proposal as its activation goes on, with the parameters of the call that began it.
  function Underway(p: Proposal, operator: Id, points: int, salt: Id, now: Time): Proposal {
    if p.state == ProposalState.Activating then p
    else p.(state := ProposalState.Activating, activatedBy := operator, basisPoints := points, salt := salt,
            activatedAt := now, updatedAt := now)
  }

  // The experiment of a proposal, from the given time on.
  predicate IsExperimentOf(e: Experiment, m: Manager, p: Proposal) {
    && e.id == ExperimentId.Approved(p.id) && e.control == m.defaultVersion && e.treatment == p.candidate.version
    && e.basisPoints == p.basisPoints && e.salt == p.salt
  }

  // The manager can run the proposal's experiment, or runs it already.
  predicate CanLaunch(m: Manager, p: Proposal, now: Time) {
    && p.candidate.Valid() && p.candidate.version != m.defaultVersion
    && 0 <= p.basisPoints <= 10000 && p.salt != NO_ID && now != ZERO_TIME
    && (p.candidate.version in m.policies ==> m.policies[p.candidate.version] == p.candidate)
    && (m.experiment.Some? && m.experiment.value.id == ExperimentId.Approved(p.id) ==>
          IsExperimentOf(m.experiment.value, m, p))
  }

  // The manager runs the proposal's experiment, since now unless it did before.
  ghost predicate Launched(m: Manager, m': Manager, p: Proposal, now: Time) {
    if m.experiment.Some? && m.experiment.value.id == ExperimentId.Approved(p.id) then m' == m
    else
      && m'.experiment.Some? && IsExperimentOf(m'.experiment.value, m, p) && m'.experiment.value.startedAt == now
      && m' == m.(policies := m.policies[p.candidate.version := p.candidate], experiment := m'.experiment)
  }

  predicate MayActivate(proposals: map<Id, Proposal>, m: Manager, id: Id, operator: Id, points: int, salt: Id,
                        now: Time)
  {
    && id != NO_ID && operator != NO_ID && salt != NO_ID && 1 <= points <= 10000 && id in proposals
    && var p := proposals[id];
       || p.state == Active
       || (&& ((p.state == ProposalState.Approved && p.reviewedAt <= now)
               || (p.state == ProposalState.Activating && p.activatedAt <= now))
           && CanLaunch(m, Underway(p, operator, points, salt, now), now))
  }

  lemma ActivatesExactly(proposals: map<Id, Proposal>, m: Manager, id: Id, operator: Id, points: int, salt: Id,
                         now: Time)
    requires m.Sound() && (id in proposals ==> proposals[id].id == id)
    ensures Activates(proposals, m, id, operator, points, salt, now) <==>
              MayActivate(proposals, m, id, operator, points, salt, now)
    ensures Activates(proposals, m, id, operator, points, salt, now) && proposals[id].state != Active ==>
              var p := Underway(proposals[id], operator, points, salt, now);
              && Begun(proposals[id], operator, points, salt, now) == Some(p)
              && Launched(m, Started(m, p, now).0, p, now)
  {
  }

  // The proposal rolled back, by the operator of the call that began it.
  function Withdrawal(p: Proposal, operator: Id, now: Time): Proposal {
    if p.state == RollingBack then p.(state := RolledBack, updatedAt := now)
    else p.(state := RolledBack, rolledBackBy := operator, rolledBackAt := now, updatedAt := now)
  }

  predicate MayRollBack(proposals: map<Id, Proposal>, m: Manager, id: Id, operator: Id, now: Time) {
    && id != NO_ID && operator != NO_ID && id in proposals
    && var p := proposals[id];
       || p.state == RolledBack
       || (&& ((p.state == Active && p.activatedAt <= now) || (p.state == RollingBack && p.rolledBackAt <= now))
           && (m.experiment.None? || p.experimentId == Some(m.experiment.value.id)))
  }

  lemma RollsBackExactly(proposals: map<Id, Proposal>, m: Manager, id: Id, operator: Id, now: Time)
    ensures RollsBack(proposals, m, id, operator, now) <==> MayRollBack(proposals, m, id, operator, now)
    ensures RollsBack(proposals, m, id, operator, now) && proposals[id].state != RolledBack ==>
              && Withdrawn(proposals[id], operator, now).Some?
              && Withdrawn(proposals[id], operator, now).value.(state := RolledBack, updatedAt := now)
                 == Withdrawal(proposals[id], operator, now)
  {
  }

  // The call that follows the look-up of a proposal that is not active.
  function AfterFinding(p: Proposal, operator: Id, points: int, salt: Id, now: Time): Call {
    if p.state == ProposalState.Approved then
      match p.BeginActivation(operator, points, salt, now)
      case Err(_) => Refused
      case Ok(begun) => BeginUpdate(begun)
    else if p.state == ProposalState.Activating then ToActivate(p)
    else Refused
  }

  function AfterWithdrawing(p: Proposal, operator: Id, now: Time): Call {
    if p.state == Active then
      match p.BeginRollback(operator, now)
      case Err(_) => Refused
      case Ok(begun) => RollbackUpdate(begun)
    else if p.state == RollingBack then ToStop(p)
    else Refused
  }

  function Withdrawn(p: Proposal, operator: Id, now: Time): Option<Proposal> {
    if p.state == RollingBack then Some(p)
    else
      match p.BeginRollback(operator, now)
      case Err(_) => None
      case Ok(begun) => Some(begun)
  }

  predicate Stops(m: Manager, p: Proposal) {
    m.experiment.None? || p.experimentId == Some(m.experiment.value.id)
  }

  // When an undisturbed rollback goes through.
  predicate RollsBack(proposals: map<Id, Proposal>, m: Manager, id: Id, operator: Id, now: Time) {
    && id != NO_ID && operator != NO_ID && id in proposals
    && (proposals[id].state == RolledBack ||
        (var p := Withdrawn(proposals[id], operator, now);
         p.Some? && Stops(m, p.value) && p.value.rolledBackAt <= now))
  }

  // What the look-up of ActivateProposal comes to.
  function AfterLookUp(proposals: map<Id, Proposal>, id: Id, operator: Id, points: int, salt: Id, now: Time): Call {
    if operator == NO_ID || salt == NO_ID || points < 1 || points > 10000 || id !in proposals then Refused
    else if proposals[id].state == Active then Answered(proposals[id])
    else AfterFinding(proposals[id], operator, points, salt, now)
  }

  lemma CallActivateStep(s: System, c: nat, id: Id, operator: Id, points: int, salt: Id, now: Time) returns (s': System)
    requires Reachable(s) && c !in s.calls
    ensures Reachable(s') && s'.proposals == s.proposals && s'.manager == s.manager
    ensures c in s'.calls && s'.calls[c] == AfterLookUp(s.proposals, id, operator, points, salt, now)
  {
    s' := Next(s, CallActivate(c, id, operator, points, salt, now));
    NextIsReachable(s, CallActivate(c, id, operator, points, salt, now));
  }

  // What the look-up of RollbackProposal comes to.
  function AfterRollbackLookUp(proposals: map<Id, Proposal>, id: Id, operator: Id, now: Time): Call {
    if operator == NO_ID || id !in proposals then Refused
    else if proposals[id].state == RolledBack then Answered(proposals[id])
    else AfterWithdrawing(proposals[id], operator, now)
  }

  lemma CallRollbackStep(s: System, c: nat, id: Id, operator: Id, now: Time) returns (s': System)
    requires Reachable(s) && c !in s.calls
    ensures Reachable(s') && s'.proposals == s.proposals && s'.manager == s.manager
    ensures c in s'.calls && s'.calls[c] == AfterRollbackLookUp(s.proposals, id, operator, now)
  {
    s' := Next(s, CallRollback(c, id, operator, now));
    NextIsReachable(s, CallRollback(c, id, operator, now));
  }

  // The call that follows once no experiment is left to stop.
  function AfterStopping(p: Proposal, now: Time): Call {
    match p.CompleteRollback(now)
    case Err(_) => Refused
    case Ok(done) => FinishUpdate(done)
  }

  lemma StopStep(s: System, c: nat, p: Proposal, now: Time) returns (s': System)
    requires Reachable(s) && c in s.calls && s.calls[c] == ToStop(p) && p.experimentId.Some?
    ensures var r := Stopping(s.manager, p.experimentId.value);
            && Reachable(s') && s'.proposals == s.proposals && s'.manager == r.0
            && c in s'.calls && s'.calls[c] == if r.1.Ok? then AfterStopping(p, now) else CheckStopped(p)
  {
    s' := Next(s, Event.Proceed(c, now));
    NextIsReachable(s, Event.Proceed(c, now));
    assert s' == StoppingExperiment(s, c, p, now);
  }

  lemma CheckStep(s: System, c: nat, p: Proposal, now: Time) returns (s': System)
    requires Reachable(s) && c in s.calls && s.calls[c] == CheckStopped(p)
    ensures Reachable(s') && s'.proposals == s.proposals && s'.manager == s.manager
    ensures c in s'.calls && s'.calls[c] == if s.manager.experiment.None? then AfterStopping(p, now) else Refused
  {
    s' := Next(s, Event.Proceed(c, now));
    NextIsReachable(s, Event.Proceed(c, now));
  }

  lemma FinishStep(s: System, c: nat, p: Proposal, now: Time) returns (s': System)
    requires Reachable(s) && c in s.calls && s.calls[c] == FinishUpdate(p)
    ensures var r := Updating(s.proposals, p, RollingBack);
            && Reachable(s') && s'.proposals == r.0 && s'.manager == s.manager
            && c in s'.calls && s'.calls[c] == if r.1.Ok? then Answered(p) else Refused
  {
    s' := Next(s, Event.Proceed(c, now));
    NextIsReachable(s, Event.Proceed(c, now));
  }

  class Service {
    const repository: Repository
    const policies: PolicyManager
    ghost var system: System

    constructor (repository: Repository, policies: PolicyManager, ghost system: System)
      ensures this.repository == repository && this.policies == policies && this.system == system
    {
      this.repository, this.policies, this.system := repository, policies, system;
    }

    ghost predicate Valid()
      reads this, repository, policies
    {
      Reachable(system) && system.proposals == repository.proposals && system.manager == policies.State()
        && policies.State().Sound()
    }

    ghost predicate In(c: nat, call: Call)
      reads this
    {
      c in system.calls && system.calls[c] == call
    }

    ghost method Tick(e: Event)
      requires Reachable(system)
      modifies this`system
      ensures system == Next(old(system), e) && Reachable(system)
    {
      NextIsReachable(system, e);
      system := Next(system, e);
    }

    lemma StoredUnder(id: Id)
      requires Valid()
      ensures id in repository.proposals ==> repository.proposals[id].id == id
    {
      ReachableIsSafe(system);
      assert EntryOk(system, id);
    }

    /**
      Undisturbed, a review goes through iff the proposal is pending, the reviewer is somebody else and an
      approval has a passed report.
    */
    method ReviewProposal(ghost c: nat, id: Id, reviewer: Id, reason: Id, approve: bool, now: Time)
      returns (r: Result<Proposal, ServiceError>)
      requires Valid() && c !in system.calls
      modifies this`system, repository
      ensures Valid() && In(c, if r.Ok? then Answered(r.value) else Refused)
      ensures r.Ok? <==>
                id in old(repository.proposals)
                && Reviewable(old(repository.proposals)[id], reviewer, reason, approve, now)
      ensures repository.proposals
              == if r.Ok? then old(repository.proposals)[id := r.value] else old(repository.proposals)
      ensures r.Ok? ==>
                r.value == old(repository.proposals)[id].(
                  state := if approve then ProposalState.Approved else Rejected,
                  reviewerId := reviewer, reviewReason := reason, reviewedAt := now, updatedAt := now)
    {
      StoredUnder(id);
      var found := repository.GetProposal(id);
      Tick(CallReview(c, id, reviewer, reason, approve, now));
      if found.Err? {
        return Err(NotFound);
      }
      var reviewed := found.value.Review(reviewer, reason, approve, now);
      if reviewed.Err? {
        return Err(BadProposal(reviewed.error));
      }
      var updated := repository.UpdateProposal(reviewed.value, found.value.state);
      Tick(Event.Proceed(c, now));
      return if updated.Ok? then Ok(reviewed.value) else Err(Conflict);
    }

    /**
      Undisturbed, an activation goes through iff the proposal is active, or has been approved or
      begun and the manager accepts its experiment.  The proposal is active then; if this call did
      it, its own experiment runs, with the parameters under which the activation was begun.
    */
    method ActivateProposal(ghost c: nat, id: Id, operator: Id, points: int, salt: Id, now: Time)
      returns (r: Result<Proposal, ServiceError>)
      requires Valid() && c !in system.calls
      modifies this`system, repository, policies
      ensures Valid() && In(c, if r.Ok? then Answered(r.value) else Refused)
      ensures r.Ok? <==> MayActivate(old(repository.proposals), old(policies.State()), id, operator, points, salt, now)
      ensures r.Ok? ==> repository.proposals == old(repository.proposals)[id := r.value] && r.value.state == Active
      ensures r.Ok? && old(repository.proposals)[id].state == Active ==>
                r.value == old(repository.proposals)[id] && policies.State() == old(policies.State())
      ensures r.Ok? && old(repository.proposals)[id].state != Active ==>
                var p := Underway(old(repository.proposals)[id], operator, points, salt, now);
                && Runs(policies.State(), r.value) && Launched(old(policies.State()), policies.State(), p, now)
                && r.value == p.(state := Active, experimentId := Some(ExperimentId.Approved(id)), updatedAt := now)
    {
      StoredUnder(id);
      ActivatesExactly(repository.proposals, policies.State(), id, operator, points, salt, now);
      if id == NO_ID || operator == NO_ID || salt == NO_ID || points < 1 || points > 10000 {
        Untitled();
        system := CallActivateStep(system, c, id, operator, points, salt, now);
        return Err(InvalidCommand);
      }
      var found := repository.GetProposal(id);
      system := CallActivateStep(system, c, id, operator, points, salt, now);
      if found.Err? {
        return Err(NotFound);
      }
      if found.value.state == Active {
        return Ok(found.value);
      }
      r := Activate(c, found.value, operator, points, salt, now);
    }

    // From the proposal as found: begins the activation unless that was done, and goes on.
    method Activate(ghost c: nat, found: Proposal, operator: Id, points: int, salt: Id, now: Time)
      returns (r: Result<Proposal, ServiceError>)
      requires Valid() && found.state != Active
      requires found.id in repository.proposals && repository.proposals[found.id] == found
      requires In(c, AfterFinding(found, operator, points, salt, now))
      modifies this`system, repository, policies
      ensures Valid() && In(c, if r.Ok? then Answered(r.value) else Refused)
      ensures r.Ok? <==>
                var p := Begun(found, operator, points, salt, now);
                p.Some? && Started(old(policies.State()), p.value, now).1.Ok? && p.value.activatedAt <= now
      ensures r.Ok? ==> repository.proposals == old(repository.proposals)[found.id := r.value]
      ensures r.Ok? ==>
                var p := Begun(found, operator, points, salt, now).value;
                Runs(policies.State(), r.value) && policies.State() == Started(old(policies.State()), p, now).0
                && r.value == p.(state := Active, experimentId := r.value.experimentId, updatedAt := now)
    {
      var proposal := found;
      if proposal.state == ProposalState.Approved {
        var begun := Begin(c, proposal, operator, points, salt, now);
        if begun.Err? {
          return begun;
        }
        proposal := begun.value;
      }
      if proposal.state != ProposalState.Activating {
        return Err(BadProposal(IllegalProposalState));
      }
      r := RunExperiment(c, proposal, now);
    }

    // Persists the parameters of the activation before anything is activated.
    method Begin(ghost c: nat, proposal: Proposal, operator: Id, points: int, salt: Id, now: Time)
      returns (r: Result<Proposal, ServiceError>)
      requires Valid() && proposal.state == ProposalState.Approved
      requires proposal.id in repository.proposals && repository.proposals[proposal.id] == proposal
      requires In(c, AfterFinding(proposal, operator, points, salt, now))
      modifies this`system, repository
      ensures Valid() && In(c, if r.Ok? then ToActivate(r.value) else Refused)
      ensures r.Ok? <==> proposal.BeginActivation(operator, points, salt, now).Ok?
      ensures r.Ok? ==> r.value == proposal.BeginActivation(operator, points, salt, now).value
                        && repository.proposals == old(repository.proposals)[proposal.id := r.value]
    {
      var begun := proposal.BeginActivation(operator, points, salt, now);
      if begun.Err? {
        return Err(BadProposal(begun.error));
      }
      var updated := repository.UpdateProposal(begun.value, proposal.state);
      Tick(Event.Proceed(c, now));
      return if updated.Ok? then Ok(begun.value) else Err(Conflict);
    }

    // From the persisted activation to the active proposal.
    method RunExperiment(ghost c: nat, proposal: Proposal, now: Time) returns (r: Result<Proposal, ServiceError>)
      requires Valid() && In(c, ToActivate(proposal)) && proposal.state == ProposalState.Activating
      requires proposal.id in repository.proposals && repository.proposals[proposal.id] == proposal
      modifies this`system, repository, policies
      ensures Valid() && In(c, if r.Ok? then Answered(r.value) else Refused)
      ensures r.Ok? <==> Started(old(policies.State()), proposal, now).1.Ok? && proposal.activatedAt <= now
      ensures r.Ok? ==> repository.proposals == old(repository.proposals)[proposal.id := r.value]
      ensures r.Ok? ==>
                policies.State() == Started(old(policies.State()), proposal, now).0
                && Runs(policies.State(), r.value)
      ensures r.Ok? ==> r.value == proposal.(state := Active, experimentId := r.value.experimentId, updatedAt := now)
    {
      var experiment := ExperimentOf(policies.State(), proposal, now);
      var activated := policies.ActivateApprovedPolicy(proposal.candidate, experiment);
      Tick(Event.Proceed(c, now));
      if activated.Err? {
        return Err(BadPolicy(activated.error));
      }
      r := RecordExperiment(c, proposal, now);
    }

    // The experiment that runs is read and recorded.
    method RecordExperiment(ghost c: nat, proposal: Proposal, now: Time) returns (r: Result<Proposal, ServiceError>)
      requires Valid() && In(c, ReadExperiment(proposal)) && proposal.state == ProposalState.Activating
      requires proposal.id in repository.proposals && repository.proposals[proposal.id] == proposal
      modifies this`system, repository
      ensures Valid() && In(c, if r.Ok? then Answered(r.value) else Refused)
      ensures r.Ok? <==> policies.experiment.Some? && proposal.activatedAt <= now
      ensures r.Ok? ==> repository.proposals == old(repository.proposals)[proposal.id := r.value]
      ensures r.Ok? ==>
                r.value == proposal.(state := Active, experimentId := Some(policies.experiment.value.id),
                                     updatedAt := now)
    {
      var current := policies.experiment;
      var done := proposal.CompleteActivation(if current.Some? then Some(current.value.id) else None, now);
      Tick(Event.Proceed(c, now));
      if done.Err? {
        return Err(BadProposal(done.error));
      }
      var updated := repository.UpdateProposal(done.value, proposal.state);
      Tick(Event.Proceed(c, now));
      return if updated.Ok? then Ok(done.value) else Err(Conflict);
    }

    /**
      Undisturbed, a rollback goes through iff the proposal is rolled back, or is active or being
      rolled back and no experiment runs but the one it has recorded, which need not be its own.
      If this call did it, no experiment runs afterwards.
    */
    method RollbackProposal(ghost c: nat, id: Id, operator: Id, now: Time) returns (r: Result<Proposal, ServiceError>)
      requires Valid() && c !in system.calls
      modifies this`system, repository, policies
      ensures Valid() && In(c, if r.Ok? then Answered(r.value) else Refused)
      ensures r.Ok? <==> MayRollBack(old(repository.proposals), old(policies.State()), id, operator, now)
      ensures r.Ok? ==> repository.proposals == old(repository.proposals)[id := r.value] && r.value.state == RolledBack
      ensures policies.State() == old(policies.State()).(experiment := policies.experiment)
      ensures r.Ok? && old(repository.proposals)[id].state == RolledBack ==>
                r.value == old(repository.proposals)[id] && policies.experiment == old(policies.experiment)
      ensures r.Ok? && old(repository.proposals)[id].state != RolledBack ==>
                policies.experiment.None? && r.value == Withdrawal(old(repository.proposals)[id], operator, now)
    {
      RollsBackExactly(repository.proposals, policies.State(), id, operator, now);
      if id == NO_ID || operator == NO_ID {
        Untitled();
        system := CallRollbackStep(system, c, id, operator, now);
        return Err(InvalidCommand);
      }
      StoredUnder(id);
      var found := repository.GetProposal(id);
      system := CallRollbackStep(system, c, id, operator, now);
      if found.Err? {
        return Err(NotFound);
      }
      if found.value.state == RolledBack {
        return Ok(found.value);
      }
      r := RollBack(c, found.value, operator, now);
    }

    method RollBack(ghost c: nat, found: Proposal, operator: Id, now: Time) returns (r: Result<Proposal, ServiceError>)
      requires Valid() && found.state != RolledBack
      requires found.id in repository.proposals && repository.proposals[found.id] == found
      requires In(c, AfterWithdrawing(found, operator, now))
      modifies this`system, repository, policies
      ensures Valid() && In(c, if r.Ok? then Answered(r.value) else Refused)
      ensures r.Ok? <==>
                var p := Withdrawn(found, operator, now);
                p.Some? && Stops(old(policies.State()), p.value) && p.value.rolledBackAt <= now
      ensures r.Ok? ==> repository.proposals == old(repository.proposals)[found.id := r.value]
      ensures policies.State() == old(policies.State()).(experiment := policies.experiment)
      ensures r.Ok? ==>
                policies.experiment.None?
                && r.value == Withdrawn(found, operator, now).value.(state := RolledBack, updatedAt := now)
    {
      var proposal := found;
      if proposal.state == Active {
        var begun := Withdraw(c, proposal, operator, now);
        if begun.Err? {
          return begun;
        }
        proposal := begun.value;
      }
      if proposal.state != RollingBack {
        return Err(BadProposal(IllegalProposalState));
      }
      r := StopExperiment(c, proposal, now);
    }

    method Withdraw(ghost c: nat, proposal: Proposal, operator: Id, now: Time)
      returns (r: Result<Proposal, ServiceError>)
      requires Valid() && proposal.state == Active
      requires proposal.id in repository.proposals && repository.proposals[proposal.id] == proposal
      requires In(c, AfterWithdrawing(proposal, operator, now))
      modifies this`system, repository
      ensures Valid() && In(c, if r.Ok? then ToStop(r.value) else Refused)
      ensures r.Ok? <==> proposal.BeginRollback(operator, now).Ok?
      ensures r.Ok? ==> r.value == proposal.BeginRollback(operator, now).value
                        && repository.proposals == old(repository.proposals)[proposal.id := r.value]
    {
      var begun := proposal.BeginRollback(operator, now);
      if begun.Err? {
        return Err(BadProposal(begun.error));
      }
      var updated := repository.UpdateProposal(begun.value, proposal.state);
      Tick(Event.Proceed(c, now));
      return if updated.Ok? then Ok(begun.value) else Err(Conflict);
    }

    method StopExperiment(ghost c: nat, proposal: Proposal, now: Time) returns (r: Result<Proposal, ServiceError>)
      requires Valid() && In(c, ToStop(proposal)) && proposal.state == RollingBack
      requires proposal.id in repository.proposals && repository.proposals[proposal.id] == proposal
      modifies this`system, repository, policies
      ensures Valid() && In(c, if r.Ok? then Answered(r.value) else Refused)
      ensures r.Ok? <==> Stops(old(policies.State()), proposal) && proposal.rolledBackAt <= now
      ensures r.Ok? ==> repository.proposals == old(repository.proposals)[proposal.id := r.value]
      ensures policies.State() == old(policies.State()).(experiment := policies.experiment)
      ensures r.Ok? ==> policies.experiment.None? && r.value == proposal.(state := RolledBack, updatedAt := now)
    {
      HasExperiment(proposal);
      var stopped := policies.StopExperiment(proposal.experimentId.value);
      system := StopStep(system, c, proposal, now);
      if stopped.Err? {
        var none := policies.experiment.None?;
        system := CheckStep(system, c, proposal, now);
        if !none {
          return Err(BadPolicy(stopped.error));
        }
      }
      var done := proposal.CompleteRollback(now);
      if done.Err? {
        return Err(BadProposal(done.error));
      }
      var updated := repository.UpdateProposal(done.value, proposal.state);
      system := FinishStep(system, c, done.value, now);
      return if updated.Ok? then Ok(done.value) else Err(Conflict);
    }

    lemma HasExperiment(proposal: Proposal)
      requires Valid() && proposal.id in repository.proposals && repository.proposals[proposal.id] == proposal
               && proposal.state == RollingBack
      ensures proposal.experimentId.Some?
    {
      ReachableIsSafe(system);
      ReadVersion(system, proposal.id);
    }

    // No proposal is stored under the blank id.
    lemma Untitled()
      requires Valid()
      ensures NO_ID !in repository.proposals
    {
      ReachableIsSafe(system);
      if NO_ID in repository.proposals {
        ReadVersion(system, NO_ID);
      }
    }
  }

  // The manager runs the proposal's experiment, recorded under its own id, with its parameters and its policy.
  ghost predicate Runs(m: Manager, p: Proposal) {
    && m.experiment.Some? && m.experiment.value.id == ExperimentId.Approved(p.id)
       && p.experimentId == Some(m.experiment.value.id)
    && m.experiment.value.treatment == p.candidate.version && m.experiment.value.basisPoints == p.basisPoints
       && m.experiment.value.salt == p.salt
    && p.candidate.version in m.policies && m.policies[p.candidate.version] == p.candidate
  }
}
