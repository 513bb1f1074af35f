/**
  Policy proposals (internal/agent/domain/agent.go) and their saga: callers that review, activate
  and roll back (internal/agent/application/service.go:248-349) interleaved over the proposal
  repository (internal/agent/repository/memory/repository.go) and the policy manager.  Each call
  of a repository or of the manager is one step; a caller may stop between any two.
*/
module Proposals {
  import opened Prelude
  import opened PolicyManagers

  datatype ProposalState = PendingApproval | Approved | Rejected | Activating | Active | RollingBack | RolledBack

  datatype ProposalError = InvalidProposal | IllegalProposalState | SeparationOfDuties | RiskReviewBlocked

  datatype RiskStatus = Pass | Warning | Block

  datatype Finding = Finding(category: Id, status: RiskStatus, message: Id)

  datatype RiskReport = RiskReport(passed: bool, samples: int, findings: seq<Finding>) {
    // Five findings of different categories, and a verdict that agrees with them.
    predicate Valid() {
      && samples >= 0 && |findings| == 5
      && (forall i :: 0 <= i < |findings| ==> findings[i].category != NO_ID && findings[i].message != NO_ID)
      && (forall i, j :: 0 <= i < j < |findings| ==> findings[i].category != findings[j].category)
      && (passed <==> forall i :: 0 <= i < |findings| ==> findings[i].status != Block)
    }
  }

  method ValidateRiskReport(report: RiskReport) returns (ok: bool)
    ensures ok <==> report.Valid()
  {
    if report.samples < 0 || |report.findings| != 5 {
      return false;
    }
    var passed := true;
    var seen: set<Id> := {};
    for i := 0 to |report.findings|
      invariant seen == set k | 0 <= k < i :: report.findings[k].category
      invariant forall k :: 0 <= k < i ==> report.findings[k].category != NO_ID && report.findings[k].message != NO_ID
      invariant forall j, k :: 0 <= j < k < i ==> report.findings[j].category != report.findings[k].category
      invariant passed <==> forall k :: 0 <= k < i ==> report.findings[k].status != Block
    {
      var finding := report.findings[i];
      if finding.category == NO_ID || finding.message == NO_ID || finding.category in seen {
        return false;
      }
      seen := seen + {finding.category};
      if finding.status == Block {
        passed := false;
      }
    }
    return report.passed == passed;
  }

  datatype Proposal = Proposal(
    id: Id,
    runId: Id,
    requestedBy: Id,
    candidate: VersionedPolicy,
    risk: RiskReport,
    state: ProposalState,
    reviewerId: Id,
    reviewReason: Id,
    reviewedAt: Time,
    experimentId: Option<ExperimentId>,
    activatedBy: Id,
    basisPoints: int,
    salt: Id,
    activatedAt: Time,
    rolledBackBy: Id,
    rolledBackAt: Time,
    createdAt: Time,
    updatedAt: Time)
  {
    function Review(reviewer: Id, reason: Id, approve: bool, now: Time): Result<Proposal, ProposalError> {
      if state != PendingApproval then Err(IllegalProposalState)
      else if reviewer == NO_ID || reason == NO_ID || now < createdAt then Err(InvalidProposal)
      else if reviewer == requestedBy then Err(SeparationOfDuties)
      else if approve && !risk.passed then Err(RiskReviewBlocked)
      else
        Ok(this.(reviewerId := reviewer, reviewReason := reason, reviewedAt := now,
                 state := if approve then ProposalState.Approved else Rejected, updatedAt := now))
    }

    function BeginActivation(operator: Id, points: int, assignmentSalt: Id, now: Time)
      : Result<Proposal, ProposalError>
    {
      if state != ProposalState.Approved then Err(IllegalProposalState)
      else if operator == NO_ID || points < 1 || points > 10000 || assignmentSalt == NO_ID || now < reviewedAt
        then Err(InvalidProposal)
      else
        Ok(this.(state := ProposalState.Activating, activatedBy := operator, basisPoints := points,
                 salt := assignmentSalt,
                 activatedAt := now, updatedAt := now))
    }

    // An experiment without an id is what the manager reports when none is active.
    function CompleteActivation(experiment: Option<ExperimentId>, now: Time): Result<Proposal, ProposalError> {
      if state != ProposalState.Activating then Err(IllegalProposalState)
      else if experiment.None? || now < activatedAt then Err(InvalidProposal)
      else Ok(this.(state := Active, experimentId := experiment, updatedAt := now))
    }

    function BeginRollback(operator: Id, now: Time): Result<Proposal, ProposalError> {
      if state != Active then Err(IllegalProposalState)
      else if operator == NO_ID || now < activatedAt then Err(InvalidProposal)
      else Ok(this.(state := RollingBack, rolledBackBy := operator, rolledBackAt := now, updatedAt := now))
    }

    function CompleteRollback(now: Time): Result<Proposal, ProposalError> {
      if state != RollingBack then Err(IllegalProposalState)
      else if now < rolledBackAt then Err(InvalidProposal)
      else Ok(this.(state := RolledBack, updatedAt := now))
    }
  }

  function NewProposal(id: Id, runId: Id, requestedBy: Id, candidate: VersionedPolicy, risk: RiskReport,
                       now: Time)
    : Result<Proposal, ProposalError>
  {
    if id == NO_ID || runId == NO_ID || requestedBy == NO_ID || now == ZERO_TIME || !candidate.Valid() || !risk.Valid()
      then Err(InvalidProposal)
    else
      Ok(Proposal(id, runId, requestedBy, candidate, risk, PendingApproval, NO_ID, NO_ID, ZERO_TIME, None, NO_ID, 0,
                  NO_ID, ZERO_TIME,
                  NO_ID, ZERO_TIME, now, now))
  }

  datatype RepositoryError = ProposalNotFound | RepositoryConflict

  // The state is the version.
  function Updating(proposals: map<Id, Proposal>, p: Proposal, expected: ProposalState)
    : (map<Id, Proposal>, Result<(), RepositoryError>)
  {
    if p.id !in proposals then (proposals, Err(ProposalNotFound))
    else if proposals[p.id].state != expected then (proposals, Err(RepositoryConflict))
    else (proposals[p.id := p], Ok(()))
  }

  /* The saga */

  // The next call of a caller; copy is its own proposal.
  datatype Call =
    | UpdateReview(copy: Proposal)
    | BeginUpdate(copy: Proposal)
    | ToActivate(copy: Proposal)
    | ReadExperiment(copy: Proposal)
    | CompleteUpdate(copy: Proposal)
    | RollbackUpdate(copy: Proposal)
    | ToStop(copy: Proposal)
    | CheckStopped(copy: Proposal)
    | FinishUpdate(copy: Proposal)
    | Answered(copy: Proposal)
    | Refused

  datatype System = System(
    proposals: map<Id, Proposal>,
    history: map<Id, seq<Proposal>>,
    manager: Manager,
    calls: map<nat, Call>)
  {
    function Answer(c: nat, call: Call): System {
      this.(calls := calls[c := call])
    }

    function Stored(p: Proposal): System {
      this.(proposals := proposals[p.id := p],
            history := history[p.id := (if p.id in history then history[p.id] else []) + [p]])
    }
  }

  datatype Event =
    | Propose(id: Id, runId: Id, requestedBy: Id, candidate: VersionedPolicy, risk: RiskReport, now: Time)
    | CallReview(c: nat, id: Id, reviewer: Id, reason: Id, approve: bool, now: Time)
    | CallActivate(c: nat, id: Id, operator: Id, points: int, salt: Id, now: Time)
    | CallRollback(c: nat, id: Id, operator: Id, now: Time)
    | Proceed(c: nat, now: Time)
    | Register(policy: VersionedPolicy)
    | StartNamed(experiment: Experiment)

  function Reviewing(s: System, c: nat, id: Id, reviewer: Id, reason: Id, approve: bool, now: Time): System {
    if id !in s.proposals then s.Answer(c, Refused)
    else
      match s.proposals[id].Review(reviewer, reason, approve, now)
      case Err(_) => s.Answer(c, Refused)
      case Ok(copy) => s.Answer(c, UpdateReview(copy))
  }

  function CallingActivate(s: System, c: nat, id: Id, operator: Id, points: int, salt: Id, now: Time): System {
    if operator == NO_ID || salt == NO_ID || points < 1 || points > 10000 then s.Answer(c, Refused)
    else if id !in s.proposals then s.Answer(c, Refused)
    else
      var p := s.proposals[id];
      if p.state == Active then s.Answer(c, Answered(p))
      else if p.state == ProposalState.Approved then
        match p.BeginActivation(operator, points, salt, now)
        case Err(_) => s.Answer(c, Refused)
        case Ok(copy) => s.Answer(c, BeginUpdate(copy))
      else if p.state == ProposalState.Activating then s.Answer(c, ToActivate(p))
      else s.Answer(c, Refused)
  }

  function CallingRollback(s: System, c: nat, id: Id, operator: Id, now: Time): System {
    if operator == NO_ID || id !in s.proposals then s.Answer(c, Refused)
    else
      var p := s.proposals[id];
      if p.state == RolledBack then s.Answer(c, Answered(p))
      else if p.state == Active then
        match p.BeginRollback(operator, now)
        case Err(_) => s.Answer(c, Refused)
        case Ok(copy) => s.Answer(c, RollbackUpdate(copy))
      else if p.state == RollingBack then s.Answer(c, ToStop(p))
      else s.Answer(c, Refused)
  }

  // An update of the caller's copy, and what the caller does when it is accepted.
  function Saving(s: System, c: nat, copy: Proposal, expected: ProposalState, next: Call): System {
    if Updating(s.proposals, copy, expected).1.Ok? then s.Stored(copy).Answer(c, next) else s.Answer(c, Refused)
  }

  // The experiment that the operations service starts for a proposal.
  function ExperimentOf(m: Manager, p: Proposal, now: Time): Experiment {
    Experiment(ExperimentId.Approved(p.id), m.defaultVersion, p.candidate.version, p.basisPoints, p.salt, now)
  }

  function ActivatingPolicy(s: System, c: nat, copy: Proposal, now: Time): System {
    var r := PolicyManagers.Activating(s.manager, copy.candidate, ExperimentOf(s.manager, copy, now));
    s.(manager := r.0).Answer(c, if r.1.Ok? then ReadExperiment(copy) else Refused)
  }

  // The service reads the active experiment in a call of its own and records its id.
  function Recording(s: System, c: nat, copy: Proposal, now: Time): System {
    match copy.CompleteActivation(if s.manager.experiment.Some? then Some(s.manager.experiment.value.id) else None, now)
    case Err(_) => s.Answer(c, Refused)
    case Ok(done) => s.Answer(c, CompleteUpdate(done))
  }

  function FinishingRollback(s: System, c: nat, copy: Proposal, now: Time): System {
    match copy.CompleteRollback(now)
    case Err(_) => s.Answer(c, Refused)
    case Ok(done) => s.Answer(c, FinishUpdate(done))
  }

  // "Not active" counts as stopped only if no experiment is active.
  function StoppingExperiment(s: System, c: nat, copy: Proposal, now: Time): System {
    if copy.experimentId.None? then s.Answer(c, Refused)
    else
      var r := Stopping(s.manager, copy.experimentId.value);
      if r.1.Ok? then FinishingRollback(s.(manager := r.0), c, copy, now) else s.Answer(c, CheckStopped(copy))
  }

  function Proceeding(s: System, c: nat, now: Time): System
    requires c in s.calls
  {
    match s.calls[c]
    case UpdateReview(copy) => Saving(s, c, copy, PendingApproval, Answered(copy))
    case BeginUpdate(copy) => Saving(s, c, copy, ProposalState.Approved, ToActivate(copy))
    case ToActivate(copy) => ActivatingPolicy(s, c, copy, now)
    case ReadExperiment(copy) => Recording(s, c, copy, now)
    case CompleteUpdate(copy) => Saving(s, c, copy, ProposalState.Activating, Answered(copy))
    case RollbackUpdate(copy) => Saving(s, c, copy, Active, ToStop(copy))
    case ToStop(copy) => StoppingExperiment(s, c, copy, now)
    case CheckStopped(copy) => if s.manager.experiment.None? then FinishingRollback(s, c, copy, now)
                               else s.Answer(c, Refused)
    case FinishUpdate(copy) => Saving(s, c, copy, RollingBack, Answered(copy))
    case _ => s
  }

  function Next(s: System, e: Event): System {
    match e
    case Propose(id, runId, requestedBy, candidate, risk, now) =>
      var p := NewProposal(id, runId, requestedBy, candidate, risk, now);
      if p.Ok? && id !in s.proposals then s.Stored(p.value) else s
    case CallReview(c, id, reviewer, reason, approve, now) => if c in s.calls then s
      else Reviewing(s, c, id, reviewer, reason, approve, now)
    case CallActivate(c, id, operator, points, salt, now) => if c in s.calls then s
      else CallingActivate(s, c, id, operator, points, salt, now)
    case CallRollback(c, id, operator, now) => if c in s.calls then s else CallingRollback(s, c, id, operator, now)
    case Proceed(c, now) => if c in s.calls then Proceeding(s, c, now) else s
    case Register(p) => s.(manager := Registering(s.manager, p).0)
    case StartNamed(experiment) => if experiment.id.Named? then s.(manager := Starting(s.manager, experiment).0) else s
  }
}
