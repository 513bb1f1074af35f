/**
  The policy registry with its experiment (internal/matchmaking/application/policy_manager.go).
*/
module PolicyManagers {
  import opened Prelude
  import Tickets

  datatype VersionedPolicy = VersionedPolicy(version: Id, policy: Tickets.Policy) {
    predicate Valid() {
      version != NO_ID && policy.Valid()
    }
  }

  // The operations service spells an experiment's id from the approval's; the one that an operator
  // configures has a name of another form.
  datatype ExperimentId = Approved(approval: Id) | Named(name: Id)

  datatype Experiment = Experiment(id: ExperimentId, control: Id, treatment: Id, basisPoints: int, salt: Id,
                                   startedAt: Time)

  datatype PolicyError = InvalidPolicy | InvalidExperiment | PolicyNotFound | ExperimentActive | ExperimentNotActive

  datatype Manager = Manager(policies: map<Id, VersionedPolicy>, defaultVersion: Id, experiment: Option<Experiment>) {
    // Every policy is valid and filed under its version, and the default and the experiment refer to known ones.
    ghost predicate Sound() {
      && defaultVersion in policies
      && (forall v :: v in policies ==> policies[v].version == v && policies[v].Valid())
      && (experiment.Some? ==>
           Normal(experiment.value) && experiment.value.control in policies
           && experiment.value.treatment in policies)
    }
  }

  predicate Normal(e: Experiment) {
    e.control != e.treatment && 0 <= e.basisPoints <= 10000 && e.salt != NO_ID && e.startedAt != ZERO_TIME
  }

  // Everything but the starting time.
  predicate SameParameters(a: Experiment, b: Experiment) {
    a.control == b.control && a.treatment == b.treatment && a.basisPoints == b.basisPoints && a.salt == b.salt
  }

  function Starting(m: Manager, e: Experiment): (Manager, Result<(), PolicyError>) {
    if !Normal(e) then (m, Err(InvalidExperiment))
    else if m.experiment.Some? then (m, Err(ExperimentActive))
    else if e.control !in m.policies || e.treatment !in m.policies then (m, Err(PolicyNotFound))
    else (m.(experiment := Some(e)), Ok(()))
  }

  function Registering(m: Manager, p: VersionedPolicy): (Manager, Result<(), PolicyError>) {
    if !p.Valid() then (m, Err(InvalidPolicy))
    else if p.version in m.policies && m.policies[p.version] != p then (m, Err(InvalidPolicy))
    else (m.(policies := m.policies[p.version := p]), Ok(()))
  }

  function Activating(m: Manager, p: VersionedPolicy, e: Experiment): (Manager, Result<(), PolicyError>) {
    if !p.Valid() then (m, Err(InvalidPolicy))
    else if !Normal(e) || e.treatment != p.version then (m, Err(InvalidExperiment))
    else if e.control !in m.policies then (m, Err(PolicyNotFound))
    else if p.version in m.policies && m.policies[p.version] != p then (m, Err(InvalidPolicy))
    else if m.experiment.Some? && m.experiment.value.id == e.id then
      (m, if SameParameters(m.experiment.value, e) then Ok(()) else Err(InvalidExperiment))
    else (m.(policies := m.policies[p.version := p], experiment := Some(e)), Ok(()))
  }

  function Stopping(m: Manager, id: ExperimentId): (Manager, Result<(), PolicyError>) {
    if m.experiment.None? || m.experiment.value.id != id then (m, Err(ExperimentNotActive))
    else (m.(experiment := None), Ok(()))
  }

  datatype Variant = Default | Control | Treatment

  const BUCKETS := 10000

  // The bucket of an assignment key is an arbitrary number below BUCKETS.
  function Selecting(m: Manager, bucket: int): (r: (VersionedPolicy, Variant))
    requires m.Sound() && 0 <= bucket < BUCKETS
  {
    match m.experiment
    case None => (m.policies[m.defaultVersion], Default)
    case Some(e) => if bucket < e.basisPoints then (m.policies[e.treatment], Treatment)
                    else (m.policies[e.control], Control)
  }

  lemma StepsAreSound(m: Manager, p: VersionedPolicy, e: Experiment, id: ExperimentId)
    requires m.Sound()
    ensures Starting(m, e).0.Sound() && Registering(m, p).0.Sound() && Activating(m, p, e).0.Sound()
            && Stopping(m, id).0.Sound()
  {
  }

  // A version, once registered, always means the same policy.
  ghost predicate VersionsKept(m: Manager, m': Manager) {
    m'.defaultVersion == m.defaultVersion && forall v :: v in m.policies ==>
        v in m'.policies && m'.policies[v] == m.policies[v]
  }

  lemma StepsKeepVersions(m: Manager, p: VersionedPolicy, e: Experiment, id: ExperimentId)
    requires m.Sound()
    ensures VersionsKept(m, Starting(m, e).0) && VersionsKept(m, Registering(m, p).0)
    ensures VersionsKept(m, Activating(m, p, e).0) && VersionsKept(m, Stopping(m, id).0)
  {
  }

  ghost function TreatedBuckets(m: Manager): set<int>
    requires m.Sound()
  {
    set bucket | 0 <= bucket < BUCKETS && Selecting(m, bucket).1 == Treatment
  }

  /**
    An experiment treats exactly its share of the buckets: those get its treatment policy, and the
    others its control policy.  Without one every key gets the default policy.
  */
  lemma TreatmentShare(m: Manager)
    requires m.Sound()
    ensures |TreatedBuckets(m)| == if m.experiment.Some? then m.experiment.value.basisPoints else 0
    ensures forall bucket :: 0 <= bucket < BUCKETS ==>
              var selected := Selecting(m, bucket);
              && (selected.1 == Default <==> m.experiment.None?)
              && (selected.1 == Default ==> selected.0.version == m.defaultVersion)
              && (selected.1 == Treatment ==> selected.0.version == m.experiment.value.treatment)
              && (selected.1 == Control ==> selected.0.version == m.experiment.value.control)
              && selected.0.version in m.policies && selected.0 == m.policies[selected.0.version]
  {
    if m.experiment.Some? {
      var n := m.experiment.value.basisPoints;
      assert TreatedBuckets(m) == Below(n);
    } else {
      assert TreatedBuckets(m) == {};
    }
  }

  /** With a larger share, every key that was treated still is. */
  lemma TreatmentIsSticky(m: Manager, e: Experiment, bucket: int)
    requires m.Sound() && m.experiment.Some? && m.(experiment := Some(e)).Sound() && 0 <= bucket < BUCKETS
    requires e.basisPoints >= m.experiment.value.basisPoints && Selecting(m, bucket).1 == Treatment
    ensures Selecting(m.(experiment := Some(e)), bucket).1 == Treatment
  {
  }

  ghost function Below(n: nat): (r: set<int>)
    ensures |r| == n && forall k :: k in r <==> 0 <= k < n
  {
    if n == 0 then {} else Below(n - 1) + {n - 1}
  }

  predicate IsUnderway(experiment: Option<Experiment>, id: ExperimentId) {
    experiment.Some? && experiment.value.id == id
  }

  class PolicyManager {
    var policies: map<Id, VersionedPolicy>
    const defaultVersion: Id
    var experiment: Option<Experiment>

    function State(): Manager
      reads this
    {
      Manager(policies, defaultVersion, experiment)
    }

    /** One policy for each version given; the caller has validated them and the default is one of them. */
    constructor (policies: map<Id, VersionedPolicy>, defaultVersion: Id)
      requires defaultVersion in policies && forall v :: v in policies ==>
                 policies[v].version == v && policies[v].Valid()
      ensures State() == Manager(policies, defaultVersion, None) && State().Sound()
    {
      this.policies, this.defaultVersion, this.experiment := policies, defaultVersion, None;
    }

    method StartExperiment(e: Experiment) returns (r: Result<(), PolicyError>)
      requires State().Sound()
      modifies this
      ensures (State(), r) == Starting(old(State()), e) && State().Sound()
      ensures r.Ok? <==> old(experiment).None? && Normal(e) && e.control in policies && e.treatment in policies
      ensures policies == old(policies) && experiment == if r.Ok? then Some(e) else old(experiment)
    {
      if !Normal(e) {
        return Err(InvalidExperiment);
      }
      if experiment.Some? {
        return Err(ExperimentActive);
      }
      if e.control !in policies || e.treatment !in policies {
        return Err(PolicyNotFound);
      }
      experiment := Some(e);
      return Ok(());
    }

    method RegisterPolicy(p: VersionedPolicy) returns (r: Result<(), PolicyError>)
      requires State().Sound()
      modifies this
      ensures (State(), r) == Registering(old(State()), p) && State().Sound()
      ensures r.Ok? <==> p.Valid() && (p.version in old(policies) ==> old(policies)[p.version] == p)
      ensures experiment == old(experiment)
      ensures policies == if r.Ok? then old(policies)[p.version := p] else old(policies)
    {
      if !p.Valid() || (p.version in policies && policies[p.version] != p) {
        return Err(InvalidPolicy);
      }
      policies := policies[p.version := p];
      return Ok(());
    }

    method ActivateApprovedPolicy(p: VersionedPolicy, e: Experiment) returns (r: Result<(), PolicyError>)
      requires State().Sound()
      modifies this
      ensures (State(), r) == Activating(old(State()), p, e) && State().Sound()
      ensures r.Ok? <==>
                && p.Valid() && Normal(e) && e.treatment == p.version && e.control in old(policies)
                && (p.version in old(policies) ==> old(policies)[p.version] == p)
                && (IsUnderway(old(experiment), e.id) ==> SameParameters(old(experiment).value, e))
      ensures r.Err? || IsUnderway(old(experiment), e.id) ==> State() == old(State())
      ensures r.Ok? && !IsUnderway(old(experiment), e.id) ==>
                policies == old(policies)[p.version := p] && experiment == Some(e)
    {
      if !p.Valid() {
        return Err(InvalidPolicy);
      }
      if !Normal(e) || e.treatment != p.version {
        return Err(InvalidExperiment);
      }
      if e.control !in policies {
        return Err(PolicyNotFound);
      }
      if p.version in policies && policies[p.version] != p {
        return Err(InvalidPolicy);
      }
      if experiment.Some? && experiment.value.id == e.id {
        return if SameParameters(experiment.value, e) then Ok(()) else Err(InvalidExperiment);
      }
      policies := policies[p.version := p];
      experiment := Some(e);
      return Ok(());
    }

    method StopExperiment(id: ExperimentId) returns (r: Result<(), PolicyError>)
      requires State().Sound()
      modifies this
      ensures (State(), r) == Stopping(old(State()), id) && State().Sound()
      ensures r.Ok? <==> IsUnderway(old(experiment), id)
      ensures policies == old(policies) && experiment == if r.Ok? then None else old(experiment)
    {
      if experiment.None? || experiment.value.id != id {
        return Err(ExperimentNotActive);
      }
      experiment := None;
      return Ok(());
    }
  }
}
