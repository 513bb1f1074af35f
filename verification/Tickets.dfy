/**
  The ticket aggregate (internal/matchmaking/domain/ticket.go) and the matchmaking policy
  (internal/matchmaking/domain/policy.go).

  Every store hands out clones of tickets and never shares a pointer with a caller, so a
  ticket is modelled as a value; a transition returns the updated ticket or an error.
*/
module Tickets {
  import opened Prelude

  datatype Role = Vanguard | Roamer | Core | Ranged | Support

  datatype PoolKey = PoolKey(mode: Id, clientVersion: Id, region: Id)

  datatype TicketState = Created | Queued | Reserved | Assigned | Cancelled | Expired | Failed

  datatype TicketError = InvalidTicket | IllegalTransition | ReservationMismatch | NotExpired

  // The fields that are fixed when a ticket is created; the engine reads nothing else.
  datatype Profile = Profile(
    id: Id,
    player: Id,
    party: Id,
    pool: PoolKey,
    rating: real,
    roles: seq<Role>,
    latency: map<Id, int>,
    createdAt: Time)
  {
    // What NewTicket checks of these fields.
    predicate Acceptable() {
      && id != NO_ID && player != NO_ID && createdAt != ZERO_TIME && rating > 0.0
      && pool.mode != NO_ID && pool.clientVersion != NO_ID && pool.region != NO_ID
      && 1 <= |roles| <= 5 && (forall i, j :: 0 <= i < j < |roles| ==> roles[i] != roles[j])
      && latency != map[] && forall region :: region in latency ==> region != NO_ID && 0 <= latency[region] <= 1000
    }
  }

  // A ticket: its profile and the fields that transitions overwrite.
  datatype Ticket = Ticket(
    profile: Profile,
    state: TicketState,
    updatedAt: Time,
    reservation: Id,
    expiresAt: Time,
    matchId: Id)
  {
    // The cross-field rules that RestoreTicket enforces.
    ghost predicate Restorable() {
      match state
      case Reserved => reservation != NO_ID && expiresAt != ZERO_TIME && matchId == NO_ID
      case Assigned => reservation != NO_ID && expiresAt != ZERO_TIME && matchId != NO_ID
      case _ => reservation == NO_ID && expiresAt == ZERO_TIME && matchId == NO_ID
    }

    predicate IsQueueCandidate() {
      state == Queued
    }

    predicate IsActive() {
      state in {Created, Queued, Reserved, Assigned}
    }

    // In a pool: waiting or held by a worker.
    predicate Waiting() {
      state == Queued || state == Reserved
    }

    function Moved(to: TicketState, now: Time): Ticket {
      this.(state := to, updatedAt := now)
    }

    function Cleared(): Ticket {
      this.(reservation := NO_ID, expiresAt := ZERO_TIME)
    }

    function Cancel(now: Time): Result<Ticket, TicketError> {
      if state == Cancelled then Ok(this)
      else if state != Created && state != Queued then Err(IllegalTransition)
      else Ok(Cleared().Moved(Cancelled, now))
    }

    function Reserve(r: Id, expires: Time, now: Time): Result<Ticket, TicketError> {
      if state != Queued then Err(IllegalTransition)
      else if r == NO_ID || expires == ZERO_TIME || expires <= now then Err(InvalidTicket)
      else Ok(this.(reservation := r, expiresAt := expires).Moved(Reserved, now))
    }

    function Assign(r: Id, m: Id, now: Time): Result<Ticket, TicketError> {
      if state != Reserved then Err(IllegalTransition)
      else if r == NO_ID || r != reservation then Err(ReservationMismatch)
      else if m == NO_ID then Err(InvalidTicket)
      else Ok(this.(matchId := m).Moved(Assigned, now))
    }

    function ReleaseReservation(r: Id, now: Time): Result<Ticket, TicketError> {
      if state != Reserved then Err(IllegalTransition)
      else if r == NO_ID || r != reservation then Err(ReservationMismatch)
      else Ok(Cleared().Moved(Queued, now))
    }

    function ReleaseExpired(now: Time): Result<Ticket, TicketError> {
      if state != Reserved then Err(IllegalTransition)
      else if now < expiresAt then Err(NotExpired)
      else Ok(Cleared().Moved(Queued, now))
    }
  }

  const NANOSECONDS_PER_SECOND := 1000000000.0

  function Seconds(wait: Time): real {
    wait as real / NANOSECONDS_PER_SECOND
  }

  datatype Policy = Policy(
    teamSize: nat,
    candidateLimit: nat,
    beamWidth: nat,
    initialRatingRange: real,
    maxRatingRange: real,
    ratingExpansionPerSecond: real,
    initialLatency: int,
    maxLatency: int,
    latencyExpansionPerSecond: real,
    roleRelaxationAfter: Time,
    roleRelaxationPerSecond: real,
    maxNonPreferredRoleScore: real)
  {
    // The part of MatchPolicy.Validate that concerns the fields above.
    predicate Valid() {
      && teamSize == 5 && candidateLimit >= teamSize * 2
      && 1 <= beamWidth <= 1024
      && 0.0 <= initialRatingRange <= maxRatingRange && ratingExpansionPerSecond >= 0.0
      && 0 < initialLatency <= maxLatency && latencyExpansionPerSecond >= 0.0
      && roleRelaxationAfter >= 0 && roleRelaxationPerSecond >= 0.0
      && 0.0 <= maxNonPreferredRoleScore <= 100.0
    }

    function RatingRange(wait: Time): real {
      var range := initialRatingRange + Seconds(if wait < 0 then 0 else wait) * ratingExpansionPerSecond;
      if range > maxRatingRange then maxRatingRange else range
    }

    function LatencyLimit(wait: Time): int {
      var limit := initialLatency as real + Seconds(if wait < 0 then 0 else wait) * latencyExpansionPerSecond;
      if limit >= maxLatency as real then maxLatency else limit.Floor
    }

    function NonPreferredRoleScore(wait: Time): real {
      if wait <= roleRelaxationAfter then 0.0
      else
        var score := Seconds(wait - roleRelaxationAfter) * roleRelaxationPerSecond;
        if score > maxNonPreferredRoleScore then maxNonPreferredRoleScore else score
    }
  }
}
