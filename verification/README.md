# Matchmaking, verified in Dafny

This project models the core of a five-against-five matchmaker, its rating ledger and its policy
agent, and proves what they promise. `dafny verify dfyconfig.toml` checks everything.

The modules follow the program; `Prelude`, `Sorting` and `Tickets` are shared:

- **The engine** (`internal/matchmaking/engine`). `Permutations`, `TeamBuilding`, `Groups`,
  `Selection`, `Partition`, `Beam`, `Optimizer`, `FormationAlgorithms`, `GreedyExample`,
  `CandidateGeneration` and, between the engine and the worker, `Lineups` and `Heroes`. The loops are methods proved against
  declarative meanings: the best assignment of roles over all permutations, the colexicographically
  least subset, the best balanced split, the choices that a beam search cannot lose. `CandidateWindows` and
  `Fairness` say what comes out in terms of the tickets alone: who gets in and why others do not, who plays on
  which side and how even the sides are.
- **The ticket store** (`internal/matchmaking/repository/memory`). `TicketStoreSpec` gives the six
  maps, their invariant and every operation as a function; `MemoryTicketStore` has the class whose
  methods refine it; `StoreEffects` says when the operations of players and matches go through and what they
  change; `IdempotentRequests`, `QueueReads` and `StoreStability` hold what follows.
- **Matches and servers.** `Matches`, `MatchStores` and `Allocators`: the aggregate with its
  lifecycle and revisions, the store with optimistic updates, the allocator with its capacities.
- **The saga** (`internal/matchmaking/application`). `Saga` is a state machine: workers, match
  service calls, players and the recovery of lapsed reservations take their steps against the
  stores in any order. `SagaInvariant` and `SagaSafety` prove what holds in every state of every run, and
  `RecordedResults` whose result a finished match has. `AttemptCalls` and `UndisturbedAttempts` say what becomes
  of an attempt that nobody disturbs, `EligibleTickets` what the filter of players does, and `PoolAttempts` when a
  pool gets its match and which one. `Workers` and `MatchServices` have the imperative code: every call is a step
  of the machine.
- **Redis** (`internal/matchmaking/repository/redis`). `RedisScripts` and `RedisAgreement` treat the
  four scripts and the pipelines as steps on eight structures, and `RedisMoves` says what they do to each
  ticket; `RedisQueues` has the script loops,
  `RedisStores` the combined store, and `RedisDurable` Redis beside the durable side under every
  interleaving; `RedisRuns` has concrete runs.
- **Ratings** (`internal/player`, `internal/rating`). `RatingLedger`, `EloRatings`,
  `PlayerRepositories`, `RatingServices` and `Glicko2`.
- **Policies and proposals** (`internal/matchmaking/application`, `internal/agent`).
  `PolicyManagers`, `Proposals`, `ProposalSafety`, `ExperimentRecords` and `AgentServices`: a second
  state machine with concurrent reviewers and operators.

Identifiers are natural numbers with 0 for a blank one, times are integers with 0 for the zero time,
and floating point numbers are reals. Errors are `Result` values. Clocks, generated ids and tokens,
the engine's quality function and the exponential and logarithm are parameters.

## Findings

Properties that do not hold of the code as it is, with the input and the exact condition:

- Greedy formation is not complete. `FormTeamsGreedy` succeeds iff the *first* choice of ten players
  splits into two fives. `GreedyMissesSplit` has groups of 4, 4, 2, 1 and 5 with a split that it
  misses; `GreedyIsIncomplete` has sixteen tickets in such parties that the service accepts and
  candidate generation hands to the algorithm (`SixteenAreGenerated`).
- `RemoveTicket` of the Redis queue reads before its pipeline. The structures agree afterwards iff what it
  read is still current (`RemoveAgreesExactly`). Otherwise the release of the whole reservation is
  refused until its set expires (`StaleRemovalBlocksRelease`, `StaleRemovalExample`); then they agree again.
- `UpsertTicket` keeps the structures in agreement iff no reservation set lists the ticket and it
  keeps its pool while it waits (`UpsertAgreesExactly`). A creation that is repeated while the ticket
  is being reserved breaks that: the release is refused (`RepeatedUpsertExample`), and Redis goes on
  to offer a ticket that is held durably (`RepeatedCreationRun`).
- Redis can offer a ticket that already plays, if its recovery comes between the durable assignment
  and the finalization (`LateFinalizationOffers`, and `LateFinalizationRun` from empty stores). It
  can offer one that a worker still holds, if the recovery falls into the millisecond to which Redis
  rounds the expiry (`EarlyRecoveryRun`). `RecoveryIsTimely` and `ReleaseIsTimely` are exact. The
  durable side refuses every ticket that is offered like this (`OfferedIsRefused`).
- An activated proposal need not record its own experiment: the operations service starts the
  experiment and reads the active one in two calls. It records its own iff nothing has displaced
  that in between (`RecordedExperiment`); `OvertakenRun` is a run where it does not, and rolling that
  proposal back then stops somebody else's experiment (`WrongRollback`; `RollbackSparesOthers` is exact).
- The worker's filter gives up on the whole pool iff a player has already used the cancellation key
  of an ineligible ticket of his for another ticket (`PurgeExactly`). Callers choose the
  keys of their cancellations; `KeyTakenRun` makes such a store with four calls.

Two properties that look doubtful and hold: the last update of an attempt has no compensation, but
it cannot be refused (`PublishingIsSafe`); and the check for two tickets of one player in a
reservation never fires (`ReserveExactly`).

## Model

| member | source | states |
|---|---|---|
| `Permutations.VisitsExactlyOnce` | internal/matchmaking/engine/team.go:195-205 | the visitor sees each rearrangement of distinct elements exactly once and nothing else, n! in all |
| `TeamBuilding.PermuteRoles` | internal/matchmaking/engine/team.go:195-205 | the in-place recursion visits exactly that sequence of arrangements and puts every element back |
| `TeamBuilding.RoleSearch.Visit` | internal/matchmaking/engine/team.go:166-177 | the visiting closure keeps the first arrangement with the highest total preference among those visited |
| `TeamBuilding.BuildAssignedTeam` | internal/matchmaking/engine/team.go:160-222 | fails iff there are not five tickets; otherwise it gives the team that AssignedTeamIsOptimal is about |
| `TeamBuilding.AssignedTeamIsOptimal` | internal/matchmaking/engine/team.go:160-222 | the five players have the five tickets and the five different roles, each with his own preference for his role; no other assignment of the roles to these players is worth more to them; the role score is a fifth of their preferences and the rating a fifth of their ratings |
| `TeamBuilding.WishesAreWorth` | internal/matchmaking/engine/team.go:207-222 | a ticket's first wish is worth 100, its second 70, any later one 50, and a role it does not wish for what the relaxation after its waiting time gives, up to the maximum |
| `TeamBuilding.BestIsFirst` | internal/matchmaking/engine/team.go:160-205 | among equally good assignments the visitor keeps the first in the order of the permutations |
| `TeamBuilding.AssignedTeamIgnoresOrder` | internal/matchmaking/engine/team.go:160-176 | the team lists its players in the order of their ids and does not depend on the order of the tickets |
| `Groups.GroupByParty` | internal/matchmaking/engine/candidate.go:154-171 | the map-driven loop computes the grouping by party |
| `Groups.GroupingPartitions` | internal/matchmaking/engine/candidate.go:154-171 | grouping keeps every ticket exactly once, splits no party, mixes no two, and makes no empty group |
| `Groups.GroupsAreParties` | internal/matchmaking/engine/candidate.go:154-171 | two tickets are in the same group iff they name the same party or are the same ticket |
| `FormationAlgorithms.MoveAnchorGroupFirst` | internal/matchmaking/engine/candidate.go:173-182 | the group that holds the anchor and the first group change places, all others stay; without the anchor nothing changes |
| `Selection.FillTable` | internal/matchmaking/engine/team.go:91-107 | the loops over the combinations map compute the subset-sum table for every sum up to the target |
| `Selection.TableIsExact` | internal/matchmaking/engine/team.go:91-111 | an entry exists iff some choice with the anchor's group reaches the sum, and it is the colexicographically least such choice |
| `Selection.ColexAntisymmetric` | internal/matchmaking/engine/team.go:101-106 | the least choice is unique |
| `Selection.FindAnchor` | internal/matchmaking/engine/team.go:74-85 | finds the last group that holds the anchor, or none |
| `Selection.SelectTenPlayers` | internal/matchmaking/engine/team.go:72-117 | returns the groups of the least choice reaching the target, or the error of the first check that fails |
| `Partition.Distribute` | internal/matchmaking/engine/team.go:132-141 | splits the groups by the bits of the mask |
| `Partition.BalancedPartition` | internal/matchmaking/engine/team.go:119-158 | fails iff there is no split into two teams of the size with the first group in team A (or there are 63 groups or more); otherwise the split has the least rating difference, and the least signature among equals |
| `Partition.SplitsExactlyOnce` | internal/matchmaking/engine/beam.go:236-262 | over all masks each balanced split with the first group in team A is enumerated exactly once, and no other |
| `Optimizer.VisitPartitions` | internal/matchmaking/engine/beam.go:236-262 | visits the formations of exactly those splits, in mask order |
| `Fairness.SidesAreParties` | internal/matchmaking/engine/team.go:119-158 | the players of a formation that a choice and a split admit are those of the chosen parties, each party on the side that the split says, the anchor's in team A |
| `Beam.ExpandState` | internal/matchmaking/engine/beam.go:168-184 | a state is continued without the group if the rest can still fill the teams, and with it if it fits: the states of exactly these choices |
| `Beam.Advance` | internal/matchmaking/engine/beam.go:164-198 | one turn of the loop takes the states of the surviving choices after k groups to those after k + 1 |
| `Beam.BeamSearch` | internal/matchmaking/engine/beam.go:147-209 | the search returns the states of exactly the surviving choices, and fails iff none survives |
| `Beam.AtTheEnd` | internal/matchmaking/engine/beam.go:199-209 | whatever order the cuts follow, the survivors are at most width different choices with exactly the target number of players, so the last filter drops nothing; if no level overflows they are all such choices |
| `Beam.AgeCostAdds` | internal/matchmaking/engine/beam.go:174-181 | the age cost of a choice adds, for each of its players, the number of parties before his |
| `Beam.BeamInvariant` | internal/matchmaking/engine/beam.go:164-198 | whatever is cut off at each level, the beam holds at most width different choices with the anchor's group that do not exceed the target and can still reach it |
| `Beam.BeamIsComplete` | internal/matchmaking/engine/beam.go:194-196 | if no level so far has overflowed, the beam holds every choice that is still in play |
| `Beam.KeptAreAhead` | internal/matchmaking/engine/beam.go:188-196 | where the comparator is an order, a state that is kept has a score above that of one cut off by more than the tolerance, or within it and the smaller signature |
| `Beam.SoloPlayersSurvive` | internal/matchmaking/engine/beam.go:164-198 | groups of one player never run the search into a dead end, however narrow the beam and whatever the order of the cuts |
| `FormationAlgorithms.SufficientBeamIsComplete` | internal/matchmaking/engine/beam.go:147-209 | if the beam suffices, every choice that admits a formation survives |
| `Optimizer.CacheIsTransparent` | internal/matchmaking/engine/beam.go:71-83 | two selections with the same sorted signature have the same assigned team |
| `Optimizer.FormationSearch.BuildTeam` | internal/matchmaking/engine/beam.go:72-83 | with or without a cache hit the team is the one computed afresh |
| `Optimizer.FormationSearch.Visit` | internal/matchmaking/engine/beam.go:85-109 | the best score so far stays within one tolerance per formation of the best visited, and belongs to a visited formation |
| `FormationAlgorithms.SearchStates` | internal/matchmaking/engine/beam.go:84-118 | over the splits of the given choices, the returned formation is within one tolerance per formation evaluated of the best; it fails only if there is none |
| `FormationAlgorithms.OptimizeBeam` | internal/matchmaking/engine/beam.go:39-119 | fails iff no choice the search comes up with has a balanced split; the formation is one of these, no other of them is better by more than one tolerance per formation evaluated, and the count of evaluated formations is exact; where no two qualities lie within the tolerance without being equal, it has the greatest quality and the least signature among equals |
| `FormationAlgorithms.FormTeamsGreedy` | internal/matchmaking/engine/team.go:46-70 | succeeds iff the anchor is a candidate and the first choice of ten players has a balanced split; the formation is that of a best split of it, and a failure names the check that failed |
| `FormationAlgorithms.GreedyErrorIs` | internal/matchmaking/engine/team.go:46-117 | greedy reports too few players iff there are fewer than ten, or the anchor's party fits but no parties have ten players together; every other failure is reported as a missing split |
| `FormationAlgorithms.BeamErrorIs` | internal/matchmaking/engine/beam.go:39-66 | under a sufficient beam the beam algorithm does so iff there are fewer than ten, or the anchor's party fits a team but no parties have ten players together |
| `Fairness.GreedyIsFairest` | internal/matchmaking/engine/team.go:119-158 | of all formations of greedy's choice of players, the one it gives has the least difference between the average ratings, and among equals team A's players come first in the order of their ids |
| `FormationAlgorithms.GreedyMissesSplit` | internal/matchmaking/engine/team.go:46-70 | with groups of 4, 4, 2, 1 and 5 players the first choice is 4, 4 and 2, which has no balanced split, though 4, 1 and 5 has one |
| `GreedyExample.GreedyIsIncomplete` | internal/matchmaking/engine/team.go:46-70 | sixteen concrete tickets that NewTicket accepts and candidate generation hands to the engine, with a formation, for which greedy fails |
| `GreedyExample.SixteenAreGenerated` | internal/matchmaking/engine/candidate.go:43-94 | under every valid policy with room for sixteen that tolerates their latency from the start, as the default policy does, candidate generation accepts exactly these tickets, at any time |
| `FormationAlgorithms.CompareTeamAlgorithms` | internal/matchmaking/engine/beam.go:121-145 | succeeds iff both algorithms do, and fails with the error of the first that does; if the beam suffices it succeeds whenever greedy does, and greedy is not better than the beam by more than one tolerance per formation evaluated |
| `CandidateGeneration.GenerateCandidates` | internal/matchmaking/engine/candidate.go:37-152 | the anchor, the windows, the accepted tickets and the decisions are those that the laws of CandidateWindows are about; fails iff the policy is invalid or no ticket waits |
| `CandidateGeneration.GroupRejectionReason` | internal/matchmaking/engine/candidate.go:96-127 | the reason of the first ticket of the party that has one |
| `CandidateGeneration.FirstPass` | internal/matchmaking/engine/candidate.go:52-65 | rejects exactly the tickets that do not wait and those whose player has another waiting ticket |
| `CandidateGeneration.OrderIsIrrelevant` | internal/matchmaking/engine/candidate.go:129-143 | any order of the same tickets gives the same result |
| `CandidateGeneration.PartiesStayWhole` | internal/matchmaking/engine/candidate.go:67-84 | a party is accepted or rejected as a whole |
| `CandidateGeneration.AcceptedAreEligible` | internal/matchmaking/engine/candidate.go:96-127 | every accepted ticket waits once, in the anchor's pool and within the windows, and within the hard latency and rating limits however wide they are |
| `CandidateWindows.AnchorIsOldest` | internal/matchmaking/engine/candidate.go:37-50 | it fails iff the policy is invalid or no ticket waits; otherwise the anchor waits and every other waiting ticket is younger, by creation time and id |
| `CandidateWindows.WindowsWiden` | internal/matchmaking/domain/policy.go:157-177 | with w the seconds since the anchor's creation, or 0, the rating range is the smaller of its maximum and initial range + w * expansion, and the latency limit likewise, rounded down |
| `CandidateWindows.WindowsNeverNarrow` | internal/matchmaking/engine/candidate.go:43-50 | as time goes by the anchor stays and neither window narrows |
| `CandidateWindows.AcceptedAreInReach` | internal/matchmaking/engine/candidate.go:96-127 | every accepted ticket waits for the anchor's pool, its player waits once, and its rating and latency lie within the reported windows |
| `CandidateWindows.LoneTicketsGetIn` | internal/matchmaking/engine/candidate.go:67-94 | a ticket without a party that waits once for the anchor's pool within the reported windows is accepted, unless the accepted tickets fill the limit |
| `CandidateWindows.ReasonsAreTrue` | internal/matchmaking/engine/candidate.go:52-152 | a ticket left out is told why in the order of the checks: that it does not wait, or not once; else the first thing wrong with the oldest of its party that does not fit; else that its party fits but there is no room for it |
| `CandidateGeneration.AllAreAccepted` | internal/matchmaking/engine/candidate.go:67-84 | if every ticket is eligible and there is room for all, all are accepted, party by party |
| `CandidateGeneration.AcceptedAreCandidates` | internal/matchmaking/engine/candidate.go:67-84 | accepted tickets and players are pairwise different, come from the input, and do not exceed the limit: the engine's precondition |
| `CandidateGeneration.RejectedForAReason` | internal/matchmaking/engine/candidate.go:67-78 | a party left out has an ineligible ticket or would have exceeded the limit |
| `CandidateGeneration.DecisionsAreRight` | internal/matchmaking/engine/candidate.go:86-92 | one decision per ticket in age order, accepted iff the ticket is among the candidates |
| `Lineups.AdmittedIsPicked` | internal/matchmaking/application/worker.go:415-456 | a formation that the candidates admit has five players a side on ten of their tickets, each once |
| `Lineups.LineupIsDrawn` | internal/matchmaking/application/worker.go:415-456 | the lineup of an admitted formation is drawn from the tickets behind the candidates: ten different players on ten different tickets in the same order, each in his assigned role with his rating, his behavior score and the best hero for the role |
| `Lineups.LineupTeamsAreValid` | internal/matchmaking/domain/match.go:320-354 | the match aggregate accepts the lineup's teams iff both have ids and every player is fit to play the role |
| `Lineups.AcceptedIsFit` | internal/matchmaking/domain/ticket.go:320-389 | a ticket that NewTicket accepts is fit to play in every role, with the hero chosen for it |
| `Heroes.FindBest` | internal/game/hero/catalog.go:50-76 | the loop finds the hero of the role with the highest proficiency, the first in alphabetical order among equals; without any proficiency it is the first hero at 50 |
| `Lineups.EngineLineupsAreDrawn` | internal/matchmaking/application/worker.go:244-272 | for the candidates that candidate generation finds among the tickets, every formation the engine may pick gives a lineup that the attempt can rely on |
| `TicketStoreSpec.CreateKeepsInv` | internal/matchmaking/repository/memory/ticket_store.go:35-74 | creation keeps the representation invariant of the six maps |
| `TicketStoreSpec.CancelKeepsInv` | internal/matchmaking/repository/memory/ticket_store.go:104-137 | cancellation keeps it |
| `TicketStoreSpec.ReserveKeepsInv` | internal/matchmaking/repository/memory/ticket_store.go:204-252 | reservation keeps it |
| `TicketStoreSpec.ReleaseKeepsInv` | internal/matchmaking/repository/memory/ticket_store.go:254-277 | release keeps it, and succeeds iff the reservation is known |
| `TicketStoreSpec.AssignKeepsInv` | internal/matchmaking/repository/memory/ticket_store.go:279-303 | assignment keeps it, and succeeds iff the reservation is known and the match id is not blank |
| `TicketStoreSpec.CompleteKeepsInv` | internal/matchmaking/repository/memory/ticket_store.go:305-324 | completion keeps it |
| `StoreEffects.ReserveAgain` | internal/matchmaking/repository/memory/ticket_store.go:204-252 | a reservation that is asked for again is confirmed iff the tickets are those it holds, each once, in any order; nothing changes |
| `StoreEffects.CreateExactly` | internal/matchmaking/repository/memory/ticket_store.go:35-74 | under a known key the first ticket is answered; otherwise a creation goes through iff the ticket is new and queued and its player has no active one, and then the ticket waits in its pool and is the active one |
| `StoreEffects.CancelExactly` | internal/matchmaking/repository/memory/ticket_store.go:104-137 | under a known key the ticket is answered if it is the same; otherwise a cancellation goes through iff the ticket is the player's and neither held nor assigned, and then it is out of its pool and its player is free; every other case has its error |
| `StoreEffects.CompleteExactly` | internal/matchmaking/repository/memory/ticket_store.go:305-324 | completing a match frees exactly the players whose active ticket is assigned to it |
| `TicketStoreSpec.RecoverKeepsInv` | internal/matchmaking/repository/memory/ticket_store.go:347-374 | recovery keeps it |
| `TicketStoreSpec.ReserveExactly` | internal/matchmaking/repository/memory/ticket_store.go:204-252 | a new reservation is granted iff its tickets are different and all queued and the expiry lies ahead; the check for repeated players never fires |
| `TicketStoreSpec.ReserveThenRelease` | internal/matchmaking/repository/memory/ticket_store.go:204-277 | releasing what was just reserved restores the store except for the tickets' update times |
| `TicketStoreSpec.ReleaseEffect` | internal/matchmaking/repository/memory/ticket_store.go:254-277 | releasing a known reservation never reaches the conflict branch and requeues exactly its tickets |
| `TicketStoreSpec.AssignEffect` | internal/matchmaking/repository/memory/ticket_store.go:279-303 | assigning a known reservation to a non-blank match never reaches the conflict branch, assigns exactly its tickets and takes them out of their pools in order |
| `TicketStoreSpec.RecoverEffect` | internal/matchmaking/repository/memory/ticket_store.go:347-374 | recovery requeues exactly the tickets whose hold has expired, reservation by reservation |
| `IdempotentRequests.CreationIsIdempotent` | internal/matchmaking/repository/memory/ticket_store.go:35-74 | repeating an accepted creation under its key, after any operations, answers the first ticket and changes nothing |
| `IdempotentRequests.CancellationIsIdempotent` | internal/matchmaking/repository/memory/ticket_store.go:104-137 | repeating an accepted cancellation answers the same ticket and changes nothing; its key is refused for any other ticket |
| `MemoryTicketStore.TicketStore.CreateQueued` | internal/matchmaking/repository/memory/ticket_store.go:35-74 | the method does what the specification says and answers the stored ticket |
| `MemoryTicketStore.TicketStore.RemoveFromPool` | internal/matchmaking/repository/memory/ticket_store.go:386-394 | removes the first occurrence of the ticket from its pool |
| `MemoryTicketStore.TicketStore.Cancel` | internal/matchmaking/repository/memory/ticket_store.go:104-137 | the method does what the specification says |
| `MemoryTicketStore.TicketStore.QueueSnapshot` | internal/matchmaking/repository/memory/ticket_store.go:139-160 | the loop with its early exit returns exactly the specified snapshot |
| `MemoryTicketStore.TicketStore.PoolKeys` | internal/matchmaking/repository/memory/ticket_store.go:162-187 | returns, in order, exactly the keys whose snapshot is not empty |
| `MemoryTicketStore.TicketStore.QueueSize` | internal/matchmaking/repository/memory/ticket_store.go:189-202 | counts the queued tickets |
| `MemoryTicketStore.TicketStore.ReserveAll` | internal/matchmaking/repository/memory/ticket_store.go:204-252 | the state becomes the specified one, it succeeds exactly when specified, and answers the tickets of the reservation in its order |
| `MemoryTicketStore.TicketStore.StageReservations` | internal/matchmaking/repository/memory/ticket_store.go:227-246 | the staging loop succeeds iff all tickets can be reserved, are different and belong to different players |
| `MemoryTicketStore.TicketStore.ReleaseAll` | internal/matchmaking/repository/memory/ticket_store.go:254-277 | the method does what the specification says |
| `MemoryTicketStore.TicketStore.AssignAll` | internal/matchmaking/repository/memory/ticket_store.go:279-303 | succeeds iff the reservation is known and the match id is not blank; the state becomes the specified one, in whatever order the staged map is ranged over, and the reservation's tickets are answered in its order |
| `MemoryTicketStore.TicketStore.CompleteAssignedTickets` | internal/matchmaking/repository/memory/ticket_store.go:305-324 | the loop over all tickets removes exactly the active entries of the match's tickets |
| `MemoryTicketStore.TicketStore.RecoverExpiredReservations` | internal/matchmaking/repository/memory/ticket_store.go:347-374 | in whatever order reservations are ranged over, exactly the lapsed ones are released, without a conflict, and the answer counts their tickets |
| `MemoryTicketStore.SameTicketIds` | internal/matchmaking/repository/memory/ticket_store.go:404-419 | true iff the two lists are equal as bags |
| `QueueReads.SnapshotIsExact` | internal/matchmaking/repository/memory/ticket_store.go:139-160 | a snapshot holds the first limit queued tickets of the pool, or all of them without a positive limit, by creation time and then id |
| `QueueReads.SizeIsSum` | internal/matchmaking/repository/memory/ticket_store.go:162-202 | the queue size is the sum of the unlimited snapshots over the pool keys |
| `Matches.ValidateMatchTeams` | internal/matchmaking/domain/match.go:320-354 | accepts exactly two named teams of five with ten different players on ten different tickets, whose roles, heroes, proficiencies and scores are valid |
| `Matches.ApplyFollows` | internal/matchmaking/domain/match.go:182-234 | an operation that is accepted takes one legal transition, or repeats the completion of a finished match |
| `Matches.ApplyExactly` | internal/matchmaking/domain/match.go:182-234 | an operation is accepted iff the lifecycle leads from the match's state to the operation's and the argument is valid; the next version has this state, the next revision, the given time and the server or the result of the operation; completing a finished match again changes nothing |
| `Matches.RestoreSnapshot` | internal/matchmaking/domain/match.go:161-180 | after any events under a clock that does not go back, restoring the snapshot gives the match back |
| `Matches.RestoreIsFaithful` | internal/matchmaking/domain/match.go:161-180 | a snapshot is accepted iff it satisfies every rule of the aggregate and its times are in order, and is then restored unchanged |
| `Matches.ResultIsFinal` | internal/matchmaking/domain/match.go:207-222 | no event changes a finished match |
| `MatchStores.MatchStore.Create` | internal/matchmaking/repository/memory/match_store.go:22-33 | stores a match under a new id only |
| `MatchStores.MatchStore.Get` | internal/matchmaking/repository/memory/match_store.go:35-46 | answers the stored version |
| `MatchStores.MatchStore.Update` | internal/matchmaking/repository/memory/match_store.go:48-63 | replaces a match iff the given revision is the stored one plus one |
| `Allocators.LocalAllocator.Capacities` | internal/matchmaking/application/local_allocator.go:79-94 | per region, slots in use and free slots make up the capacity, and neither is negative |
| `Allocators.LocalAllocator.Allocate` | internal/matchmaking/application/local_allocator.go:96-129 | hands out a known slot again, otherwise a new one iff the region has one free; no region exceeds its capacity |
| `Allocators.LocalAllocator.Release` | internal/matchmaking/application/local_allocator.go:131-139 | frees the slot of the match |
| `StoreStability.AssignIsSteady` | internal/matchmaking/repository/memory/ticket_store.go:279-303 | assigning a reservation seats each of its tickets at the match as its player's active ticket, and disturbs no other reservation or match |
| `StoreStability.CreateIsSteady` | internal/matchmaking/repository/memory/ticket_store.go:35-74 | creation disturbs no reservation, no seated ticket and no freed player |
| `StoreStability.CancelIsSteady` | internal/matchmaking/repository/memory/ticket_store.go:104-137 | neither does cancellation |
| `StoreStability.ReserveIsSteady` | internal/matchmaking/repository/memory/ticket_store.go:204-252 | reservation touches no other reservation, and lists what was asked for |
| `StoreStability.ReleaseIsSteady` | internal/matchmaking/repository/memory/ticket_store.go:254-277 | release touches no other reservation, and forgets this one |
| `StoreStability.RecoverIsSteady` | internal/matchmaking/repository/memory/ticket_store.go:347-374 | recovery only forgets reservations |
| `StoreStability.CompleteIsSteady` | internal/matchmaking/repository/memory/ticket_store.go:305-324 | completion frees every player of the match and disturbs no other match |
| `SagaInvariant.ReservingIsSafe` | internal/matchmaking/application/worker.go:274-279 | taking the tickets keeps the saga's invariant |
| `SagaInvariant.CreatingIsSafe` | internal/matchmaking/application/worker.go:281-298 | so does creating the match, or giving up on it |
| `SagaInvariant.StartingIsSafe` | internal/matchmaking/application/worker.go:299-306 | so does starting the allocation |
| `SagaInvariant.AllocatingIsSafe` | internal/matchmaking/application/worker.go:308-313 | so does allocating a server, or failing to |
| `SagaInvariant.AssigningIsSafe` | internal/matchmaking/application/worker.go:314-338 | so does assigning the tickets, also when the hold has expired meanwhile |
| `SagaInvariant.PublishingIsSafe` | internal/matchmaking/application/worker.go:339-341 | the last update keeps the invariant and cannot fail: its missing compensation is never needed |
| `SagaInvariant.FreeingSlotIsSafe` | internal/matchmaking/application/worker.go:396-402 | releasing the server keeps it |
| `SagaInvariant.FailingIsSafe` | internal/matchmaking/application/worker.go:404-413 | failing the stored match keeps it |
| `SagaInvariant.ReleasingIsSafe` | internal/matchmaking/application/worker.go:309-337 | releasing the tickets keeps it |
| `SagaSafety.NextIsSafe` | internal/matchmaking/application/worker.go:200-364 | every step of every worker, caller, player or recovery keeps the invariant |
| `SagaSafety.RunIsSafe` | internal/matchmaking/application/worker.go:166-413 | every state of every interleaving satisfies it |
| `SagaSafety.LiveMatchesAreSeated` | internal/matchmaking/application/worker.go:274-342 | in every state of every run, a ready or running match has a slot in its region whose address and token it carries, and ten players, each on a ticket assigned to it that is the player's active one |
| `SagaSafety.NobodyPlaysTwice` | internal/matchmaking/application/worker.go:274-342 | no player and no ticket is in two live matches, or twice in one |
| `SagaSafety.GivingUpLeavesNothing` | internal/matchmaking/application/worker.go:291-338 | an attempt that gave up holds no ticket and no slot, and its match, if stored, has failed |
| `SagaSafety.WorkersGetOn` | internal/matchmaking/application/worker.go:274-364 | each call of its own lowers the number of calls a worker has left, which starts at ten, and nobody else moves its attempt |
| `SagaSafety.AttemptsEndWell` | internal/matchmaking/application/worker.go:274-364 | the end is success or a complete compensation |
| `SagaSafety.SlotsAreNeeded` | internal/matchmaking/application/local_allocator.go:96-139 | every slot serves an allocating, ready or running match, or a finished one whose finisher is about to release it |
| `SagaSafety.CapacityIsKept` | internal/matchmaking/application/local_allocator.go:110-118 | in every state no region has more slots in use than its capacity |
| `SagaSafety.VersionsFormAChain` | internal/matchmaking/repository/memory/match_store.go:48-63 | stored versions are one legal transition apart, numbered 1, 2, 3 and so on |
| `SagaSafety.FirstResultStands` | internal/matchmaking/application/match_service.go:67-131 | once a match has finished, no later event of any run changes it |
| `SagaSafety.CompletionsAgree` | internal/matchmaking/application/match_service.go:67-131 | all successful completions of a match return the stored first result; then its players and its slot are free |
| `RecordedResults.ResultIsReported` | internal/matchmaking/application/match_service.go:67-105 | in every run, the result of a finished match is the outcome that the caller who finished it reported for this match in its first call |
| `RecordedResults.ReportIsUnique` | internal/matchmaking/application/match_service.go:67-105 | a caller reports one outcome, of one match |
| `Workers.Worker.FilterEligible` | internal/matchmaking/application/worker.go:366-394 | the store and the answer are exactly what the fold of cancellations over the ineligible tickets gives; on success the eligible tickets are kept in order |
| `EligibleTickets.PurgeWithdraws` | internal/matchmaking/application/worker.go:366-394 | if the filter does not give up, every ticket of the list that waits and whose player is not eligible is cancelled, and no other ticket changes |
| `EligibleTickets.EligibleByParts` | internal/matchmaking/application/worker.go:366-394 | of any part of the list the filter keeps what it would keep of that part alone: the eligible tickets, in their order |
| `EligibleTickets.PurgeExactly` | internal/matchmaking/application/worker.go:380-392 | the filter gives up iff the player of an ineligible ticket has used that ticket's cancellation key for another ticket; otherwise no ineligible ticket of the list waits afterwards |
| `EligibleTickets.KeyTakenRun` | internal/matchmaking/application/worker.go:380-392 | a store that four calls of the ticket service make, in which a waiting ticket's key is used: the filter gives up on every list with that ticket if its player is not eligible |
| `Workers.Worker.RunAttempt` | internal/matchmaking/application/worker.go:274-364 | the calls and compensations in the order of tryPool end exactly where the machine's attempt ends; success leaves a ready match with ten seated players and a slot, failure leaves no ticket held, no slot and no match that has not failed |
| `PoolAttempts.ChosenLineupIs` | internal/matchmaking/application/worker.go:215-272 | a lineup is left iff both filters go through and the engine gives one of the eligible tickets whose ten players are all still eligible |
| `PoolAttempts.AttemptSettles` | internal/matchmaking/application/worker.go:274-364 | for every lineup: the machine's attempt succeeds iff the ten tickets are different and all wait, the hold ends after it begins, NewMatch accepts the lineup, and the region has a slot and a token; the match, the tickets and the slot are then given field by field |
| `UndisturbedAttempts.SucceedsExactly` | internal/matchmaking/application/worker.go:274-364 | an undisturbed attempt succeeds iff its ten tickets are different and all wait, the hold lies ahead, the match is valid, the region has a free slot and a token can be made |
| `UndisturbedAttempts.SuccessMakesMatch` | internal/matchmaking/application/worker.go:274-342 | it then holds and assigns exactly its tickets, takes exactly one slot and leaves the match of its plan, ready at that slot's address and token in version three; nothing else changes |
| `UndisturbedAttempts.FailurePutsBack` | internal/matchmaking/application/worker.go:291-338 | otherwise the stores are as before, except that its tickets, if it could hold them, are updated at the attempt's time, and its match, if it could be made as well, is stored as failed in version three without a server |
| `Workers.Worker.TryPool` | internal/matchmaking/application/worker.go:200-364 | from the snapshot on: succeeds iff the two filters leave a lineup of the engine, whose ten tickets are different and all wait, the hold ends after it begins, NewMatch accepts the lineup with the pool's mode and the current time, the region has a free slot and a token can be made. Then the match with exactly these fields is ready on one new slot and the ten tickets play in it, held until the given expiry; otherwise only update times and the attempt's own failed match differ |
| `Workers.Worker.FailStoredMatch` | internal/matchmaking/application/worker.go:404-413 | the read and the update are two steps of the machine |
| `MatchServices.MatchService.StartMatch` | internal/matchmaking/application/match_service.go:44-65 | undisturbed it succeeds iff the match is ready or running; a ready match is stored as running, one version higher and updated at the given time, with everything else as it was; a running one is answered unchanged |
| `MatchServices.MatchService.CompleteMatch` | internal/matchmaking/application/match_service.go:67-105 | undisturbed it succeeds iff the match is finished, or runs and the result is valid; a running match is stored as finished with exactly the reported result, one version higher and updated at the given time, a finished one keeps its result; the players and the slot are freed, and a refusal changes nothing |
| `MatchServices.MatchService.ResolveCompletionConflict` | internal/matchmaking/application/match_service.go:114-131 | succeeds iff the conflict was one of revisions and the stored match has finished; then it answers that match and finishes its clean-up |
| `MatchServices.MatchService.FinishUp` | internal/matchmaking/application/match_service.go:73-80 | frees the players, then the server |
| `RedisScripts.ReserveAgrees` | internal/matchmaking/repository/redis/scripts.go:17-75 | the reserve script keeps the structures in agreement |
| `RedisScripts.ReleaseAgrees` | internal/matchmaking/repository/redis/scripts.go:77-109 | under agreement release never conflicts, puts back exactly the tickets the reservation holds, and keeps agreement |
| `RedisScripts.FinalizeAgrees` | internal/matchmaking/repository/redis/scripts.go:111-134 | finalize settles exactly the tickets the reservation holds and keeps agreement |
| `RedisScripts.RecoverEachAgrees` | internal/matchmaking/repository/redis/scripts.go:136-155 | recovering the due tickets one by one puts back exactly those and keeps agreement |
| `RedisMoves.ReserveMoves` | internal/matchmaking/repository/redis/scripts.go:17-75 | from structures that agree: succeeds iff all tickets wait and the reservation holds none, or it holds exactly these; a first call moves each out of its sorted set into the hash and the expiry index, and leaves all others |
| `RedisMoves.ReleaseMoves` | internal/matchmaking/repository/redis/scripts.go:77-109 | exactly the tickets held for the reservation go back to their sorted sets at their scores |
| `RedisMoves.FinalizeMoves` | internal/matchmaking/repository/redis/scripts.go:111-134 | exactly the tickets held for the reservation are assigned to the match and out of every pool |
| `RedisMoves.RecoverMoves` | internal/matchmaking/repository/redis/scripts.go:136-155 | exactly the due tickets go back to their sorted sets at their scores |
| `RedisMoves.UpsertMoves` | internal/matchmaking/repository/redis/queue.go:62-106 | the ticket waits in the given pool at the given score, and all others stay |
| `RedisMoves.RemoveMoves` | internal/matchmaking/repository/redis/queue.go:108-128 | the ticket is out of its pool and nobody's, in the given state, and all others stay |
| `RedisAgreement.RecoveryIsExact` | internal/matchmaking/repository/redis/scripts.go:136-155 | one recovery puts the due tickets back and leaves the others held; below its limit no expired hold is left |
| `RedisAgreement.VanishAgrees` | internal/matchmaking/repository/redis/scripts.go:58-73 | the loss of a reservation's set at the end of its time to live keeps agreement |
| `RedisAgreement.ReleaseWithoutSet` | internal/matchmaking/repository/redis/scripts.go:79-90 | release ends in the same state with and without the set |
| `RedisAgreement.FinalizeWithoutSet` | internal/matchmaking/repository/redis/scripts.go:114-122 | so does finalize |
| `RedisAgreement.ReserveThenRelease` | internal/matchmaking/repository/redis/scripts.go:17-109 | releasing what was just reserved restores every structure |
| `RedisAgreement.RemoveAgreesExactly` | internal/matchmaking/repository/redis/queue.go:108-128 | the structures agree after a removal iff what it read is still current |
| `RedisAgreement.StaleRemovalBlocksRelease` | internal/matchmaking/repository/redis/queue.go:108-128 | a removal with a stale read makes the release of the whole reservation conflict until the set has expired |
| `RedisAgreement.StaleRemovalExample` | internal/matchmaking/repository/redis/queue.go:108-128 | a concrete instance of that |
| `RedisAgreement.StaleRemovalEnds` | internal/matchmaking/repository/redis/queue.go:108-128 | when the holder's set vanishes the structures agree again |
| `RedisAgreement.UpsertAgreesExactly` | internal/matchmaking/repository/redis/queue.go:62-106 | the structures agree after an upsert of a queued ticket iff no set lists the ticket and it keeps its pool while it waits |
| `RedisAgreement.RepeatedUpsertExample` | internal/matchmaking/repository/redis/queue.go:62-106 | a concrete case: a ticket waits, is reserved and is written again; the structures disagree and the release is refused |
| `RedisAgreement.RunAgreesExactly` | internal/matchmaking/repository/redis/scripts.go:17-155 | all through a run the structures agree iff every removal and upsert in it meets its condition |
| `RedisQueues.RedisQueue.ReserveAll` | internal/matchmaking/repository/redis/scripts.go:157-185 | the checks of the Go method, then the script |
| `RedisQueues.RedisQueue.ReserveScript` | internal/matchmaking/repository/redis/scripts.go:17-75 | the counting and the writing loops of the script do what the specification says |
| `RedisQueues.RedisQueue.ReleaseScript` | internal/matchmaking/repository/redis/scripts.go:77-109 | the loops of the script, in any order of the set, do what the specification says |
| `RedisQueues.RedisQueue.FinalizeScript` | internal/matchmaking/repository/redis/scripts.go:111-134 | likewise |
| `RedisQueues.RedisQueue.RecoverScript` | internal/matchmaking/repository/redis/scripts.go:136-155 | the due tickets are the first thousand by score and member, and each is dealt with in turn |
| `RedisQueues.RedisQueue.UpsertQueued` | internal/matchmaking/repository/redis/queue.go:62-88 | the pipeline for a queued ticket |
| `RedisQueues.RedisQueue.RemoveTicket` | internal/matchmaking/repository/redis/queue.go:108-128 | undisturbed, the two reads and the pipeline keep agreement |
| `RedisStores.Store.ReserveAll` | internal/matchmaking/repository/redis/store.go:111-128 | succeeds iff both sides can reserve, and both then hold the tickets; a failure leaves the durable side as it was, and Redis too under a new reservation |
| `RedisStores.Store.ReleaseAll` | internal/matchmaking/repository/redis/store.go:130-135 | a success leaves neither side holding anything for the reservation; a failure changes neither side |
| `RedisStores.Store.AssignAll` | internal/matchmaking/repository/redis/store.go:137-150 | succeeds iff the durable side assigns; Redis is finalized then and only then |
| `RedisStores.GrantedSet` | internal/matchmaking/repository/redis/scripts.go:51-74 | after a granted reservation, first or repeated, hash and set hold exactly the tickets asked for |
| `RedisDurable.StepKeepsExactly` | internal/matchmaking/repository/redis/store.go:56-180 | from a coupled state (Redis agrees with itself, and whatever the durable side has reserved Redis holds alike, whatever it has assigned Redis does not offer) a step of either side leads to a coupled state iff the step is timely |
| `RedisDurable.RunCoupledExactly` | internal/matchmaking/repository/redis/store.go:56-180 | for every interleaving of the steps: the two sides are coupled throughout iff every step is timely |
| `RedisDurable.CoupledOffersNothing` | internal/matchmaking/repository/redis/store.go:107-128 | in a coupled state Redis offers no ticket that the durable side has reserved or assigned |
| `RedisDurable.ReserveIsTimely` | internal/matchmaking/repository/redis/store.go:111-128 | the durable step right after the Redis step of a reservation is timely |
| `RedisDurable.ReleaseIsTimely` | internal/matchmaking/repository/redis/store.go:120-135 | the Redis step of a release, and the rollback of a reservation, is timely iff none of the tickets Redis holds for it has been assigned meanwhile |
| `RedisDurable.FinalizeIsTimely` | internal/matchmaking/repository/redis/store.go:137-154 | the Redis step of an assignment, and a repeated finalization, is timely once the durable side has dropped the reservation |
| `RedisDurable.RecoveryIsTimely` | internal/matchmaking/repository/redis/store.go:156-165 | the Redis step of a recovery is timely iff no due ticket was assigned but not yet finalized, and none has a hold that runs out later within the same millisecond |
| `RedisDurable.LateFinalizationOffers` | internal/matchmaking/repository/redis/store.go:137-165 | a ticket that Redis recovers between its durable assignment and its finalization is offered by Redis from then on, and the finalization does not change that |
| `RedisDurable.RecoveryOffers` | internal/matchmaking/repository/redis/store.go:156-165 | whatever Redis recovers while the durable side has it reserved or assigned, it offers from then on |
| `RedisRuns.LateFinalizationRun` | internal/matchmaking/repository/redis/store.go:137-165 | a concrete run from empty stores: created, reserved and assigned on both sides, recovered before the finalization; Redis then offers a ticket that plays |
| `RedisRuns.EarlyRecoveryRun` | internal/matchmaking/repository/redis/store.go:156-165 | a concrete run from empty stores: a recovery within the millisecond in which the hold expires leaves the ticket held durably and offered by Redis |
| `RedisRuns.RepeatedCreationRun` | internal/matchmaking/repository/redis/store.go:56-128 | a concrete run from empty stores: a creation repeated between the two steps of a reservation leaves the ticket held durably and offered by Redis |
| `RedisDurable.OfferedIsRefused` | internal/matchmaking/repository/redis/store.go:111-128 | no new reservation of an offered ticket passes the durable side |
| `RatingLedger.ApplyKeeps` | internal/player/repository/memory/repository.go:126-197 | applying changes keeps histories, records and current states consistent |
| `RatingLedger.HistoryReplays` | internal/player/repository/memory/repository.go:189-196 | in every run, replaying a player's history from the opening state gives the current state |
| `RatingLedger.RatedOnce` | internal/player/repository/memory/repository.go:137-195 | in every run a match changes a player at most once, and its record and the histories hold the same changes |
| `RatingLedger.ApplyIsIdempotent` | internal/player/repository/memory/repository.go:137-139 | applying again, with whatever changes, answers the first result and changes nothing |
| `RatingLedger.AppliesExactly` | internal/player/repository/memory/repository.go:126-197 | the changes of a match not yet rated are accepted iff they are all of this match, of different players and from their current states; then each is filed under the match and with its player, who is in its final state, and one of the rating alone carries the uncertainty over; nobody else is touched |
| `RatingLedger.CreateKeeps` | internal/player/repository/memory/repository.go:29-42 | a new player keeps the ledger consistent |
| `RatingLedger.TouchKeeps` | internal/player/repository/memory/repository.go:74-121 | ban and latency updates keep it consistent |
| `PlayerRepositories.Repository.ApplyRatingChanges` | internal/player/repository/memory/repository.go:126-197 | the staging loop and the commit loops do what the specification says: all changes or none |
| `PlayerRepositories.Repository.Stage` | internal/player/repository/memory/repository.go:141-187 | answers the first problem, or stages exactly the players of the changes in their new states |
| `PlayerRepositories.Repository.CreatePlayer` | internal/player/repository/memory/repository.go:29-42 | stores the player iff the id is new, and nothing else changes |
| `PlayerRepositories.Repository.UpdatePlayer` | internal/player/repository/memory/repository.go:74-121 | replaces the ban and the latencies of a known player; his rating state stays |
| `EloRatings.UpdateIsZeroSum` | internal/rating/elo/calculator.go:46-65 | the two deltas cancel for any expected score |
| `EloRatings.EloChangesCancel` | internal/player/application/rating_service.go:122-149 | for teams of the same size all changes of a match add up to nothing |
| `EloRatings.ApplyConserves` | internal/player/application/rating_service.go:122-149 | whatever was read of the players and however stale, applying the match leaves the total rating as it was |
| `EloRatings.TotalIsConserved` | internal/player/application/rating_service.go:76-149 | in every run of matches, retries and conflicts the population's rating is the sum of the opening ratings |
| `RatingServices.ValidateUniquePlayers` | internal/player/application/rating_service.go:238-251 | true iff no id is blank and none repeats across the teams |
| `RatingServices.RatingService.RecordMatchResult` | internal/player/application/rating_service.go:76-149 | succeeds iff the request is well formed, the players are known and every new rating is positive; with e the expected score for a fifth of each team's ratings, a first recording moves every player of team A by k(1 - e), k(1/2 - e) or -ke for a win, a draw or a loss, every player of team B by the opposite, and nobody else, and files one change a player; a repeated one answers the first changes, an error changes nothing, and the total rating stays |
| `RatingServices.WinnersGain` | internal/rating/elo/calculator.go:46-65 | when a match is won, every winner gains and every loser loses, if the factor is positive and the expected score lies strictly between 0 and 1 |
| `RatingServices.RatableExactly` | internal/player/application/rating_service.go:122-149 | the new ratings are all positive iff they are after adding each player's gain |
| `RatingServices.RatableIsEnough` | internal/player/application/rating_service.go:122-149 | the changes of a match can be computed iff a time is given and no new rating falls to zero or below |
| `RatingServices.ReadChangesApply` | internal/player/repository/memory/repository.go:141-187 | changes computed from what was just read pass every check of the repository |
| `RatingServices.RatingService.ComputeEloChanges` | internal/player/application/rating_service.go:122-149 | the loops compute one change per player with the team's delta |
| `Glicko2.MiddleIsWithin` | internal/rating/glicko2/calculator.go:116 | each new point lies in the current bracket |
| `Glicko2.RoundKeeps` | internal/rating/glicko2/calculator.go:112-126 | one round keeps the values on both sides of zero with the signs of the objective |
| `Glicko2.InitialBracket` | internal/rating/glicko2/calculator.go:93-111 | both forms of the initial bracket have opposite signs at their ends |
| `Glicko2.FindBracket` | internal/rating/glicko2/calculator.go:95-109 | finds the other end of the bracket (closed form, or the first step down with an objective that is not negative) iff there is one within the limit; for every tau that the calculator accepts it is the closed form or the first step |
| `Glicko2.ObjectiveIs` | internal/rating/glicko2/calculator.go:85-93 | the objective is that of Step 5.1, and the search starts at the logarithm of the squared volatility |
| `Glicko2.RoundIs` | internal/rating/glicko2/calculator.go:112-130 | a round goes on from a new point; the other end is the last point if the sign changes between the two, and otherwise stays with its value halved |
| `Glicko2.RoundMeetsAxis` | internal/rating/glicko2/calculator.go:112-130 | that point is where the secant through the ends of the bracket meets the axis |
| `Glicko2.FirstStepSucceeds` | internal/rating/glicko2/calculator.go:85-109 | for every tau that the calculator accepts, the objective is not negative after the first step down: the search cannot fail |
| `Glicko2.OtherEndIsUnique` | internal/rating/glicko2/calculator.go:93-111 | there is at most one other end |
| `Glicko2.BracketInvariant` | internal/rating/glicko2/calculator.go:112-130 | after any number of rounds the objective has opposite signs at the ends of the bracket, and the bracket lies in the one before and in the initial one |
| `Glicko2.UpdateVolatility` | internal/rating/glicko2/calculator.go:85-132 | for every tau that the calculator accepts it succeeds iff the iteration gets within the tolerance in its limit of rounds, and otherwise iff the search finds the other end as well; the division by zero guard never decides; the volatility is read off the left end of the last bracket |
| `PolicyManagers.PolicyManager.StartExperiment` | internal/matchmaking/application/policy_manager.go:69-88 | starts a normal experiment between known policies iff none is active |
| `PolicyManagers.PolicyManager.RegisterPolicy` | internal/matchmaking/application/policy_manager.go:90-101 | a version keeps its meaning |
| `PolicyManagers.PolicyManager.ActivateApprovedPolicy` | internal/matchmaking/application/policy_manager.go:106-134 | registers the policy and replaces the experiment, does nothing for the same experiment, and refuses the same id with other parameters |
| `PolicyManagers.PolicyManager.StopExperiment` | internal/matchmaking/application/policy_manager.go:136-144 | stops the experiment with that id only |
| `PolicyManagers.StepsKeepVersions` | internal/matchmaking/application/policy_manager.go:69-144 | no operation changes a registered policy or the default |
| `PolicyManagers.TreatmentShare` | internal/matchmaking/application/policy_manager.go:146-163 | exactly the basis points of the buckets get the treatment policy, all others the control policy; without an experiment every key gets the default policy |
| `PolicyManagers.TreatmentIsSticky` | internal/matchmaking/application/policy_manager.go:146-163 | when the share grows, every key that was treated still is |
| `Proposals.ValidateRiskReport` | internal/agent/domain/agent.go:273-300 | accepts exactly five findings with messages, of different known categories, whose verdict agrees with them |
| `ProposalSafety.LifecycleIsAcyclic` | internal/agent/domain/agent.go:181-265 | stored versions follow the lifecycle one edge at a time and no state comes twice |
| `ProposalSafety.NoLostUpdate` | internal/agent/repository/memory/repository.go:153-172 | an update that passes the check on the state is one legal transition of the record as it stands |
| `ProposalSafety.DutiesAreSeparated` | internal/agent/domain/agent.go:181-206 | past approval the reviewer is not the requester and no finding blocks |
| `ProposalSafety.RetriesAgree` | internal/agent/application/service.go:280-297 | all callers about to activate a proposal hold the same parameters, the persisted ones |
| `ProposalSafety.RetryIsIdempotent` | internal/agent/application/service.go:295-300 | a retry leaves the manager as it is while the proposal's experiment is current, and goes on |
| `ExperimentRecords.RunsOwnExactly` | internal/matchmaking/application/policy_manager.go:106-144 | in every run the manager runs the proposal's experiment iff no event has replaced or stopped it since it was last started |
| `ExperimentRecords.RecordedExperiment` | internal/matchmaking/application/operations_service.go:63-88 | whatever happens between the call that starts a proposal's experiment and the one that reads the active one, the proposal records its own iff no event in between has displaced it since it was last started |
| `ExperimentRecords.OvertakenRun` | internal/matchmaking/application/operations_service.go:82-87 | a concrete run from an initial state to one where an active proposal has recorded another proposal's experiment |
| `ExperimentRecords.RollbackSparesOthers` | internal/agent/application/service.go:312-349 | rolling a proposal back leaves every experiment but the proposal's own alone iff it has recorded its own |
| `ExperimentRecords.WrongRollback` | internal/agent/application/service.go:312-349 | in the concrete run, rolling the first proposal back stops the experiment of the second, which stays active without one |
| `AgentServices.Repository.UpdateProposal` | internal/agent/repository/memory/repository.go:153-172 | replaces a proposal iff its stored state is the expected one |
| `AgentServices.Service.ReviewProposal` | internal/agent/application/service.go:248-266 | undisturbed it succeeds iff the proposal is pending, the reviewer is named, gives a reason, is not the requester and does not approve against the risk report; the decision is stored, and a refusal changes nothing |
| `AgentServices.Service.ActivateProposal` | internal/agent/application/service.go:268-310 | undisturbed it succeeds iff the proposal is active, or approved or begun and the manager can launch its experiment; if this call did it, an experiment with the proposal's own id, policy, share and salt runs against the default policy, and the proposal is stored as active with that id |
| `AgentServices.Service.RollbackProposal` | internal/agent/application/service.go:312-349 | undisturbed it succeeds iff the proposal is rolled back, or active or being rolled back and no experiment runs but the recorded one; if this call did it, no experiment runs and the proposal is stored as rolled back by the operator |

## Left out

What the models do not cover:

- `RunOnce` and the worker's loop over the pools, its metrics, its logging and its intervals.
- The choice of a server region, of an algorithm and of a policy, the minimum quality and the minimum number of tickets in
  `tryPool`: they are part of the parameter `form`, of which `Lineups` proves what the attempt relies on.
- The reserved branch of `UpsertTicket`, `Rebuild`, the ticket payloads and the reads of the Redis queue.
- `Cancel`, `CreateQueued` and `RecoverExpiredReservations` of `redis/store.go` as methods: their steps are in `RedisDurable`.
- The PostgreSQL stores (the in-memory ticket store stands for the durable side of the Redis store), the
  coordinators for assignment and completion over PostgreSQL, Agones, the transports, the simulator and the analysis runs.
- `ParseRegionCapacities` and the other configuration code.
- Cancellation of a context, and failures of the network in the middle of a call.
- Rounding, infinities and NaN. The quality of a match, the beam's heuristic and signatures, the expected score, the exponential,
  the logarithm and the hash of an assignment key are arbitrary functions with the properties stated.
- Sharing of tickets and matches between callers: the stores hand out clones, so both are values here.
- Game modes as such, the names and traits of heroes, the trimming of strings and the validation of single fields of a player.
- The in-place stable sort: orders without ties are sorted by a functional insertion sort, which has the same result; the beam's
  comparator is not transitive, so its sort is a parameter of which only what a stable sort guarantees is known.
- Ticket and match reads for display, listings of proposals and runs, and rating history reads.
- Guards of Glicko-2 that only non-finite numbers can trigger, and the rest of its update.

Members that state less than a reader might expect:

- Saga.Next: a worker's reservation and match ids are new, as the id generator promises.
- Workers.Worker.RunAttempt: the imperative form runs undisturbed; interleavings are covered by the state machine.
- Workers.Worker.TryPool: likewise, and for new ids and an engine that draws its lineup from the tickets it is given.
- MatchServices.MatchService.StartMatch: the imperative form runs undisturbed; interleavings are covered by the state machine.
- MatchServices.MatchService.CompleteMatch: the imperative form runs undisturbed; interleavings are covered by the state machine.
- AgentServices.Service.ReviewProposal: the imperative form runs undisturbed; interleavings are covered by `Proposals`.
- AgentServices.Service.ActivateProposal: the imperative form runs undisturbed; interleavings are covered by `Proposals`.
- AgentServices.Service.RollbackProposal: the imperative form runs undisturbed; interleavings are covered by `Proposals`.
- RedisQueues.RedisQueue.ReserveAll: the tickets that were reserved are not read back, so a failure of that read is not covered.
- RedisStores.Store.ReserveAll: likewise, and the imperative form runs undisturbed; interleavings are covered by `RedisDurable`.
- RedisQueues.RedisQueue.RemoveTicket: its two reads and its pipeline run undisturbed; `RemoveAgreesExactly` has the other case.
- CandidateGeneration.GenerateCandidates: asks for tickets with different ids, as the stores hold them.
- FormationAlgorithms.FormTeamsGreedy: asks for candidates with different ids and players, which `AcceptedAreCandidates` proves of what candidate generation accepts.
- FormationAlgorithms.OptimizeBeam: asks for the same, and the best score is within one tolerance per formation because the Go code compares with a tolerance.
- FormationAlgorithms.CompareTeamAlgorithms: asks for the same; without a sufficient beam neither algorithm need beat the other.
- RatingServices.RatingService.RecordMatchResult: its branch for Elo ratings; the one for Glicko-2 ratings is not modelled.
- EligibleTickets.PurgeExactly: different tickets have different cancellation keys, as the worker builds them from the ids.
- Glicko2.UpdateVolatility: that the iteration converges within its limit is not proved; the contract says what follows if it does.
- Proposals.Next: experiments that are started by name carry ids of another form than the approved ones, as the operations service makes them.
