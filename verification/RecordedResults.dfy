/**
  Which result a finished match has (internal/matchmaking/application/match_service.go:67-105): in
  every run it is the outcome that the caller who finished the match reported in its CompleteMatch.
*/
module RecordedResults {
  import opened Prelude
  import opened Matches
  import opened MatchStores
  import opened Saga
  import opened SagaInvariant
  import opened SagaSafety

  // In the run, caller c has made the call to complete match m with the given outcome.
  ghost predicate Reported(capacities: map<Id, int>, events: seq<Event>, c: nat, m: Id, outcome: MatchResult) {
    exists i {:trigger events[i]} :: 0 <= i < |events| && Reports(capacities, events, i, c, m, outcome)
  }

  // A call of a caller who has called before does not count.
  ghost predicate Reports(capacities: map<Id, int>, events: seq<Event>, i: nat, c: nat, m: Id, outcome: MatchResult)
    requires i < |events|
  {
    && events[i].CallComplete? && events[i].c == c && events[i].m == m && events[i].outcome == outcome
    && c !in Run(Initial(capacities), events[..i]).calls
  }

  lemma ReportedStays(capacities: map<Id, int>, events: seq<Event>, e: Event, c: nat, m: Id, outcome: MatchResult)
    requires Reported(capacities, events, c, m, outcome)
    ensures Reported(capacities, events + [e], c, m, outcome)
  {
    var i :| 0 <= i < |events| && Reports(capacities, events, i, c, m, outcome);
    assert (events + [e])[..i] == events[..i];
    assert (events + [e])[i] == events[i];
  }

  lemma NowReported(capacities: map<Id, int>, events: seq<Event>, e: Event)
    requires e.CallComplete? && e.c !in Run(Initial(capacities), events).calls
    ensures Reported(capacities, events + [e], e.c, e.m, e.outcome)
  {
    assert (events + [e])[..|events|] == events;
    assert (events + [e])[|events|] == e;
  }

  /* What one step does to the results */

  // The update that the caller is about to make carries the outcome it reported.
  ghost predicate CallRecords(capacities: map<Id, int>, events: seq<Event>, s: System, c: nat) {
    c in s.calls && s.calls[c].CompleteUpdate? ==>
      var copy := s.calls[c].copy;
      copy.result.Some? && Reported(capacities, events, c, copy.id, copy.result.value)
  }

  ghost predicate MatchRecords(capacities: map<Id, int>, events: seq<Event>, s: System, m: Id) {
    m in s.matches && s.matches[m].state == Finished ==>
      && s.matches[m].result.Some? && m in s.finisher
      && Reported(capacities, events, s.finisher[m], m, s.matches[m].result.value)
  }

  predicate ByCaller(e: Event) {
    e.CallStart? || e.CallComplete? || e.Proceed?
  }

  // A worker, a player or the recovery leaves the callers alone.
  lemma OthersLeaveCallers(s: System, e: Event)
    requires !ByCaller(e)
    ensures Next(s, e).calls == s.calls && Next(s, e).finisher == s.finisher
    ensures !e.Advance? ==> Next(s, e).matches == s.matches
  {
    if e.Advance? {
      AdvanceLeavesCallers(s, e);
    } else {
      StoreLeavesCallers(s, e);
    }
  }

  lemma StoreLeavesCallers(s: System, e: Event)
    requires !ByCaller(e) && !e.Advance?
    ensures var s' := Next(s, e); s' == s.(store := s'.store, attempts := s'.attempts)
  {
  }

  lemma AdvanceLeavesCallers(s: System, e: Event)
    requires e.Advance?
    ensures Next(s, e).calls == s.calls && Next(s, e).finisher == s.finisher
  {
    if e.m in s.attempts {
      WorkLeavesCallers(s, e.m, e.token);
    }
  }

  lemma WorkLeavesCallers(s: System, m: Id, token: Option<Id>)
    requires m in s.attempts
    ensures Work(s, m, token).calls == s.calls && Work(s, m, token).finisher == s.finisher
  {
    assert Work(s, m, token) == s || GetsOn(s, Work(s, m, token), m);
  }

  function FirstCall(s: System, e: Event): Call
    requires e.CallStart? || e.CallComplete?
  {
    match e
    case CallStart(_, m, now) => StartCall(s.matches, m, now)
    case CallComplete(_, m, outcome, now) => CompleteCall(s.matches, m, outcome, now)
  }

  // A caller calls once, and then goes on.
  ghost predicate CallerStep(s: System, s': System, e: Event)
    requires ByCaller(e)
  {
    if e.Proceed? then (if e.c in s.calls then GoesOn(s, s', e.c) else s' == s)
    else if e.c in s.calls then s' == s
    else s' == s.Answer(e.c, FirstCall(s, e))
  }

  lemma IsCallerStep(s: System, e: Event)
    requires ByCaller(e)
    ensures CallerStep(s, Next(s, e), e)
  {
    if e.Proceed? && e.c in s.calls {
      assert GoesOn(s, Proceeding(s, e.c), e.c);
    }
  }

  // A caller's event is about that caller.
  lemma CallersLeaveOthers(s: System, s': System, e: Event, c: nat)
    requires ByCaller(e) && CallerStep(s, s', e)
    ensures e.c != c && c in s'.calls ==> c in s.calls && s'.calls[c] == s.calls[c]
    ensures c in s.calls ==> c in s'.calls
  {
  }

  lemma CompleteCallReports(s: System, m: Id, outcome: MatchResult, now: Time)
    requires Safe(s) && CompleteCall(s.matches, m, outcome, now).CompleteUpdate?
    ensures var copy := CompleteCall(s.matches, m, outcome, now).copy; copy.id == m && copy.result == Some(outcome)
  {
    ReadVersion(s, m);
  }

  // A caller is about to update only after its first call, and then with the outcome of that call.
  lemma NewUpdate(s: System, e: Event, c: nat)
    requires Safe(s) && c in Next(s, e).calls && Next(s, e).calls[c].CompleteUpdate?
    ensures || (c in s.calls && Next(s, e).calls[c] == s.calls[c])
            || (c !in s.calls && e.CallComplete? && e.c == c && Next(s, e).calls[c].copy.id == e.m
                && Next(s, e).calls[c].copy.result == Some(e.outcome))
  {
    if !ByCaller(e) {
      OthersLeaveCallers(s, e);
    } else {
      IsCallerStep(s, e);
      CallersUpdate(s, Next(s, e), e, c);
    }
  }

  lemma CallersUpdate(s: System, s': System, e: Event, c: nat)
    requires Safe(s) && ByCaller(e) && CallerStep(s, s', e) && c in s'.calls && s'.calls[c].CompleteUpdate?
    ensures || (c in s.calls && s'.calls[c] == s.calls[c])
            || (c !in s.calls && e.CallComplete? && e.c == c && s'.calls[c].copy.id == e.m
                && s'.calls[c].copy.result == Some(e.outcome))
  {
    CallersLeaveOthers(s, s', e, c);
    if e.CallComplete? && e.c == c && c !in s.calls {
      CompleteCallReports(s, e.m, e.outcome, e.now);
    }
  }

  // One match changes, and neither its old version nor its new one has finished.
  ghost predicate StoresOpen(s: System, s': System, copy: Match) {
    && s'.matches == s.matches[copy.id := copy] && copy.state != Finished
    && (copy.id in s.matches ==> s.matches[copy.id].state != Finished)
  }

  ghost predicate FinishesNothing(s: System, s': System) {
    s'.matches == s.matches || exists copy :: StoresOpen(s, s', copy)
  }

  lemma CreatingFinishesNothing(s: System, m: Id)
    requires m in s.attempts && s.attempts[m].phase.ToCreate?
    ensures FinishesNothing(s, CreatingMatch(s, m))
  {
    var p := s.attempts[m].plan;
    match NewMatch(m, p.mode, p.teamA, p.teamB, p.region, p.policyVersion, p.quality, p.now)
    case Ok(copy) =>
      if Creating(s.matches, copy).1.Ok? {
        assert StoresOpen(s, CreatingMatch(s, m), copy);
      }
    case Err(_) =>
  }

  lemma StartingFinishesNothing(s: System, m: Id, copy: Match)
    requires m in s.attempts && s.attempts[m].phase == ToStart(copy) && StoredAs(s, copy, MatchState.Created)
    ensures FinishesNothing(s, StartingAllocation(s, m, copy))
  {
    var next := copy.StartAllocation(s.attempts[m].plan.now).value;
    if Updating(s.matches, next).1.Ok? {
      assert StoresOpen(s, StartingAllocation(s, m, copy), next);
    }
  }

  lemma PublishingFinishesNothing(s: System, m: Id, copy: Match)
    requires m in s.attempts && s.attempts[m].phase == ToPublish(copy) && copy.id == m && Waiting(s, m)
             && copy.state == Ready
    ensures FinishesNothing(s, Publishing(s, m, copy))
  {
    if Updating(s.matches, copy).1.Ok? {
      assert StoresOpen(s, Publishing(s, m, copy), copy);
    }
  }

  lemma FailingFinishesNothing(s: System, m: Id, copy: Match)
    requires m in s.attempts && s.attempts[m].phase == ToFail(copy) && copy.id == m && Waiting(s, m)
             && copy.state == MatchState.Failed
    ensures FinishesNothing(s, FailingMatch(s, m, copy))
  {
    if Updating(s.matches, copy).1.Ok? {
      assert StoresOpen(s, FailingMatch(s, m, copy), copy);
    }
  }

  // A worker never finishes a match, and never replaces a finished one.
  lemma WorkFinishesNothing(s: System, m: Id, token: Option<Id>)
    requires Safe(s) && m in s.attempts
    ensures FinishesNothing(s, Work(s, m, token))
  {
    assert EntryOk(s, m);
    OwnWorkFinishesNothing(s, m, token);
  }

  lemma OwnWorkFinishesNothing(s: System, m: Id, token: Option<Id>)
    requires m in s.attempts && PhaseOk(s, m, s.attempts[m].plan, s.attempts[m].phase)
    ensures FinishesNothing(s, Work(s, m, token))
  {
    match s.attempts[m].phase
    case ToCreate => CreatingFinishesNothing(s, m);
    case ToStart(copy) => StartingFinishesNothing(s, m, copy);
    case ToPublish(copy) => PublishingFinishesNothing(s, m, copy);
    case ToFail(copy) => FailingFinishesNothing(s, m, copy);
    case _ =>
  }

  // The accepted update of a caller follows the stored version, which has not finished.
  lemma AcceptedVersion(s: System, c: nat)
    requires Safe(s) && c in s.calls && (s.calls[c].StartUpdate? || s.calls[c].CompleteUpdate?)
    requires Updating(s.matches, s.calls[c].copy).1.Ok?
    ensures s.matches[s.calls[c].copy.id].state != Finished
    ensures s.calls[c].copy.state == if s.calls[c].StartUpdate? then Running else Finished
  {
    assert CallOk(s, c);
    CheckedVersion(s, s.calls[c].copy);
  }

  ghost predicate StaysFinished(s: System, s': System, m: Id) {
    && m in s.matches && m in s'.matches && s'.matches[m] == s.matches[m]
    && (m in s.finisher ==> m in s'.finisher && s'.finisher[m] == s.finisher[m])
  }

  ghost predicate Finishes(s: System, s': System, c: nat, m: Id) {
    && m in s'.matches && c in s.calls && s.calls[c] == CompleteUpdate(s'.matches[m]) && s'.matches[m].id == m
    && m in s'.finisher && s'.finisher[m] == c
  }

  // A caller's event finishes a match only if it is its accepted update, and then the caller is the finisher.
  lemma ProceedingFinishes(s: System, c: nat, m: Id)
    requires Safe(s) && c in s.calls && m in Proceeding(s, c).matches && Proceeding(s, c).matches[m].state == Finished
    ensures Finishes(s, Proceeding(s, c), c, m) || StaysFinished(s, Proceeding(s, c), m)
  {
    var call := s.calls[c];
    if call.StartUpdate? || call.CompleteUpdate? {
      if Updating(s.matches, call.copy).1.Ok? {
        AcceptedVersion(s, c);
        UpdateFinishes(s, c, m);
      } else {
        RefusedFinishesNothing(s, c);
      }
    } else {
      assert SameMatches(s, Proceeding(s, c));
    }
  }

  lemma UpdateFinishes(s: System, c: nat, m: Id)
    requires c in s.calls && (s.calls[c].StartUpdate? || s.calls[c].CompleteUpdate?)
    requires Updating(s.matches, s.calls[c].copy).1.Ok? && s.matches[s.calls[c].copy.id].state != Finished
    requires s.calls[c].copy.state == if s.calls[c].StartUpdate? then Running else Finished
    requires m in Proceeding(s, c).matches && Proceeding(s, c).matches[m].state == Finished
    ensures Finishes(s, Proceeding(s, c), c, m) || StaysFinished(s, Proceeding(s, c), m)
  {
    var call := s.calls[c];
    if call.StartUpdate? {
      assert Proceeding(s, c) == StoringStart(s, c, call.copy);
    } else {
      assert Proceeding(s, c) == StoringCompletion(s, c, call.copy);
    }
  }

  lemma RefusedFinishesNothing(s: System, c: nat)
    requires c in s.calls && (s.calls[c].StartUpdate? || s.calls[c].CompleteUpdate?)
    requires Updating(s.matches, s.calls[c].copy).1.Err?
    ensures Proceeding(s, c).matches == s.matches && Proceeding(s, c).finisher == s.finisher
  {
    var call := s.calls[c];
    if call.StartUpdate? {
      assert Proceeding(s, c) == StoringStart(s, c, call.copy);
    } else {
      assert Proceeding(s, c) == StoringCompletion(s, c, call.copy);
    }
  }

  lemma FinishesOnce(s: System, e: Event, m: Id)
    requires Safe(s) && m in Next(s, e).matches && Next(s, e).matches[m].state == Finished
    ensures StaysFinished(s, Next(s, e), m) || (e.Proceed? && Finishes(s, Next(s, e), e.c, m))
  {
    if !ByCaller(e) {
      OthersLeaveCallers(s, e);
      if e.Advance? && e.m in s.attempts {
        WorkFinishesNothing(s, e.m, e.token);
      }
    } else if e.Proceed? && e.c in s.calls {
      ProceedingFinishes(s, e.c, m);
    }
  }

  /* Every run */

  lemma OneMoreEvent(capacities: map<Id, int>, events: seq<Event>, e: Event)
    ensures Run(Initial(capacities), events + [e]) == Next(Run(Initial(capacities), events), e)
  {
    assert (events + [e])[..|events|] == events;
  }

  lemma CallsKeepRecord(capacities: map<Id, int>, events: seq<Event>, e: Event, c: nat)
    requires var s := Run(Initial(capacities), events); Safe(s) && CallRecords(capacities, events, s, c)
    ensures CallRecords(capacities, events + [e], Run(Initial(capacities), events + [e]), c)
  {
    var s := Run(Initial(capacities), events);
    OneMoreEvent(capacities, events, e);
    var s' := Next(s, e);
    if c in s'.calls && s'.calls[c].CompleteUpdate? {
      var copy := s'.calls[c].copy;
      NewUpdate(s, e, c);
      if c in s.calls {
        ReportedStays(capacities, events, e, c, copy.id, copy.result.value);
      } else {
        NowReported(capacities, events, e);
      }
    }
  }

  lemma MatchesKeepRecord(capacities: map<Id, int>, events: seq<Event>, e: Event, m: Id)
    requires var s := Run(Initial(capacities), events);
             Safe(s) && MatchRecords(capacities, events, s, m) && forall c :: CallRecords(capacities, events, s, c)
    ensures MatchRecords(capacities, events + [e], Run(Initial(capacities), events + [e]), m)
  {
    var s := Run(Initial(capacities), events);
    OneMoreEvent(capacities, events, e);
    var s' := Next(s, e);
    if m in s'.matches && s'.matches[m].state == Finished {
      FinishesOnce(s, e, m);
      if m in s.matches && s'.matches[m] == s.matches[m] {
        ReportedStays(capacities, events, e, s.finisher[m], m, s.matches[m].result.value);
      } else {
        assert CallRecords(capacities, events, s, e.c);
        ReportedStays(capacities, events, e, e.c, m, s'.matches[m].result.value);
      }
    }
  }

  lemma {:induction false} RunRecords(capacities: map<Id, int>, events: seq<Event>)
    requires Capacities(capacities)
    ensures forall c :: CallRecords(capacities, events, Run(Initial(capacities), events), c)
    ensures forall m :: MatchRecords(capacities, events, Run(Initial(capacities), events), m)
  {
    if events != [] {
      var init, e := events[..|events| - 1], events[|events| - 1];
      assert events == init + [e];
      RunRecords(capacities, init);
      RunIsSafe(capacities, init);
      forall c ensures CallRecords(capacities, events, Run(Initial(capacities), events), c) {
        CallsKeepRecord(capacities, init, e, c);
      }
      forall m ensures MatchRecords(capacities, events, Run(Initial(capacities), events), m) {
        MatchesKeepRecord(capacities, init, e, m);
      }
    }
  }

  /** In every run, the result of a finished match is the outcome that its finisher reported. */
  lemma ResultIsReported(capacities: map<Id, int>, events: seq<Event>, m: Id)
    requires Capacities(capacities)
    requires var s := Run(Initial(capacities), events); m in s.matches && s.matches[m].state == Finished
    ensures var s := Run(Initial(capacities), events);
            && s.matches[m].result.Some? && m in s.finisher
            && Reported(capacities, events, s.finisher[m], m, s.matches[m].result.value)
  {
    RunRecords(capacities, events);
    assert MatchRecords(capacities, events, Run(Initial(capacities), events), m);
  }

  lemma NextKeepsCallers(s: System, e: Event, c: nat)
    requires c in s.calls
    ensures c in Next(s, e).calls
  {
    if ByCaller(e) {
      IsCallerStep(s, e);
      CallersLeaveOthers(s, Next(s, e), e, c);
    } else {
      OthersLeaveCallers(s, e);
    }
  }

  lemma {:induction false} RunKeepsCallers(capacities: map<Id, int>, events: seq<Event>, i: nat, c: nat)
    requires i <= |events| && c in Run(Initial(capacities), events[..i]).calls
    ensures c in Run(Initial(capacities), events).calls
  {
    var n := |events| - 1;
    if i <= n {
      assert events[..n][..i] == events[..i];
      RunKeepsCallers(capacities, events[..n], i, c);
      NextKeepsCallers(Run(Initial(capacities), events[..n]), events[n], c);
    } else {
      assert events[..i] == events;
    }
  }

  lemma CallIsAnswered(s: System, e: Event)
    requires e.CallComplete?
    ensures e.c in Next(s, e).calls
  {
  }

  lemma ReportsFirst(capacities: map<Id, int>, events: seq<Event>, i: nat, j: nat, c: nat, a: Id, b: Id, x: MatchResult,
                     y: MatchResult)
    requires i < j < |events|
    requires Reports(capacities, events, i, c, a, x)
    ensures !Reports(capacities, events, j, c, b, y)
  {
    assert events[..i + 1][..i] == events[..i];
    CallIsAnswered(Run(Initial(capacities), events[..i]), events[i]);
    assert events[..j][..i + 1] == events[..i + 1];
    RunKeepsCallers(capacities, events[..j], i + 1, c);
  }

  /** A caller reports one outcome, of one match. */
  lemma ReportIsUnique(capacities: map<Id, int>, events: seq<Event>, c: nat, a: Id, b: Id, x: MatchResult,
                       y: MatchResult)
    requires Reported(capacities, events, c, a, x) && Reported(capacities, events, c, b, y)
    ensures a == b && x == y
  {
    var i :| 0 <= i < |events| && Reports(capacities, events, i, c, a, x);
    var j :| 0 <= j < |events| && Reports(capacities, events, j, c, b, y);
    if i < j {
      ReportsFirst(capacities, events, i, j, c, a, b, x, y);
    } else if j < i {
      ReportsFirst(capacities, events, j, i, c, b, a, y, x);
    } else {
      assert events[i] == events[j];
    }
  }
}
