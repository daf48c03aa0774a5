// The recovery coordinator under any calls whatever, in any order: what every run keeps, and that
// the retries it leads to come to an end.
module CoordinatorRuns {
  import opened Events
  import opened Recovery
  import opened ReplayRetry

  datatype Call =
    | Observe(sequence: nat)
    | Mark(events: seq<Event>)
    | StartSnapshot(reason: Reason)
    | FinishSnapshot(sequence: nat)
    | LoseSnapshot
    | StartReplay(reason: Reason)
    | FinishReplay
    | LoseReplay

  function After(s: State, call: Call): State {
    match call
    case Observe(sequence) => Classify(s, sequence).1
    case Mark(events) => MarkBatch(s, events).1
    case StartSnapshot(reason) => BeginSnapshot(s, reason).1
    case FinishSnapshot(sequence) => CompleteSnapshot(s, sequence).1
    case LoseSnapshot => FailSnapshot(s)
    case StartReplay(reason) => BeginReplay(s, reason).1
    case FinishReplay => CompleteReplay(s).1
    case LoseReplay => FailReplay(s)
  }

  function AfterAll(s: State, calls: seq<Call>): State
    decreases |calls|
  {
    if calls == [] then s else AfterAll(After(s, calls[0]), calls[1..])
  }

  function At(s: State): Frontier {
    Frontier(s.latestSequence, s.highestObservedSequence)
  }

  // How each finished replay of a run ended, in order.
  function Rounds(s: State, calls: seq<Call>): seq<Round>
    decreases |calls|
  {
    if calls == [] then []
    else
      var rest := Rounds(After(s, calls[0]), calls[1..]);
      if calls[0].FinishReplay? then [Round(CompleteReplay(s).0, At(After(s, calls[0])))] + rest else rest
  }

  // No call names a sequence beyond the bound.
  ghost predicate Within(call: Call, bound: nat) {
    match call
    case Observe(sequence) => sequence <= bound
    case Mark(events) => forall e :: e in events ==> e.sequence <= bound
    case FinishSnapshot(sequence) => sequence <= bound
    case _ => true
  }

  // Nothing is ahead of what was observed, and a replay started at or before the present position.
  ghost predicate Ordered(s: State) {
    && s.latestSequence <= s.highestObservedSequence
    && (s.replayStart.At? ==> s.replayStart.sequence <= s.latestSequence)
  }

  lemma MarkKeepsOrdered(s: State, events: seq<Event>, bound: nat)
    requires Ordered(s)
    requires s.highestObservedSequence <= bound && forall e :: e in events ==> e.sequence <= bound
    ensures var t := MarkBatch(s, events).1;
      Ordered(t) && s.latestSequence <= t.latestSequence &&
          s.highestObservedSequence <= t.highestObservedSequence <= bound
  {
    var newer := Newer(s.latestSequence, events);
    var next := SortBySequence(newer);
    MarkNeverGoesBack(s, events);
    SortedIsSorted(newer);
    NewerMembers(s.latestSequence, events);
    if next != [] {
      assert next[|next| - 1] in multiset(next);
      assert next[|next| - 1] in newer;
    }
  }

  // Every call keeps the order, moves neither sequence back, and invents no sequence.
  lemma CallKeepsOrdered(s: State, call: Call, bound: nat)
    requires Ordered(s) && s.highestObservedSequence <= bound && Within(call, bound)
    ensures var t := After(s, call);
      && Ordered(t) && t.highestObservedSequence <= bound
      && s.latestSequence <= t.latestSequence && s.highestObservedSequence <= t.highestObservedSequence
      && (t.replayStart.At? ==> t.replayStart == s.replayStart || t.replayStart.sequence == s.latestSequence)
  {
    match call
    case Mark(events) => MarkKeepsOrdered(s, events, bound);
    case _ =>
  }

  lemma {:induction false} RunsStayOrdered(s: State, calls: seq<Call>, bound: nat)
    requires Ordered(s) && s.highestObservedSequence <= bound
    requires forall c :: c in calls ==> Within(c, bound)
    ensures var t := AfterAll(s, calls);
      Ordered(t) && t.highestObservedSequence <= bound && s.latestSequence <= t.latestSequence
    decreases |calls|
  {
    if calls == [] {
    } else {
      assert calls[0] in calls;
      CallKeepsOrdered(s, calls[0], bound);
      RunsStayOrdered(After(s, calls[0]), calls[1..], bound);
    }
  }

  // Whatever was called before: a recovery is granted exactly when none is in flight (and, for a
  // replay, the client is bootstrapped), a refusal is remembered, and a finished recovery says that
  // nothing more is needed only if everything observed is applied and nothing was asked for meanwhile.
  lemma RecoveriesAreExclusive(calls: seq<Call>, bound: nat, reason: Reason, sequence: nat)
    requires forall c :: c in calls ==> Within(c, bound)
    ensures var s := AfterAll(INITIAL, calls);
      && (BeginSnapshot(s, reason).0 <==> s.inFlight == Idle)
      && (BeginReplay(s, reason).0 <==> s.inFlight == Idle && s.bootstrapped)
      && (!BeginSnapshot(s, reason).0 ==> CompleteReplay(BeginSnapshot(s, reason).1).0.shouldReplay)
      && (!BeginReplay(s, reason).0 ==> CompleteSnapshot(BeginReplay(s, reason).1, sequence).0)
      && (!CompleteReplay(s).0.shouldReplay <==> s.latestSequence == s.highestObservedSequence && !s.pendingReplay)
      && (!CompleteSnapshot(s, sequence).0 <==>
            s.highestObservedSequence <= Max(s.latestSequence, sequence) && !s.pendingReplay)
  {
    RunsStayOrdered(INITIAL, calls, bound);
  }

  // What a live event means: it is old, it comes while it cannot be applied, it is the next one, or it leaves
  // a gap. Unless it is old or applied, the recovery that ends next asks for another replay, whatever is
  // applied meanwhile.
  lemma UnappliedEventIsAskedFor(calls: seq<Call>, bound: nat, sequence: nat, events: seq<Event>)
    requires forall c :: c in calls ==> Within(c, bound)
    ensures var s := AfterAll(INITIAL, calls);
            var verdict, t := Classify(s, sequence).0, Classify(s, sequence).1;
            && (verdict == Ignore <==> sequence <= s.latestSequence)
            && (verdict == Apply <==> sequence == s.latestSequence + 1 && BeginReplay(s, SequenceGap).0)
            && (verdict == Recover <==> sequence > s.latestSequence + 1 && BeginReplay(s, SequenceGap).0)
            && t.latestSequence == s.latestSequence && sequence <= t.highestObservedSequence
            && (verdict == Defer || verdict == Recover ==> CompleteReplay(MarkBatch(t, events).1).0.shouldReplay)
  {
    RunsStayOrdered(INITIAL, calls, bound);
  }

  // The finished replays of any run are plausible rounds, even from the middle of one.
  lemma {:induction false} RoundsArePlausible(s: State, calls: seq<Call>, at: Frontier, bound: nat)
    requires Ordered(s) && s.highestObservedSequence <= bound
    requires forall c :: c in calls ==> Within(c, bound)
    requires at.latestSequence <= s.latestSequence && at.highestObservedSequence <= s.highestObservedSequence
    requires s.replayStart.At? ==> at.latestSequence <= s.replayStart.sequence
    ensures Plausible(at, Rounds(s, calls), bound)
    decreases |calls|
  {
    if calls == [] {
    } else {
      assert calls[0] in calls;
      CallKeepsOrdered(s, calls[0], bound);
      var t := After(s, calls[0]);
      if calls[0].FinishReplay? {
        RoundsArePlausible(t, calls[1..], At(t), bound);
        assert Rounds(s, calls)[1..] == Rounds(t, calls[1..]);
      } else {
        RoundsArePlausible(t, calls[1..], at, bound);
      }
    }
  }

  // The driver's decisions in a run: each finished replay is judged by the tracker of the one before, and
  // a replay that fails makes the driver forget it.
  function DriverDecisions(s: State, previous: Tracker, calls: seq<Call>, policy: Policy): seq<Decision>
    decreases |calls|
  {
    if calls == [] then []
    else
      var t, rest := After(s, calls[0]), calls[1..];
      match calls[0]
      case FinishReplay =>
        var d := Decide(previous, CompleteReplay(s).0, At(t), policy);
        [d] + DriverDecisions(t, d.tracker, rest, policy)
      case LoseReplay => DriverDecisions(t, NoTracker, rest, policy)
      case _ => DriverDecisions(t, previous, rest, policy)
  }

  function Failures(calls: seq<Call>): nat
    decreases |calls|
  {
    if calls == [] then 0 else (if calls[0].LoseReplay? then 1 else 0) + Failures(calls[1..])
  }

  // Where a chain of decisions stands: nothing has gone back since `at`.
  ghost predicate Since(s: State, at: Frontier, bound: nat) {
    && Ordered(s) && s.highestObservedSequence <= bound
    && at.latestSequence <= s.latestSequence && at.highestObservedSequence <= s.highestObservedSequence
    && (s.replayStart.At? ==> at.latestSequence <= s.replayStart.sequence)
  }

  // A finished replay is a plausible round, whatever came before it.
  lemma FinishIsPlausible(s: State, at: Frontier, bound: nat)
    requires Since(s, at, bound)
    ensures var t := After(s, FinishReplay);
            Plausible(at, [Round(CompleteReplay(s).0, At(t))], bound) && Since(t, At(t), bound)
  {
    var r := [Round(CompleteReplay(s).0, At(After(s, FinishReplay)))];
    assert r[1..] == [];
  }

  lemma {:induction false} ChainIsBounded(
    s: State, previous: Tracker, calls: seq<Call>, at: Frontier, bound: nat, policy: Policy)
    requires Since(s, at, bound) && forall c :: c in calls ==> Within(c, bound)
    requires AttemptsAt(previous, at) <= policy.maxNoProgressRetries
    requires AllRetry(DriverDecisions(s, previous, calls, policy))
    ensures |DriverDecisions(s, previous, calls, policy)|
         <= Potential(previous, at, bound, policy) + policy.maxNoProgressRetries * Failures(calls)
    decreases |calls|
  {
    var m := policy.maxNoProgressRetries;
    if calls == [] {
      PotentialIsNatural(previous, at, bound, policy);
    } else {
      var t, rest := After(s, calls[0]), calls[1..];
      assert calls[0] in calls && forall c :: c in rest ==> c in calls;
      CallKeepsOrdered(s, calls[0], bound);
      match calls[0]
      case FinishReplay =>
        var r := Round(CompleteReplay(s).0, At(t));
        var ds := DriverDecisions(s, previous, calls, policy);
        FinishIsPlausible(s, at, bound);
        assert ds[0].shouldRetry && ds[1..] == DriverDecisions(t, ds[0].tracker, rest, policy);
        RetryUsesPotential(previous, at, r, bound, policy);
        ChainIsBounded(t, ds[0].tracker, rest, r.at, bound, policy);
      case LoseReplay =>
        ChainIsBounded(t, NoTracker, rest, at, bound, policy);
        FailureCosts(calls, m);
      case _ =>
        ChainIsBounded(t, previous, rest, at, bound, policy);
    }
  }

  lemma FailureCosts(calls: seq<Call>, m: nat)
    requires calls != [] && calls[0].LoseReplay?
    ensures m * Failures(calls) == m * Failures(calls[1..]) + m
  {
    OneMoreTimes(m, Failures(calls[1..]));
  }

  lemma OneMoreTimes(m: nat, n: nat)
    ensures m * (1 + n) == m * n + m
  {
  }

  lemma PotentialIsNatural(previous: Tracker, at: Frontier, bound: nat, policy: Policy)
    requires at.latestSequence <= bound && at.highestObservedSequence <= bound
    requires AttemptsAt(previous, at) <= policy.maxNoProgressRetries
    ensures Potential(previous, at, bound, policy) >= 0
  {
    assert Remaining(at, bound) * (policy.maxNoProgressRetries + 1) >= 0;
  }

  lemma StartPotential(bound: nat, policy: Policy)
    ensures var m := policy.maxNoProgressRetries;
            Potential(NoTracker, Frontier(0, 0), bound, policy) == 2 * bound * (m + 1) + m
  {
  }

  // From any point of any run, retrying cannot go on for ever: as long as every finished replay is
  // retried, there are at most so many of them, and so many more for each replay that failed.
  lemma RunsRetryBoundedly(before: seq<Call>, calls: seq<Call>, bound: nat, policy: Policy)
    requires forall c :: c in before || c in calls ==> Within(c, bound)
    requires AllRetry(DriverDecisions(AfterAll(INITIAL, before), NoTracker, calls, policy))
    ensures var m := policy.maxNoProgressRetries;
            |DriverDecisions(AfterAll(INITIAL, before), NoTracker, calls, policy)|
            <= 2 * bound * (m + 1) + m + m * Failures(calls)
  {
    RunsStayOrdered(INITIAL, before, bound);
    StartPotential(bound, policy);
    ChainIsBounded(AfterAll(INITIAL, before), NoTracker, calls, Frontier(0, 0), bound, policy);
  }
}
