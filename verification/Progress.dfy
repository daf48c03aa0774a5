// Where a client comes to rest when its requests are answered, each replay with one limited read.
module Progress {
  import opened Events
  import opened EventStore
  import opened Recovery
  import opened ReplayRetry
  import opened Resequencer
  import opened Replication
  import opened Pipeline

  // ---- How far replays reach ----

  // Where one replay from a position ends, in a log of n events.
  function PageEnd(at: nat, n: nat, limit: nat): nat {
    Min(n, at + limit)
  }

  // Where replays end that are repeated until the target is reached.
  function Reach(at: nat, target: nat, n: nat, limit: nat): nat
    requires limit > 0 && target <= n
    decreases target - at
  {
    if at >= target then at else Reach(PageEnd(at, n, limit), target, n, limit)
  }

  // Each timer starts a replay, and more until the target is reached.
  function AfterTimers(timers: nat, at: nat, target: nat, n: nat, limit: nat): nat
    requires limit > 0 && target <= n
    decreases timers
  {
    if timers == 0 then at
    else AfterTimers(timers - 1, Reach(PageEnd(at, n, limit), target, n, limit), target, n, limit)
  }

  // How many replays it takes to reach the target.
  function Rounds(at: nat, target: nat, n: nat, limit: nat): nat
    requires limit > 0 && target <= n
    decreases target - at
  {
    if at >= target then 0 else 1 + Rounds(PageEnd(at, n, limit), target, n, limit)
  }

  lemma {:induction false} ReachBounds(at: nat, target: nat, n: nat, limit: nat)
    requires limit > 0 && target <= n && at <= n
    ensures at <= Reach(at, target, n, limit) <= n && target <= Reach(at, target, n, limit)
    decreases target - at
  {
    if at >= target {
    } else {
      ReachBounds(PageEnd(at, n, limit), target, n, limit);
    }
  }

  // In closed form: the least number of whole reads that reaches the target.
  lemma {:induction false} ReachIsRounds(at: nat, target: nat, n: nat, limit: nat)
    requires limit > 0 && target <= n && at <= n
    ensures var k := Rounds(at, target, n, limit);
            && Reach(at, target, n, limit) == Min(n, at + k * limit)
            && forall j: nat :: j < k ==> Min(n, at + j * limit) < target
    decreases target - at
  {
    if at >= target {
    } else {
      var k := Rounds(at, target, n, limit);
      var next := PageEnd(at, n, limit);
      ReachIsRounds(next, target, n, limit);
      assert k * limit == (k - 1) * limit + limit;
      assert (k - 1) * limit >= 0;
      forall j: nat | j < k ensures Min(n, at + j * limit) < target {
        if j > 0 {
          assert j * limit == (j - 1) * limit + limit;
          assert Min(n, next + (j - 1) * limit) < target;
        }
      }
    }
  }

  lemma {:induction false} AfterTimersBounds(timers: nat, at: nat, target: nat, n: nat, limit: nat)
    requires limit > 0 && target <= n && at <= n
    ensures at <= AfterTimers(timers, at, target, n, limit) <= n
    decreases timers
  {
    if timers == 0 {
    } else {
      ReachBounds(PageEnd(at, n, limit), target, n, limit);
      AfterTimersBounds(timers - 1, Reach(PageEnd(at, n, limit), target, n, limit), target, n, limit);
    }
  }

  // Targets that are reached already make no difference.
  lemma {:induction false} ReachedTargets(timers: nat, at: nat, target: nat, other: nat, n: nat, limit: nat)
    requires limit > 0 && target <= at && other <= at && at <= n
    ensures AfterTimers(timers, at, target, n, limit) == AfterTimers(timers, at, other, n, limit)
    decreases timers
  {
    if timers == 0 {
    } else {
      ReachedTargets(timers - 1, PageEnd(at, n, limit), target, other, n, limit);
    }
  }

  // ---- Answering a client ----

  // Nothing is running, waiting for a timer or buffered.
  ghost predicate AtRest<S>(c: Client<S>) {
    c.waiting == Nothing && c.retryTimers == 0 && c.buffer == []
  }

  ghost predicate Quiet<S>(c: Client<S>) {
    AtRest(c) && c.coordinator.bootstrapped
  }

  // What happens next when requests are answered and nothing else happens: a snapshot with all the server
  // has, a replay with one read. No snapshot is asked for from outside.
  function Answer<S>(s: System<S>, limit: nat): Action {
    match s.client.waiting
    case ForSnapshot(_) => SnapshotArrives(|s.log|)
    case ForReplay(from) => ReplayArrives(PageEnd(from, |s.log|, limit))
    case Nothing => if s.client.buffer != [] then FlushTick else RetryTimerFires
  }

  // What a client still has to do, not counting the replays that follow from one that fell short. Without a
  // snapshot, a replay that was asked for does not run.
  ghost function Work<S>(c: Client<S>): nat {
    2 * c.retryTimers + (if c.waiting == Nothing then 0 else 1) +
        (if Started(c) && c.coordinator.pendingReplay then 3 else 0) + (if c.buffer != [] then 1 else 0)
  }

  // How much of the log the replay in flight, if any, is short of.
  function Gap<S>(s: System<S>): nat {
    if s.client.waiting.ForReplay? && s.client.waiting.from <= |s.log| then |s.log| - s.client.waiting.from else 0
  }

  // Where the client will be once the recovery it is in and its buffer are done: a pending replay adds a
  // round, and rounds go on until everything observed is reached.
  ghost function Base<S>(s: System<S>, limit: nat): nat
    requires limit > 0 && Sequenced(s)
  {
    var c, n := s.client, |s.log|;
    var latest, target := c.coordinator.latestSequence, c.coordinator.highestObservedSequence;
    match c.waiting
    case Nothing => latest + |Buffered(c)|
    case ForSnapshot(_) => n
    case ForReplay(from) =>
      var first := Max(latest, PageEnd(from, n, limit));
      Reach(if c.coordinator.pendingReplay then PageEnd(first, n, limit) else first, target, n, limit)
  }

  // A client that has no snapshot and waits for none does not move, whatever timers fire.
  ghost function RestingPlace<S>(s: System<S>, limit: nat): nat
    requires limit > 0 && Sequenced(s)
  {
    if !Started(s.client) then Base(s, limit)
    else
      AfterTimers(s.client.retryTimers, Base(s, limit), s.client.coordinator.highestObservedSequence, |s.log|, limit)
  }

  lemma BaseBounds<S>(s: System<S>, limit: nat)
    requires limit > 0 && Sequenced(s) && OneRecovery(s.client) && BufferSane(s) && SingleCopy(s.client)
    ensures s.client.coordinator.latestSequence <= Base(s, limit) <= |s.log|
  {
    var c, n := s.client, |s.log|;
    BufferedIsNext(s);
    if c.waiting.ForReplay? {
      var first := Max(c.coordinator.latestSequence, PageEnd(c.waiting.from, n, limit));
      var start := if c.coordinator.pendingReplay then PageEnd(first, n, limit) else first;
      ReachBounds(start, c.coordinator.highestObservedSequence, n, limit);
    }
  }

  // A client that holds the whole log stays there.
  lemma TopIsTop<S>(s: System<S>, limit: nat)
    requires limit > 0 && Sequenced(s) && OneRecovery(s.client) && BufferSane(s) && SingleCopy(s.client)
    requires s.client.coordinator.latestSequence == |s.log| || s.client.waiting.ForSnapshot?
    ensures Base(s, limit) == RestingPlace(s, limit) == |s.log|
  {
    BaseBounds(s, limit);
    AfterTimersBounds(s.client.retryTimers, |s.log|, s.client.coordinator.highestObservedSequence, |s.log|, limit);
  }

  // ---- A replay is answered ----

  // What becomes of the client once the events of a replay from `from` are applied: it is done if nothing
  // more was observed or asked for, replays again at once if this one brought something, waits on a timer
  // if fewer than three in a row brought nothing, and gives up at the next.
  ghost predicate Finished<S>(c: Client<S>, from: nat, t: Client<S>) {
    var latest, observed := c.coordinator.latestSequence, c.coordinator.highestObservedSequence;
    var at := Frontier(latest, observed);
    var vain := AttemptsAt(c.tracker, at);
    && t.coordinator.latestSequence == latest && t.coordinator.highestObservedSequence == observed
    && t.coordinator.bootstrapped && !t.coordinator.pendingReplay && t.buffer == c.buffer
    && (if !c.coordinator.pendingReplay && observed <= latest then
          t.waiting == Nothing && t.retryTimers == c.retryTimers && !t.stalled && t.tracker == NoTracker
        else if latest > from then
          t.waiting == ForReplay(latest) && t.retryTimers == c.retryTimers && !t.stalled && t.tracker == NoTracker
        else if vain < 3 then
          t.waiting == Nothing && t.retryTimers == c.retryTimers + 1 && t.tracker == Tracker(vain + 1, at)
        else
          t.waiting == Nothing && t.retryTimers == c.retryTimers && t.stalled && t.tracker == NoTracker)
  }

  lemma FinishedReplay<S>(c: Client<S>)
    requires c.waiting.ForReplay? && c.coordinator.bootstrapped
    requires c.coordinator.replayStart == Recovery.At(c.waiting.from)
    ensures Finished(c, c.waiting.from, FinishReplay(c))
  {
    var (completion, coordinator) := CompleteReplay(c.coordinator);
    var at := Frontier(coordinator.latestSequence, coordinator.highestObservedSequence);
    var decision := Decide(c.tracker, completion, at, RETRY_POLICY);
    var c' := c.(coordinator := coordinator, waiting := Nothing, tracker := decision.tracker);
    assert !completion.shouldReplay ==> !decision.shouldRetry;
    assert completion.shouldReplay && completion.replayMadeProgress ==> decision.shouldRetry && decision.delayMs == 0;
    Pow2IsPositive(AttemptsAt(c.tracker, at));
    FollowedUp(c', completion.shouldReplay, decision);
    assert FinishReplay(c) == FollowUp(c', completion.shouldReplay, decision);
  }

  lemma Pow2IsPositive(n: nat)
    ensures Pow2(n) > 0
  {
  }

  lemma FollowedUp<S>(c: Client<S>, needed: bool, decision: Decision)
    requires c.waiting == Nothing && c.coordinator.bootstrapped && !c.coordinator.pendingReplay
    requires c.coordinator.inFlight == Idle
    ensures var t := FollowUp(c, needed, decision);
            && t.coordinator.latestSequence == c.coordinator.latestSequence
            && t.coordinator.highestObservedSequence == c.coordinator.highestObservedSequence
            && t.coordinator.bootstrapped && !t.coordinator.pendingReplay && t.buffer == c.buffer
            && t.tracker == c.tracker
            && (if !decision.shouldRetry then
                  t.waiting == Nothing && t.retryTimers == c.retryTimers && t.stalled == needed
                else if decision.delayMs > 0 then t.waiting == Nothing && t.retryTimers == c.retryTimers + 1
                else
                  t.waiting == ForReplay(c.coordinator.latestSequence) && t.retryTimers == c.retryTimers && !t.stalled)
  {
  }

  // The client after a replay's events are applied, and after it is finished.
  ghost predicate AfterReplay<S>(s: System<S>, upTo: nat, c: Client<S>, t: Client<S>)
    requires s.client.waiting.ForReplay?
  {
    var latest := Max(s.client.coordinator.latestSequence, upTo);
    && c.coordinator == s.client.coordinator.(
         latestSequence := latest, highestObservedSequence := Max(s.client.coordinator.highestObservedSequence, latest))
    && c.buffer == s.client.buffer && c.retryTimers == s.client.retryTimers && c.tracker == s.client.tracker
    && Finished(c, s.client.waiting.from, t)
  }

  // However much of the log a replay brings.
  lemma ReplayIsFollowedUp<S>(f: (S, Event) -> S, s0: S, s: System<S>, upTo: nat)
    requires Inv(f, s0, s) && Enabled(s, ReplayArrives(upTo))
    ensures var events := s.log[s.client.waiting.from..upTo];
            AfterReplay(s, upTo, ApplyBatch(f, s.client, events), Next(f, s0, s, ReplayArrives(upTo)).client)
  {
    var c, from := s.client, s.client.waiting.from;
    NewerOfSlice(s.log, c.coordinator.latestSequence, from, upTo);
    ApplySlice(f, s0, s.log, c.coordinator, c.view, s.log[from..upTo], Max(c.coordinator.latestSequence, upTo));
    FinishedReplay(ApplyBatch(f, c, s.log[from..upTo]));
  }

  // The finished replay leaves the resting place where it was.
  lemma FinishedKeepsRest<S>(s: System<S>, limit: nat, c: Client<S>, t: Client<S>)
    requires Sequenced(s) && OneRecovery(s.client) && BufferSane(s) && SingleCopy(s.client)
    requires s.client.waiting.ForReplay? && limit > 0
    requires AfterReplay(s, PageEnd(s.client.waiting.from, |s.log|, limit), c, t)
    requires var s' := s.(client := t); Sequenced(s') && OneRecovery(t) && BufferSane(s') && SingleCopy(t)
    ensures RestingPlace(s.(client := t), limit) == RestingPlace(s, limit)
    ensures Work(t) < Work(s.client) || (Work(t) == Work(s.client) && Gap(s.(client := t)) < Gap(s))
  {
    var from, n := s.client.waiting.from, |s.log|;
    var latest, observed := t.coordinator.latestSequence, s.client.coordinator.highestObservedSequence;
    var s' := s.(client := t);
    BaseBounds(s, limit);
    if latest == n {
      TopIsTop(s', limit);
      FullPageIsTop(s, limit);
    } else if observed <= latest {
      NoneBuffered(s, latest);
      ReachedTargets(t.retryTimers, Base(s, limit), latest, observed, n, limit);
    }
  }

  lemma NoneBuffered<S>(s: System<S>, latest: nat)
    requires BufferSane(s) && s.client.coordinator.highestObservedSequence <= latest
    ensures Newer(latest, s.client.buffer) == []
  {
    NewerMembers(latest, s.client.buffer);
    if Newer(latest, s.client.buffer) != [] {
      HasMember(Newer(latest, s.client.buffer));
    }
  }

  // A replay that gets to the end of the log is the last word.
  lemma FullPageIsTop<S>(s: System<S>, limit: nat)
    requires limit > 0 && Sequenced(s) && OneRecovery(s.client) && s.client.waiting.ForReplay?
    requires Max(s.client.coordinator.latestSequence, PageEnd(s.client.waiting.from, |s.log|, limit)) == |s.log|
    ensures RestingPlace(s, limit) == |s.log|
  {
    AfterTimersBounds(s.client.retryTimers, |s.log|, s.client.coordinator.highestObservedSequence, |s.log|, limit);
  }

  // ---- The other answers ----

  lemma SnapshotKeepsRest<S>(f: (S, Event) -> S, s0: S, s: System<S>, limit: nat)
    requires Inv(f, s0, s) && s.client.waiting.ForSnapshot? && limit > 0
    ensures Enabled(s, Answer(s, limit))
    ensures var t := Next(f, s0, s, Answer(s, limit));
            Inv(f, s0, t) && Work(t.client) < Work(s.client) && RestingPlace(t, limit) == RestingPlace(s, limit)
  {
    var t := Next(f, s0, s, Answer(s, limit));
    StepKeepsInv(f, s0, s, Answer(s, limit));
    TopIsTop(s, limit);
    TopIsTop(t, limit);
  }

  // What an answer must do.
  ghost predicate Answers<S>(f: (S, Event) -> S, s0: S, s: System<S>, limit: nat, t: System<S>)
    requires Inv(f, s0, s) && limit > 0
  {
    && Enabled(s, Answer(s, limit)) && t == Next(f, s0, s, Answer(s, limit))
    && Inv(f, s0, t) && t.log == s.log && RestingPlace(t, limit) == RestingPlace(s, limit)
    && (Started(t.client) <==> Started(s.client))
    && (Work(t.client) < Work(s.client) || (Work(t.client) == Work(s.client) && Gap(t) < Gap(s)))
  }

  lemma FlushKeepsRest<S>(f: (S, Event) -> S, s0: S, s: System<S>, limit: nat)
    requires Inv(f, s0, s) && s.client.waiting == Nothing && limit > 0
    requires s.client.buffer != []
    ensures Answers(f, s0, s, limit, Next(f, s0, s, FlushTick))
  {
    FlushKeeps(f, s0, s);
    assert Buffered(Next(f, s0, s, FlushTick).client) == [];
  }

  lemma TimerAnswers<S>(f: (S, Event) -> S, s0: S, s: System<S>, limit: nat)
    requires Inv(f, s0, s) && s.client.waiting == Nothing && limit > 0
    requires s.client.buffer == [] && s.client.retryTimers > 0
    ensures Answers(f, s0, s, limit, Next(f, s0, s, RetryTimerFires))
  {
    StepKeepsInv(f, s0, s, RetryTimerFires);
    TimerKeepsRest(s, Next(f, s0, s, RetryTimerFires), limit);
  }

  lemma TimerKeepsRest<S>(s: System<S>, t: System<S>, limit: nat)
    requires limit > 0 && Sequenced(s) && OneRecovery(s.client) && Sequenced(t)
    requires s.client.waiting == Nothing && s.client.buffer == [] && s.client.retryTimers > 0
    requires t == s.(client := ScheduleReplay(s.client.(retryTimers := s.client.retryTimers - 1), SequenceGap))
    ensures RestingPlace(t, limit) == RestingPlace(s, limit)
  {
    var latest, n := s.client.coordinator.latestSequence, |s.log|;
    assert Buffered(s.client) == [];
    assert Max(latest, PageEnd(latest, n, limit)) == PageEnd(latest, n, limit);
    assert Base(s, limit) == latest;
    if s.client.coordinator.bootstrapped {
      assert Base(t, limit) == Reach(PageEnd(latest, n, limit), s.client.coordinator.highestObservedSequence, n, limit);
    }
  }

  lemma ReplayKeepsRest<S>(f: (S, Event) -> S, s0: S, s: System<S>, limit: nat)
    requires Inv(f, s0, s) && s.client.waiting.ForReplay? && limit > 0
    ensures Enabled(s, Answer(s, limit)) && Answers(f, s0, s, limit, Next(f, s0, s, Answer(s, limit)))
  {
    ReplayIsFollowedUp(f, s0, s, PageEnd(s.client.waiting.from, |s.log|, limit));
    StepKeepsInv(f, s0, s, Answer(s, limit));
    var from := s.client.waiting.from;
    var t := Next(f, s0, s, Answer(s, limit));
    FinishedKeepsRest(s, limit, ApplyBatch(f, s.client, s.log[from..PageEnd(from, |s.log|, limit)]), t.client);
    assert t == s.(client := t.client);
  }

  // Every answer keeps the resting place, and they come to an end.
  lemma AnswerKeepsRest<S>(f: (S, Event) -> S, s0: S, s: System<S>, limit: nat)
    requires Inv(f, s0, s) && !AtRest(s.client) && limit > 0
    ensures Enabled(s, Answer(s, limit)) && Answers(f, s0, s, limit, Next(f, s0, s, Answer(s, limit)))
  {
    match s.client.waiting
    case ForSnapshot(_) => SnapshotKeepsRest(f, s0, s, limit);
    case ForReplay(_) => ReplayKeepsRest(f, s0, s, limit);
    case Nothing =>
      if s.client.buffer != [] {
        FlushKeepsRest(f, s0, s, limit);
      } else {
        TimerAnswers(f, s0, s, limit);
      }
  }

  ghost function Answered<S>(f: (S, Event) -> S, s0: S, s: System<S>, limit: nat): System<S>
    requires Inv(f, s0, s) && limit > 0
    decreases Work(s.client), Gap(s)
  {
    if AtRest(s.client) then s
    else
      AnswerKeepsRest(f, s0, s, limit);
      Answered(f, s0, Next(f, s0, s, Answer(s, limit)), limit)
  }

  // However it was interrupted, a client whose requests are answered comes to rest, exactly at its resting
  // place, with the log up to there applied. It then has a snapshot exactly if it had one or waited for one.
  lemma {:induction false} AnsweredClientComesToRest<S>(f: (S, Event) -> S, s0: S, s: System<S>, limit: nat)
    requires Inv(f, s0, s) && limit > 0
    ensures var t := Answered(f, s0, s, limit);
            && Inv(f, s0, t) && AtRest(t.client) && t.log == s.log
            && (t.client.coordinator.bootstrapped <==> Started(s.client))
            && t.client.coordinator.latestSequence == RestingPlace(s, limit) <= |s.log|
            && t.client.view == Fold(f, s0, s.log[..RestingPlace(s, limit)])
    decreases Work(s.client), Gap(s)
  {
    if AtRest(s.client) {
      assert Buffered(s.client) == [];
    } else {
      AnswerKeepsRest(f, s0, s, limit);
      AnsweredClientComesToRest(f, s0, Next(f, s0, s, Answer(s, limit)), limit);
    }
  }

  // ---- Opening a stream again ----

  // The stream is opened again at once, after the hook if there is to be one.
  ghost function Reopened<S>(f: (S, Event) -> S, s0: S, p: Pipe<S>, n: nat): Pipe<S>
    requires !p.open && n <= |p.system.log|
  {
    if p.received then PipeNext(f, s0, PipeNext(f, s0, p, Hook), Open(n)) else PipeNext(f, s0, p, Open(n))
  }

  // Where the client will be once the hook has run: a running replay is followed by another, a client with
  // none starts one behind what it has buffered.
  ghost function HookedPlace<S>(s: System<S>, limit: nat): nat
    requires limit > 0 && Sequenced(s)
  {
    var c, n := s.client, |s.log|;
    var flushed := c.coordinator.latestSequence + |Buffered(c)|;
    var target := c.coordinator.highestObservedSequence;
    if c.waiting.ForSnapshot? then n
    else if !c.coordinator.bootstrapped then flushed
    else
      var at := if c.waiting.ForReplay? then Max(flushed, PageEnd(c.waiting.from, n, limit)) else flushed;
      AfterTimers(c.retryTimers, Reach(PageEnd(at, n, limit), target, n, limit), target, n, limit)
  }

  lemma HookMovesRest<S>(f: (S, Event) -> S, s0: S, s: System<S>, limit: nat)
    requires Inv(f, s0, s) && limit > 0
    ensures Inv(f, s0, Next(f, s0, s, Resubscribe))
    ensures RestingPlace(Next(f, s0, s, Resubscribe), limit) == HookedPlace(s, limit)
  {
    var t := Next(f, s0, s, Resubscribe);
    StepKeepsInv(f, s0, s, Resubscribe);
    FlushKeeps(f, s0, s);
    match s.client.waiting
    case ForSnapshot(_) => TopIsTop(t, limit);
    case ForReplay(_) =>
    case Nothing =>
  }

  // Liveness, exactly: when a stream is opened again and requests are answered, but no event comes, the
  // client rests where the hook takes it if it had received an event before, and otherwise where it would
  // have rested anyway.
  lemma ReopenedClientRestsAt<S>(f: (S, Event) -> S, s0: S, p: Pipe<S>, n: nat, limit: nat)
    requires Sound(f, s0, p) && !p.open && n <= |p.system.log| && limit > 0
    ensures Sound(f, s0, Reopened(f, s0, p, n))
    ensures var t := Answered(f, s0, Reopened(f, s0, p, n).system, limit).client;
            var place := if p.received then HookedPlace(p.system, limit) else RestingPlace(p.system, limit);
            && AtRest(t) && (t.coordinator.bootstrapped <==> Started(p.system.client))
            && t.coordinator.latestSequence == place <= |p.system.log|
            && t.view == Fold(f, s0, p.system.log[..place])
  {
    ReopenedRests(f, s0, p, n, limit);
    AnsweredClientComesToRest(f, s0, Reopened(f, s0, p, n).system, limit);
  }

  lemma ReopenedRests<S>(f: (S, Event) -> S, s0: S, p: Pipe<S>, n: nat, limit: nat)
    requires Sound(f, s0, p) && !p.open && n <= |p.system.log| && limit > 0
    ensures var q := Reopened(f, s0, p, n);
            && Sound(f, s0, q) && q.system.log == p.system.log
            && (Started(q.system.client) <==> Started(p.system.client))
            && RestingPlace(q.system, limit) ==
                 if p.received then HookedPlace(p.system, limit) else RestingPlace(p.system, limit)
  {
    if p.received {
      PipeStepIsSound(f, s0, p, Hook);
      HookMovesRest(f, s0, p.system, limit);
      StepKeepsStarted(f, s0, p.system, Resubscribe);
      PipeStepIsSound(f, s0, PipeNext(f, s0, p, Hook), Open(n));
    } else {
      PipeStepIsSound(f, s0, p, Open(n));
    }
  }

  // Where an answered client rests after the stream is opened again.
  ghost function RestAfterReopening<S>(f: (S, Event) -> S, s0: S, p: Pipe<S>, n: nat, limit: nat): nat
    requires Sound(f, s0, p) && !p.open && n <= |p.system.log| && limit > 0
  {
    ReopenedClientRestsAt(f, s0, p, n, limit);
    Answered(f, s0, Reopened(f, s0, p, n).system, limit).client.coordinator.latestSequence
  }

  // From rest at `at`, the end of the least number of whole reads, at least one, that reaches the target.
  ghost predicate ReadsUpTo(place: nat, rounds: nat, at: nat, target: nat, n: nat, limit: nat) {
    && rounds >= 1 && place == Min(n, at + rounds * limit)
    && (place == n <==> n - at <= rounds * limit)
    && (target == at ==> rounds == 1)
    && forall j: nat :: 1 <= j < rounds ==> Min(n, at + j * limit) < target
  }

  lemma QuietClientRestsAt<S>(f: (S, Event) -> S, s0: S, p: Pipe<S>, n: nat, limit: nat)
    requires Sound(f, s0, p) && !p.open && n <= |p.system.log| && limit > 0
    requires p.received && Quiet(p.system.client)
    ensures var c, end := p.system.client.coordinator, |p.system.log|;
            RestAfterReopening(f, s0, p, n, limit)
            == Reach(PageEnd(c.latestSequence, end, limit), c.highestObservedSequence, end, limit)
  {
    ReopenedClientRestsAt(f, s0, p, n, limit);
    QuietHookedPlace(p.system, limit);
  }

  lemma QuietClientCatchesUp<S>(f: (S, Event) -> S, s0: S, p: Pipe<S>, n: nat, limit: nat)
    requires Sound(f, s0, p) && !p.open && n <= |p.system.log| && limit > 0
    requires p.received && Quiet(p.system.client)
    ensures var c, end := p.system.client.coordinator, |p.system.log|;
            var rounds := 1 + Rounds(PageEnd(c.latestSequence, end, limit), c.highestObservedSequence, end, limit);
            ReadsUpTo(
              RestAfterReopening(f, s0, p, n, limit), rounds, c.latestSequence, c.highestObservedSequence, end, limit)
  {
    var c, end := p.system.client.coordinator, |p.system.log|;
    QuietClientRestsAt(f, s0, p, n, limit);
    AtLeastOneRead(c.latestSequence, c.highestObservedSequence, end, limit);
  }

  lemma QuietHookedPlace<S>(s: System<S>, limit: nat)
    requires limit > 0 && Sequenced(s) && Quiet(s.client)
    ensures var c, n := s.client.coordinator, |s.log|;
            HookedPlace(s, limit) == Reach(PageEnd(c.latestSequence, n, limit), c.highestObservedSequence, n, limit)
  {
    assert Buffered(s.client) == [];
  }

  lemma AtLeastOneRead(at: nat, target: nat, n: nat, limit: nat)
    requires limit > 0 && at <= target <= n
    ensures var next := PageEnd(at, n, limit);
            ReadsUpTo(Reach(next, target, n, limit), 1 + Rounds(next, target, n, limit), at, target, n, limit)
  {
    var next := PageEnd(at, n, limit);
    var k := 1 + Rounds(next, target, n, limit);
    ReachIsRounds(next, target, n, limit);
    assert k * limit == (k - 1) * limit + limit && (k - 1) * limit >= 0;
    forall j: nat | 1 <= j < k ensures Min(n, at + j * limit) < target {
      assert j * limit == (j - 1) * limit + limit;
      assert Min(n, next + (j - 1) * limit) < target;
    }
  }

  // A client that is up to date with all it knows catches up by itself exactly if one read covers what it
  // missed; otherwise it rests one read further on.
  lemma SettledClientCatchesUpIff<S>(f: (S, Event) -> S, s0: S, p: Pipe<S>, n: nat, limit: nat)
    requires Sound(f, s0, p) && !p.open && n <= |p.system.log| && limit > 0
    requires p.received && Quiet(p.system.client)
    requires p.system.client.coordinator.highestObservedSequence == p.system.client.coordinator.latestSequence
    ensures var place := RestAfterReopening(f, s0, p, n, limit);
            var latest, end := p.system.client.coordinator.latestSequence, |p.system.log|;
            place == Min(end, latest + limit) && (place == end <==> end - latest <= limit)
  {
    QuietClientRestsAt(f, s0, p, n, limit);
  }

  // ---- Events that are delivered ----

  // In whatever state a client is that has a snapshot or waits for one, once it receives an event it will
  // come to hold the log at least up to that event, however many reads that takes. Any other ignores it.
  lemma DeliveryReaches<S>(f: (S, Event) -> S, s0: S, s: System<S>, k: nat, limit: nat)
    requires Inv(f, s0, s) && BelowCursor(s) && Enabled(s, Deliver(k)) && k > s.cursor && limit > 0
    ensures Inv(f, s0, Next(f, s0, s, Deliver(k)))
    ensures Started(s.client) ==> k <= RestingPlace(Next(f, s0, s, Deliver(k)), limit) <= |s.log|
    ensures !Started(s.client) ==> RestingPlace(Next(f, s0, s, Deliver(k)), limit) == RestingPlace(s, limit)
    ensures Started(Next(f, s0, s, Deliver(k)).client) <==> Started(s.client)
  {
    var t := Next(f, s0, s, Deliver(k));
    InOrderDoesNotRepeat(f, s0, s, Deliver(k));
    StepKeepsInv(f, s0, s, Deliver(k));
    StepKeepsStarted(f, s0, s, Deliver(k));
    if Started(s.client) {
      DeliveredIsBuffered(f, s0, s, k);
      CoveredIsReached(t, k, limit);
    } else {
      UnstartedIgnores(f, s0, s, k, limit);
    }
  }

  lemma CoveredIsReached<S>(t: System<S>, k: nat, limit: nat)
    requires limit > 0 && Sequenced(t) && OneRecovery(t.client) && BufferSane(t) && SingleCopy(t.client)
    requires k <= t.client.coordinator.highestObservedSequence && Started(t.client)
    requires t.client.waiting == Nothing ==> k <= t.client.coordinator.latestSequence + |Buffered(t.client)|
    ensures k <= RestingPlace(t, limit) <= |t.log|
  {
    BaseBounds(t, limit);
    BaseCoversObserved(t, limit);
    AfterTimersBounds(
      t.client.retryTimers, Base(t, limit), t.client.coordinator.highestObservedSequence, |t.log|, limit);
  }

  lemma UnstartedIgnores<S>(f: (S, Event) -> S, s0: S, s: System<S>, k: nat, limit: nat)
    requires Inv(f, s0, s) && Enabled(s, Deliver(k)) && !Started(s.client) && limit > 0
    requires Sequenced(Next(f, s0, s, Deliver(k)))
    ensures RestingPlace(Next(f, s0, s, Deliver(k)), limit) == RestingPlace(s, limit)
  {
  }

  // After a delivery the event is covered by a recovery, by the position or by the buffer.
  lemma DeliveredIsBuffered<S>(f: (S, Event) -> S, s0: S, s: System<S>, k: nat)
    requires Inv(f, s0, s) && Enabled(s, Deliver(k))
    ensures var c := Next(f, s0, s, Deliver(k)).client;
            && k <= c.coordinator.highestObservedSequence
            && (c.waiting == Nothing && c.coordinator.bootstrapped ==>
                  k <= c.coordinator.latestSequence + |Buffered(c)|)
  {
    match Classify(s.client.coordinator, k).0
    case Apply => NewerSnoc(s.client.coordinator.latestSequence, s.client.buffer, s.log[k - 1]);
    case Recover => MarkNeverGoesBack(Classify(s.client.coordinator, k).1, s.client.buffer);
    case Ignore =>
    case Defer =>
  }

  // With a recovery running or to be run, everything observed is reached.
  lemma BaseCoversObserved<S>(s: System<S>, limit: nat)
    requires limit > 0 && Sequenced(s) && OneRecovery(s.client)
    ensures s.client.waiting != Nothing ==> s.client.coordinator.highestObservedSequence <= Base(s, limit)
  {
    var c, n := s.client, |s.log|;
    if c.waiting.ForReplay? {
      var first := Max(c.coordinator.latestSequence, PageEnd(c.waiting.from, n, limit));
      var start := if c.coordinator.pendingReplay then PageEnd(first, n, limit) else first;
      ReachBounds(start, c.coordinator.highestObservedSequence, n, limit);
    }
  }

  // Where the next event takes a client at rest: nowhere if it has it, to it if it is the one missing, and
  // as far as reads go that reach it if it leaves a gap.
  lemma NextDeliveryRestsAt<S>(f: (S, Event) -> S, s0: S, p: Pipe<S>, limit: nat)
    requires Sound(f, s0, p) && Quiet(p.system.client) && PipeEnabled(p, DeliverNext) && limit > 0
    ensures Sound(f, s0, PipeNext(f, s0, p, DeliverNext))
    ensures var c, k, end := p.system.client.coordinator, p.outbox[0].sequence, |p.system.log|;
            var latest, target := c.latestSequence, Max(c.highestObservedSequence, p.outbox[0].sequence);
            RestingPlace(PipeNext(f, s0, p, DeliverNext).system, limit)
            == if k <= latest then latest
               else if k == latest + 1 then k
               else Reach(PageEnd(latest, end, limit), target, end, limit)
  {
    PipeStepIsSound(f, s0, p, DeliverNext);
    var c, e := p.system.client, p.system.log[p.outbox[0].sequence - 1];
    NewerSnoc(c.coordinator.latestSequence, [], e);
    assert [] + [e] == [e];
    assert Newer(c.coordinator.latestSequence, []) == [];
  }

  // ---- A whole stream ----

  ghost function DeliverAll<S>(f: (S, Event) -> S, s0: S, p: Pipe<S>): Pipe<S>
    requires Sound(f, s0, p) && p.open
    decreases |p.outbox|
  {
    if p.outbox == [] then p
    else
      assert InLog(p.outbox[0], p.system.log);
      PipeStepIsSound(f, s0, p, DeliverNext);
      DeliverAll(f, s0, PipeNext(f, s0, p, DeliverNext))
  }

  lemma {:induction false} DeliverAllRestsAt<S>(f: (S, Event) -> S, s0: S, p: Pipe<S>, limit: nat)
    requires Sound(f, s0, p) && p.open && limit > 0
    requires p.sequencer.nextSequence == |p.system.log| + 1
    ensures var q := DeliverAll(f, s0, p);
            && Sound(f, s0, q) && q.system.log == p.system.log
            && (Started(q.system.client) <==> Started(p.system.client))
            && RestingPlace(q.system, limit) ==
                 if p.outbox == [] || !Started(p.system.client) then RestingPlace(p.system, limit) else |p.system.log|
    decreases |p.outbox|
  {
    if p.outbox == [] {
    } else {
      assert InLog(p.outbox[0], p.system.log);
      PipeStepIsSound(f, s0, p, DeliverNext);
      DeliverAllRestsAt(f, s0, PipeNext(f, s0, p, DeliverNext), limit);
      DeliveryReaches(f, s0, p.system, p.outbox[0].sequence, limit);
    }
  }

  // A stream opened at n that is fed everything after n, in any order, and delivers all of it: an answered
  // client then holds the whole log if and only if there was anything to deliver and it had a snapshot or
  // waited for one, or it would have come to hold the whole log anyway. For a client at rest that is: if
  // n < |log| or it was up to date.
  lemma FullStreamCatchesUpIff<S>(
    f: (S, Event) -> S, s0: S, p: Pipe<S>, n: nat, arrivals: seq<Event>, limit: nat)
    requires Sound(f, s0, p) && p.open && p.sequencer == Start(n) && p.outbox == [] && p.system.cursor == 0
    requires n <= |p.system.log| && FromLog(arrivals, p.system.log) && limit > 0
    requires forall k :: n < k <= |p.system.log| ==> k in Sequences(arrivals)
    ensures var fed := p.(sequencer := Feed(Start(n), arrivals).1, outbox := Feed(Start(n), arrivals).0);
            && Sound(f, s0, fed)
            && var q, end := DeliverAll(f, s0, fed), |p.system.log|;
               && Sound(f, s0, q)
               && (Answered(f, s0, q.system, limit).client.coordinator.latestSequence == end
                   <==> (n < end && Started(p.system.client)) || RestingPlace(p.system, limit) == end)
               && (Quiet(p.system.client) ==>
                     RestingPlace(p.system, limit) == p.system.client.coordinator.latestSequence)
  {
    var log := p.system.log;
    var fed := p.(sequencer := Feed(Start(n), arrivals).1, outbox := Feed(Start(n), arrivals).0);
    FedIsSound(log, n, arrivals);
    DeliverAllRestsAt(f, s0, fed, limit);
    AnsweredClientComesToRest(f, s0, DeliverAll(f, s0, fed).system, limit);
    if Quiet(p.system.client) {
      assert Buffered(p.system.client) == [];
    }
  }

  lemma FedIsSound(log: seq<Event>, n: nat, arrivals: seq<Event>)
    requires IsLog(log) && n <= |log| && FromLog(arrivals, log)
    requires forall k :: n < k <= |log| ==> k in Sequences(arrivals)
    ensures var out, s := Feed(Start(n), arrivals).0, Feed(Start(n), arrivals).1;
            && out == log[n..] && s.nextSequence == |log| + 1
            && Holding(log, s) && RunsUpTo(log, out, s.nextSequence)
  {
    SubscriptionReceivesLog(log, n, arrivals);
    FeedDelivers(n, arrivals);
    var (out, s) := Feed(Start(n), arrivals);
    assert |out| == |log| - n;
    NothingBeyond(log, arrivals);
    assert s.pending.Keys == {};
  }

  lemma {:induction false} NothingBeyond(log: seq<Event>, arrivals: seq<Event>)
    requires FromLog(arrivals, log)
    ensures forall k :: k in Sequences(arrivals) ==> k <= |log|
    decreases |arrivals|
  {
    if arrivals == [] {
    } else {
      var n := |arrivals| - 1;
      assert arrivals[n] in arrivals;
      NothingBeyond(log, arrivals[..n]);
    }
  }

  // ---- Three ways to stay behind ----

  // A client that was away while more events were added than one read returns is brought one read
  // further and no more, until another event comes.
  lemma LongAbsenceIsNotMadeUp<S>(f: (S, Event) -> S, s0: S, p: Pipe<S>)
    requires Sound(f, s0, p) && !p.open && p.received && Quiet(p.system.client)
    requires p.system.client.coordinator.highestObservedSequence == p.system.client.coordinator.latestSequence
    requires |p.system.log| == p.system.client.coordinator.latestSequence + READ_LIMIT + 1
    ensures RestAfterReopening(f, s0, p, |p.system.log|, READ_LIMIT) == |p.system.log| - 1
    ensures Reopened(f, s0, p, |p.system.log|).sequencer == Start(|p.system.log|)
  {
    SettledClientCatchesUpIff(f, s0, p, |p.system.log|, READ_LIMIT);
  }

  // A client that has received nothing on its first stream, which then ends, knows of an event added
  // meanwhile neither from a hook nor from the new stream.
  lemma BootstrappedClientStaysBehind<S>(f: (S, Event) -> S, s0: S, e1: Event, e2: Event, limit: nat)
    requires e1.sequence == 1 && e2.sequence == 2 && limit > 0
    ensures var pipes := QuietStart(f, s0, e1, e2);
            && IsPipeRun(f, s0, pipes, QuietActions(e2))
            && pipes[6].open && pipes[6].sequencer == Start(2)
            && Inv(f, s0, pipes[6].system)
            && Answered(f, s0, pipes[6].system, limit).client.coordinator.latestSequence == 1 < |pipes[6].system.log|
  {
    var pipes := QuietStart(f, s0, e1, e2);
    assert IsPipeRun(f, s0, pipes, QuietActions(e2));
    PipedRunsReplicate(f, s0, pipes, QuietActions(e2));
    assert Sound(f, s0, pipes[6]);
  }

  function QuietActions(e2: Event): seq<PipeAction> {
    [Open(1), Other(EnsureBootstrapped), Other(SnapshotArrives(1)), Close, Other(Append(e2)), Open(2)]
  }

  ghost function QuietStart<S>(f: (S, Event) -> S, s0: S, e1: Event, e2: Event): seq<Pipe<S>>
    requires e1.sequence == 1 && e2.sequence == 2
  {
    var p0 := PipeInitial(s0, [e1]);
    var p1 := PipeNext(f, s0, p0, Open(1));
    var p2 := PipeNext(f, s0, p1, Other(EnsureBootstrapped));
    var p3 := PipeNext(f, s0, p2, Other(SnapshotArrives(1)));
    var p4 := PipeNext(f, s0, p3, Close);
    var p5 := PipeNext(f, s0, p4, Other(Append(e2)));
    var p6 := PipeNext(f, s0, p5, Open(2));
    [p0, p1, p2, p3, p4, p5, p6]
  }

  // An event added after the hook's replay was answered and before the server starts the new stream is
  // missed in the same way, even by a client that had everything until then.
  lemma EventBetweenHookAndOpenIsMissed<S>(f: (S, Event) -> S, s0: S, p: Pipe<S>, e: Event, limit: nat)
    requires Sound(f, s0, p) && p.hooked && Quiet(p.system.client) && limit > 0
    requires e.sequence == |p.system.log| + 1
    ensures var q := PipeNext(f, s0, PipeNext(f, s0, p, Other(Append(e))), Open(e.sequence));
            && Sound(f, s0, q) && q.sequencer == Start(|q.system.log|)
            && Answered(f, s0, q.system, limit).client.coordinator.latestSequence < |q.system.log|
  {
    PipeStepIsSound(f, s0, p, Other(Append(e)));
    var appended := PipeNext(f, s0, p, Other(Append(e)));
    PipeStepIsSound(f, s0, appended, Open(e.sequence));
  }

  // ---- A connection ----

  // In every run of a connection that asked for a snapshot and lost none since, the client is served: with
  // its requests answered it comes to rest with the log up to its resting place.
  lemma ConnectedClientIsServed<S>(
    f: (S, Event) -> S, s0: S, pipes: seq<Pipe<S>>, actions: seq<PipeAction>, limit: nat)
    requires IsPipeRun(f, s0, pipes, actions) && AskedLast(SystemActions(actions)) && limit > 0
    ensures var s := pipes[|actions|].system;
            && Inv(f, s0, s) && var t := Answered(f, s0, s, limit).client;
               Quiet(t) && RestingPlace(s, limit) <= |s.log|
               && t.view == Fold(f, s0, s.log[..RestingPlace(s, limit)])
  {
    PipedRunsReplicate(f, s0, pipes, actions);
    PipedClientIsStartedIff(f, s0, pipes, actions);
    assert Sound(f, s0, pipes[|actions|]);
    AnsweredClientComesToRest(f, s0, pipes[|actions|].system, limit);
  }
}
