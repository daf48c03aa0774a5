// The whole replication loop: the server's log, an unreliable event channel, and the client's
// connection driver calling the recovery coordinator.
module Replication {
  import opened Events
  import opened Recovery
  import opened ReplayRetry

  // What the driver is waiting for: a snapshot no older than `floor`, the highest sequence observed
  // when it was requested, or the replay of everything after `from`.
  datatype Waiting = Nothing | ForSnapshot(floor: nat) | ForReplay(from: nat)

  datatype Client<S> = Client(
    coordinator: State,
    buffer: seq<Event>,   // events classified "apply" and not yet flushed
    view: S,              // the store that snapshots and event batches are applied to
    waiting: Waiting,
    retryTimers: nat,     // delayed replays that have not started yet
    tracker: Tracker,
    stalled: bool)        // the last finished replay gave up although replay was needed

  datatype System<S> = System(
    log: seq<Event>,
    client: Client<S>,
    cursor: nat)          // the last sequence delivered on the current subscription

  datatype Action =
    | Append(event: Event)
    | Deliver(sequence: nat)
    | FlushTick
    | Resubscribe
    | RetryTimerFires
    | EnsureBootstrapped
    | SnapshotArrives(sequence: nat)
    | SnapshotFails
    | ReplayArrives(upTo: nat)
    | ReplayFails

  const RETRY_POLICY := Policy(100, 3)

  // ---- The driver ----

  ghost function ApplyBatch<S>(f: (S, Event) -> S, c: Client<S>, events: seq<Event>): Client<S> {
    var (next, coordinator) := MarkBatch(c.coordinator, events);
    c.(coordinator := coordinator, view := Fold(f, c.view, next))
  }

  ghost function FlushPending<S>(f: (S, Event) -> S, c: Client<S>): Client<S> {
    ApplyBatch(f, c, c.buffer).(buffer := [])
  }

  function ScheduleReplay<S>(c: Client<S>, reason: Reason): Client<S> {
    var (started, coordinator) := BeginReplay(c.coordinator, reason);
    if started then c.(coordinator := coordinator, waiting := ForReplay(coordinator.latestSequence), stalled := false)
    else c.(coordinator := coordinator)
  }

  function EnsureSnapshot<S>(c: Client<S>, reason: Reason): Client<S> {
    if c.coordinator.bootstrapped || c.waiting.ForSnapshot? then c
    else
      var (started, coordinator) := BeginSnapshot(c.coordinator, reason);
      if started then c.(coordinator := coordinator, waiting := ForSnapshot(coordinator.highestObservedSequence))
      else c.(coordinator := coordinator)
  }

  function Observed<S>(c: Client<S>, k: nat): Client<S> {
    c.(coordinator := Classify(c.coordinator, k).1)
  }

  ghost function OnDomainEvent<S>(f: (S, Event) -> S, c: Client<S>, e: Event): Client<S> {
    var c' := Observed(c, e.sequence);
    match Classify(c.coordinator, e.sequence).0
    case Apply => c'.(buffer := c.buffer + [e])
    case Recover => ScheduleReplay(FlushPending(f, c'), SequenceGap)
    case Ignore => c'
    case Defer => c'
  }

  ghost function OnReplay<S>(f: (S, Event) -> S, c: Client<S>, events: seq<Event>): Client<S> {
    FinishReplay(ApplyBatch(f, c, events))
  }

  function FinishReplay<S>(c: Client<S>): Client<S> {
    var (completion, coordinator) := CompleteReplay(c.coordinator);
    var at := Frontier(coordinator.latestSequence, coordinator.highestObservedSequence);
    var decision := Decide(c.tracker, completion, at, RETRY_POLICY);
    var c' := c.(coordinator := coordinator, waiting := Nothing, tracker := decision.tracker);
    FollowUp(c', completion.shouldReplay, decision)
  }

  function FollowUp<S>(c: Client<S>, needed: bool, decision: Decision): Client<S> {
    if !decision.shouldRetry then c.(stalled := needed)
    else if decision.delayMs > 0 then c.(retryTimers := c.retryTimers + 1)
    else ScheduleReplay(c, SequenceGap)
  }

  ghost function OnSnapshot<S>(c: Client<S>, snapshot: S, sequence: nat): Client<S> {
    var (shouldReplay, coordinator) := CompleteSnapshot(c.coordinator, sequence);
    var c' := c.(coordinator := coordinator, view := snapshot, waiting := Nothing);
    if shouldReplay then ScheduleReplay(c', SequenceGap) else c'
  }

  // ---- The system ----

  // A client that has just been created, at a server whose log may have any length.
  ghost function Initial<S>(s0: S, log: seq<Event>): System<S> {
    System(log, Client(INITIAL, [], s0, Nothing, 0, NoTracker, false), 0)
  }

  // Which actions can happen. The channel may lose, repeat and reorder deliveries at will. A server
  // answers with what its log holds at that moment: a snapshot is at least as new as anything the
  // server had delivered before the request, and a replay is a stretch of the log.
  ghost predicate Enabled<S>(s: System<S>, a: Action) {
    match a
    case Append(e) => e.sequence == |s.log| + 1
    case Deliver(k) => 1 <= k <= |s.log|
    case RetryTimerFires => s.client.retryTimers > 0
    case SnapshotArrives(n) => s.client.waiting.ForSnapshot? && s.client.waiting.floor <= n <= |s.log|
    case SnapshotFails => s.client.waiting.ForSnapshot?
    case ReplayArrives(m) => s.client.waiting.ForReplay? && s.client.waiting.from <= m <= |s.log|
    case ReplayFails => s.client.waiting.ForReplay?
    case _ => true
  }

  ghost function Next<S>(f: (S, Event) -> S, s0: S, s: System<S>, a: Action): System<S>
    requires Enabled(s, a)
  {
    var c := s.client;
    match a
    case Append(e) => s.(log := s.log + [e])
    case Deliver(k) => s.(client := OnDomainEvent(f, c, s.log[k - 1]), cursor := k)
    case FlushTick => s.(client := FlushPending(f, c))
    case Resubscribe => s.(client := ScheduleReplay(FlushPending(f, c), Resubscribed), cursor := 0)
    case RetryTimerFires => s.(client := ScheduleReplay(c.(retryTimers := c.retryTimers - 1), SequenceGap))
    case EnsureBootstrapped => s.(client := EnsureSnapshot(c, Bootstrap))
    case SnapshotArrives(n) => s.(client := OnSnapshot(c, Fold(f, s0, s.log[..n]), n))
    case SnapshotFails => s.(client := c.(coordinator := FailSnapshot(c.coordinator), waiting := Nothing))
    case ReplayArrives(m) => s.(client := OnReplay(f, c, s.log[c.waiting.from..m]))
    case ReplayFails =>
      var failed := c.(coordinator := FailReplay(c.coordinator), waiting := Nothing, tracker := NoTracker);
      s.(client := EnsureSnapshot(failed, ReplayFailed))
  }

  // ---- The invariant ----

  // The client's store is the fold of the log up to its latest sequence.
  ghost predicate Replicated<S>(f: (S, Event) -> S, s0: S, s: System<S>) {
    && s.client.coordinator.latestSequence <= |s.log|
    && s.client.view == Fold(f, s0, s.log[..s.client.coordinator.latestSequence])
  }

  ghost predicate Sequenced<S>(s: System<S>) {
    && IsLog(s.log)
    && s.client.coordinator.latestSequence <= s.client.coordinator.highestObservedSequence <= |s.log|
  }

  // The driver waits for exactly the recovery that the coordinator has in flight, and a snapshot is
  // only awaited while not bootstrapped.
  ghost predicate OneRecovery<S>(c: Client<S>) {
    match c.waiting
    case Nothing => c.coordinator.inFlight.Idle? && c.coordinator.replayStart.Unset?
    case ForSnapshot(floor) =>
      && c.coordinator.inFlight.Snapshot? && !c.coordinator.bootstrapped && c.coordinator.replayStart.Unset?
      && c.coordinator.latestSequence <= floor <= c.coordinator.highestObservedSequence
      && (forall e :: e in c.buffer ==> e.sequence <= floor)
    case ForReplay(from) =>
      && c.coordinator.inFlight.Replay? && c.coordinator.bootstrapped
      && c.coordinator.replayStart == At(from) && from <= c.coordinator.latestSequence
  }

  // Everything buffered is a log entry that was observed, and the next one to apply or older.
  ghost predicate BufferSane<S>(s: System<S>) {
    forall e :: e in s.client.buffer ==>
      && InLog(e, s.log)
      && e.sequence <= s.client.coordinator.latestSequence + 1
      && e.sequence <= s.client.coordinator.highestObservedSequence
  }

  function Buffered<S>(c: Client<S>): seq<Event> {
    Newer(c.coordinator.latestSequence, c.buffer)
  }

  // No observed event is forgotten: if something beyond what is applied or buffered was observed,
  // a recovery is running or due, unless the driver has visibly given up.
  ghost predicate NothingForgotten<S>(c: Client<S>) {
    c.coordinator.highestObservedSequence > c.coordinator.latestSequence + |Buffered(c)| ==>
      c.waiting != Nothing || !c.coordinator.bootstrapped || c.retryTimers > 0 || c.stalled
  }

  // The next event is buffered at most once: the one thing the coordinator does not check itself.
  ghost predicate SingleCopy<S>(c: Client<S>) {
    |Buffered(c)| <= 1
  }

  ghost predicate Steady<S>(f: (S, Event) -> S, s0: S, s: System<S>) {
    Sequenced(s) && Replicated(f, s0, s) && OneRecovery(s.client) && BufferSane(s) && SingleCopy(s.client)
  }

  ghost predicate Inv<S>(f: (S, Event) -> S, s0: S, s: System<S>) {
    Steady(f, s0, s) && NothingForgotten(s.client)
  }

  lemma InitialInv<S>(f: (S, Event) -> S, s0: S, log: seq<Event>)
    requires IsLog(log)
    ensures Inv(f, s0, Initial(s0, log))
  {
  }

  // ---- Effect of the driver's building blocks ----

  // Applying a slice of the log that starts at or before the client's position moves it along.
  lemma ApplySlice<S>(f: (S, Event) -> S, s0: S, log: seq<Event>, c: State, view: S, batch: seq<Event>, to: nat)
    requires IsLog(log) && c.latestSequence <= to <= |log| && c.latestSequence <= c.highestObservedSequence <= |log|
    requires view == Fold(f, s0, log[..c.latestSequence])
    requires Newer(c.latestSequence, batch) == log[c.latestSequence..to]
    ensures var next, c' := MarkBatch(c, batch).0, MarkBatch(c, batch).1;
            && next == log[c.latestSequence..to]
            && c' == c.(latestSequence := to, highestObservedSequence := Max(c.highestObservedSequence, to))
            && Fold(f, view, next) == Fold(f, s0, log[..to])
  {
    MarkSlice(log, c, batch, to);
    FoldSlice(f, s0, log, c.latestSequence, to);
  }

  lemma MarkSlice(log: seq<Event>, c: State, batch: seq<Event>, to: nat)
    requires IsLog(log) && c.latestSequence <= to <= |log| && c.latestSequence <= c.highestObservedSequence <= |log|
    requires Newer(c.latestSequence, batch) == log[c.latestSequence..to]
    ensures MarkBatch(c, batch) == (log[c.latestSequence..to],
                c.(latestSequence := to, highestObservedSequence := Max(c.highestObservedSequence, to)))
  {
    var slice := log[c.latestSequence..to];
    SliceIsAscending(log, c.latestSequence, to);
    SortOfAscending(slice);
  }

  lemma FoldSlice<S>(f: (S, Event) -> S, s0: S, log: seq<Event>, from: nat, to: nat)
    requires from <= to <= |log|
    ensures Fold(f, Fold(f, s0, log[..from]), log[from..to]) == Fold(f, s0, log[..to])
  {
    FoldConcat(f, s0, log[..from], log[from..to]);
    assert log[..from] + log[from..to] == log[..to];
  }

  lemma SliceIsAscending(log: seq<Event>, from: nat, to: nat)
    requires IsLog(log) && from <= to <= |log|
    ensures Ascending(log[from..to])
    ensures from < to ==> log[from..to][to - from - 1].sequence == to
  {
    assert forall i :: 0 <= i < to - from ==> log[from..to][i].sequence == from + i + 1;
  }

  lemma {:induction false} NewerOfSlice(log: seq<Event>, latest: nat, from: nat, to: nat)
    requires IsLog(log) && from <= to <= |log| && from <= latest
    ensures Newer(latest, log[from..to]) == log[Max(from, if latest <= to then latest else to)..to]
    decreases |log| - from
  {
    if from < to {
      assert log[from..to][1..] == log[from + 1..to];
      if from < latest {
        NewerOfSlice(log, latest, from + 1, to);
      } else {
        NewerOfAllNewer(latest, log[from..to]);
      }
    }
  }

  lemma {:induction false} NewerOfAllNewer(latest: nat, es: seq<Event>)
    requires forall e :: e in es ==> e.sequence > latest
    ensures Newer(latest, es) == es
  {
    if es == [] {
    } else {
      NewerOfAllNewer(latest, es[1..]);
      assert es == [es[0]] + es[1..];
    }
  }

  // A sane single-copy buffer holds, beyond what is applied, nothing or exactly the next event.
  lemma BufferedIsNext<S>(s: System<S>)
    requires Sequenced(s) && BufferSane(s) && SingleCopy(s.client)
    ensures var latest := s.client.coordinator.latestSequence;
            latest + |Buffered(s.client)| <= s.client.coordinator.highestObservedSequence
            && Buffered(s.client) == s.log[latest..latest + |Buffered(s.client)|]
  {
    NewerMembers(s.client.coordinator.latestSequence, s.client.buffer);
    if Buffered(s.client) != [] {
      assert Buffered(s.client)[0] in Buffered(s.client);
    }
  }

  lemma FlushKeeps<S>(f: (S, Event) -> S, s0: S, s: System<S>)
    requires Inv(f, s0, s)
    ensures Inv(f, s0, s.(client := FlushPending(f, s.client)))
    ensures FlushPending(f, s.client).waiting == s.client.waiting
    ensures var c := s.client.coordinator;
            FlushPending(f, s.client).coordinator == c.(latestSequence := c.latestSequence + |Buffered(s.client)|)
  {
    var c := s.client;
    BufferedIsNext(s);
    ApplySlice(f, s0, s.log, c.coordinator, c.view, c.buffer, c.coordinator.latestSequence + |Buffered(c)|);
    NewerMembers(c.coordinator.latestSequence, c.buffer);
    if Buffered(c) != [] {
      assert Buffered(c)[0] in Buffered(c);
    }
  }

  lemma ScheduleReplayKeeps<S>(f: (S, Event) -> S, s0: S, s: System<S>, reason: Reason)
    requires Steady(f, s0, s)
    ensures Inv(f, s0, s.(client := ScheduleReplay(s.client, reason)))
  {
  }

  lemma EnsureSnapshotKeeps<S>(f: (S, Event) -> S, s0: S, s: System<S>, reason: Reason)
    requires Inv(f, s0, s)
    ensures Inv(f, s0, s.(client := EnsureSnapshot(s.client, reason)))
  {
  }

  // The channel does not repeat an event that is still waiting in the buffer to be applied.
  ghost predicate NoRepeatBeforeFlush<S>(s: System<S>, a: Action) {
    a.Deliver? ==> forall e :: e in Buffered(s.client) ==> e.sequence != a.sequence
  }

  lemma DeliverKeeps<S>(f: (S, Event) -> S, s0: S, s: System<S>, k: nat)
    requires Inv(f, s0, s) && Enabled(s, Deliver(k)) && NoRepeatBeforeFlush(s, Deliver(k))
    ensures Inv(f, s0, Next(f, s0, s, Deliver(k)))
  {
    match Classify(s.client.coordinator, k).0
    case Apply => DeliverAppliedKeeps(f, s0, s, k);
    case Recover => DeliverRecoveredKeeps(f, s0, s, k);
    case Ignore => DeliverOtherKeeps(f, s0, s, k);
    case Defer => DeliverOtherKeeps(f, s0, s, k);
  }

  lemma DeliverRecoveredKeeps<S>(f: (S, Event) -> S, s0: S, s: System<S>, k: nat)
    requires Inv(f, s0, s) && Enabled(s, Deliver(k)) && Classify(s.client.coordinator, k).0 == Recover
    ensures Inv(f, s0, Next(f, s0, s, Deliver(k)))
  {
    ObservedSteady(f, s0, s, k);
    FlushThenReplayKeeps(f, s0, s.(client := Observed(s.client, k), cursor := k), SequenceGap);
  }

  lemma FlushThenReplayKeeps<S>(f: (S, Event) -> S, s0: S, s: System<S>, reason: Reason)
    requires Steady(f, s0, s)
    ensures Inv(f, s0, s.(client := ScheduleReplay(FlushPending(f, s.client), reason)))
  {
    FlushObserved(f, s0, s);
    ScheduleReplayKeeps(f, s0, s.(client := FlushPending(f, s.client)), reason);
  }

  lemma ObservedSteady<S>(f: (S, Event) -> S, s0: S, s: System<S>, k: nat)
    requires Steady(f, s0, s) && 1 <= k <= |s.log|
    ensures Steady(f, s0, s.(client := Observed(s.client, k), cursor := k))
  {
  }

  lemma DeliverOtherKeeps<S>(f: (S, Event) -> S, s0: S, s: System<S>, k: nat)
    requires Inv(f, s0, s) && Enabled(s, Deliver(k)) && Classify(s.client.coordinator, k).0 in {Ignore, Defer}
    ensures Inv(f, s0, Next(f, s0, s, Deliver(k)))
  {
  }

  lemma HasMember(es: seq<Event>)
    requires es != []
    ensures exists e :: e in es
  {
    assert es[0] in es;
  }

  lemma DeliverAppliedKeeps<S>(f: (S, Event) -> S, s0: S, s: System<S>, k: nat)
    requires Inv(f, s0, s) && Enabled(s, Deliver(k)) && NoRepeatBeforeFlush(s, Deliver(k))
    requires Classify(s.client.coordinator, k).0 == Apply
    ensures Inv(f, s0, Next(f, s0, s, Deliver(k)))
  {
    var c := s.client;
    NewerMembers(c.coordinator.latestSequence, c.buffer);
    if Buffered(c) != [] {
      HasMember(Buffered(c));
    }
    NewerSnoc(c.coordinator.latestSequence, c.buffer, s.log[k - 1]);
  }

  lemma FlushObserved<S>(f: (S, Event) -> S, s0: S, s: System<S>)
    requires Steady(f, s0, s)
    ensures Steady(f, s0, s.(client := FlushPending(f, s.client)))
  {
    FlushKeeps(f, s0, s.(client := s.client.(stalled := true)));
  }

  lemma {:induction false} NewerSnoc(latest: nat, es: seq<Event>, e: Event)
    ensures Newer(latest, es + [e]) == Newer(latest, es) + (if e.sequence > latest then [e] else [])
  {
    if es != [] {
      assert (es + [e])[1..] == es[1..] + [e];
      NewerSnoc(latest, es[1..], e);
    } else {
      assert (es + [e])[1..] == [];
    }
  }

  // When the client's position moves, what is buffered beyond it can only shrink.
  lemma {:induction false} BufferedShrinks(es: seq<Event>, latest: nat, latest': nat)
    requires latest <= latest'
    ensures |Newer(latest', es)| <= |Newer(latest, es)|
  {
    if es == [] {
    } else {
      BufferedShrinks(es[1..], latest, latest');
    }
  }

  // Applying a replayed stretch of the log keeps everything steady.
  lemma ReplayedSteady<S>(f: (S, Event) -> S, s0: S, s: System<S>, m: nat)
    requires Inv(f, s0, s) && Enabled(s, ReplayArrives(m))
    ensures Steady(f, s0, s.(client := ApplyBatch(f, s.client, s.log[s.client.waiting.from..m])))
  {
    var c := s.client;
    var latest := c.coordinator.latestSequence;
    var to := Max(latest, m);
    NewerOfSlice(s.log, latest, c.waiting.from, m);
    ApplySlice(f, s0, s.log, c.coordinator, c.view, s.log[c.waiting.from..m], to);
    BufferedShrinks(c.buffer, latest, to);
  }

  lemma ReplayArrivesKeeps<S>(f: (S, Event) -> S, s0: S, s: System<S>, m: nat)
    requires Inv(f, s0, s) && Enabled(s, ReplayArrives(m))
    ensures Inv(f, s0, Next(f, s0, s, ReplayArrives(m)))
  {
    ReplayedSteady(f, s0, s, m);
    FinishReplayKeeps(f, s0, s.(client := ApplyBatch(f, s.client, s.log[s.client.waiting.from..m])));
  }

  lemma FinishReplayKeeps<S>(f: (S, Event) -> S, s0: S, s: System<S>)
    requires Steady(f, s0, s)
    requires s.client.waiting.ForReplay?
    ensures Inv(f, s0, s.(client := FinishReplay(s.client)))
  {
  }

  lemma SnapshotArrivesKeeps<S>(f: (S, Event) -> S, s0: S, s: System<S>, n: nat)
    requires Inv(f, s0, s) && Enabled(s, SnapshotArrives(n))
    ensures Inv(f, s0, Next(f, s0, s, SnapshotArrives(n)))
  {
    BufferedShrinks(s.client.buffer, s.client.coordinator.latestSequence, n);
  }

  lemma AppendKeeps<S>(f: (S, Event) -> S, s0: S, s: System<S>, e: Event)
    requires Inv(f, s0, s) && Enabled(s, Append(e))
    ensures Inv(f, s0, Next(f, s0, s, Append(e)))
  {
    var latest := s.client.coordinator.latestSequence;
    assert (s.log + [e])[..latest] == s.log[..latest];
  }

  // Every step keeps the invariant.
  lemma StepKeepsInv<S>(f: (S, Event) -> S, s0: S, s: System<S>, a: Action)
    requires Inv(f, s0, s) && Enabled(s, a) && NoRepeatBeforeFlush(s, a)
    ensures Inv(f, s0, Next(f, s0, s, a))
  {
    match a
    case Append(e) => AppendKeeps(f, s0, s, e);
    case Deliver(k) => DeliverKeeps(f, s0, s, k);
    case SnapshotArrives(n) => SnapshotArrivesKeeps(f, s0, s, n);
    case ReplayArrives(m) => ReplayArrivesKeeps(f, s0, s, m);
    case _ => LocalStepKeeps(f, s0, s, a);
  }

  // The steps that bring nothing from the server.
  lemma LocalStepKeeps<S>(f: (S, Event) -> S, s0: S, s: System<S>, a: Action)
    requires Inv(f, s0, s) && Enabled(s, a)
    requires !a.Append? && !a.Deliver? && !a.SnapshotArrives? && !a.ReplayArrives?
    ensures Inv(f, s0, Next(f, s0, s, a))
  {
    var c := s.client;
    match a
    case FlushTick => FlushKeeps(f, s0, s);
    case Resubscribe => FlushThenReplayKeeps(f, s0, s.(cursor := 0), Resubscribed);
    case RetryTimerFires => ScheduleReplayKeeps(f, s0, s.(client := c.(retryTimers := c.retryTimers - 1)), SequenceGap);
    case EnsureBootstrapped => EnsureSnapshotKeeps(f, s0, s, Bootstrap);
    case SnapshotFails =>
    case ReplayFails =>
      var failed := c.(coordinator := FailReplay(c.coordinator), waiting := Nothing, tracker := NoTracker);
      EnsureSnapshotKeeps(f, s0, s.(client := failed), ReplayFailed);
  }

  // A snapshot was taken or is on its way.
  ghost predicate Started<S>(c: Client<S>) {
    c.coordinator.bootstrapped || c.waiting.ForSnapshot?
  }

  // An event that comes while it cannot be applied is observed, and a replay is owed for it.
  lemma EarlyEventIsOwed<S>(f: (S, Event) -> S, s0: S, s: System<S>, k: nat)
    requires Inv(f, s0, s) && Enabled(s, Deliver(k)) && k > s.client.coordinator.latestSequence
    requires !s.client.coordinator.bootstrapped || s.client.waiting != Nothing
    ensures var c, t := s.client, Next(f, s0, s, Deliver(k)).client;
            && t.coordinator.pendingReplay && t.coordinator.highestObservedSequence >= k
            && t.buffer == c.buffer && t.view == c.view && t.waiting == c.waiting
  {
  }

  // A replay that failed for good is followed at once by a snapshot, no older than anything observed.
  lemma FailedReplayAwaitsSnapshot<S>(f: (S, Event) -> S, s0: S, s: System<S>)
    requires Inv(f, s0, s) && s.client.waiting.ForReplay?
    ensures Enabled(s, ReplayFails)
    ensures var c, t := s.client, Next(f, s0, s, ReplayFails).client;
            && t.waiting == ForSnapshot(c.coordinator.highestObservedSequence)
            && t.coordinator.inFlight == Snapshot(ReplayFailed) && !t.coordinator.bootstrapped
            && t.tracker == NoTracker && t.buffer == c.buffer && t.view == c.view
  {
  }

  // A snapshot that arrives is the client's state, and is followed by a replay exactly if one was asked for
  // meanwhile or something beyond it was observed.
  lemma SnapshotIsInstalled<S>(f: (S, Event) -> S, s0: S, s: System<S>, n: nat)
    requires Inv(f, s0, s) && Enabled(s, SnapshotArrives(n))
    ensures var c, t := s.client.coordinator, Next(f, s0, s, SnapshotArrives(n)).client;
            && t.coordinator.latestSequence == n && t.coordinator.bootstrapped && !t.coordinator.pendingReplay
            && t.view == Fold(f, s0, s.log[..n])
            && t.waiting == if c.pendingReplay || c.highestObservedSequence > n then ForReplay(n) else Nothing
  {
  }

  // A snapshot can fail as well, and leaves the client as it was before it asked.
  lemma FailedSnapshotIsForgotten<S>(f: (S, Event) -> S, s0: S, s: System<S>)
    requires Inv(f, s0, s) && s.client.waiting.ForSnapshot?
    ensures Enabled(s, SnapshotFails)
    ensures var c, t := s.client, Next(f, s0, s, SnapshotFails).client;
            && t.waiting == Nothing && t.coordinator == c.coordinator.(inFlight := Idle)
            && t.buffer == c.buffer && t.view == c.view && t.stalled == c.stalled
            && BeginSnapshot(t.coordinator, Bootstrap).0
  {
  }

  // Only a failed snapshot leaves a client without one, and only asking for one again mends it.
  lemma StepKeepsStarted<S>(f: (S, Event) -> S, s0: S, s: System<S>, a: Action)
    requires OneRecovery(s.client) && Enabled(s, a)
    ensures Started(Next(f, s0, s, a).client) <==> a == EnsureBootstrapped || (Started(s.client) && a != SnapshotFails)
  {
  }

  // Only a replay that ends while another is needed makes the driver give up.
  lemma OnlyUnfinishedReplayGivesUp<S>(f: (S, Event) -> S, s0: S, s: System<S>, a: Action)
    requires Enabled(s, a) && Next(f, s0, s, a).client.stalled && !s.client.stalled
    ensures a.ReplayArrives? && s.client.tracker.Tracker? && s.client.tracker.attempts >= 3
  {
    if a.ReplayArrives? {
      var c := ApplyBatch(f, s.client, s.log[s.client.waiting.from..a.upTo]);
      assert Next(f, s0, s, a).client == FinishReplay(c);
    }
  }

  // The client's position in the log never goes back.
  lemma StepNeverGoesBack<S>(f: (S, Event) -> S, s0: S, s: System<S>, a: Action)
    requires Enabled(s, a)
    ensures Next(f, s0, s, a).client.coordinator.latestSequence >= s.client.coordinator.latestSequence
  {
    match a
    case Deliver(k) => EventNeverGoesBack(f, s.client, s.log[k - 1]);
    case ReplayArrives(m) => ReplayNeverGoesBack(f, s.client, s.log[s.client.waiting.from..m]);
    case FlushTick => MarkNeverGoesBack(s.client.coordinator, s.client.buffer);
    case Resubscribe => MarkNeverGoesBack(s.client.coordinator, s.client.buffer);
    case _ =>
  }

  lemma EventNeverGoesBack<S>(f: (S, Event) -> S, c: Client<S>, e: Event)
    ensures OnDomainEvent(f, c, e).coordinator.latestSequence >= c.coordinator.latestSequence
  {
    MarkNeverGoesBack(Classify(c.coordinator, e.sequence).1, c.buffer);
  }

  lemma ReplayNeverGoesBack<S>(f: (S, Event) -> S, c: Client<S>, es: seq<Event>)
    ensures OnReplay(f, c, es).coordinator.latestSequence >= c.coordinator.latestSequence
  {
    MarkNeverGoesBack(c.coordinator, es);
  }

  // ---- Whole runs ----

  ghost predicate IsRun<S>(f: (S, Event) -> S, s0: S, states: seq<System<S>>, actions: seq<Action>) {
    && |states| == |actions| + 1
    && IsLog(states[0].log) && states[0] == Initial(s0, states[0].log)
    && (forall i :: 0 <= i < |actions| ==>
          Enabled(states[i], actions[i]) && states[i + 1] == Next(f, s0, states[i], actions[i]))
  }

  // Safety: over every channel that loses, reorders and repeats events, the client's store is at
  // every moment the fold of a prefix of the log, provided no event is repeated while a copy of it
  // waits in the buffer.
  lemma {:induction false} RunsReplicate<S>(f: (S, Event) -> S, s0: S, states: seq<System<S>>, actions: seq<Action>)
    requires IsRun(f, s0, states, actions)
    requires forall i :: 0 <= i < |actions| ==> NoRepeatBeforeFlush(states[i], actions[i])
    ensures forall i :: 0 <= i < |states| ==> Inv(f, s0, states[i])
    decreases |actions|
  {
    if actions == [] {
      InitialInv(f, s0, states[0].log);
    } else {
      var n := |actions| - 1;
      RunsReplicate(f, s0, states[..n + 1], actions[..n]);
      assert states[..n + 1][n] == states[n];
      StepKeepsInv(f, s0, states[n], actions[n]);
      forall i | 0 <= i < |states| ensures Inv(f, s0, states[i]) {
        if i <= n {
          assert states[..n + 1][i] == states[i];
        }
      }
    }
  }

  // A snapshot was asked for, and none has failed since.
  predicate AskedLast(actions: seq<Action>)
    decreases |actions|
  {
    actions != [] &&
      var n := |actions| - 1;
      actions[n] == EnsureBootstrapped || (AskedLast(actions[..n]) && actions[n] != SnapshotFails)
  }

  // At every moment of a run the client has a snapshot or waits for one exactly if it asked for one and
  // no snapshot failed since. Failed replays make no difference.
  lemma {:induction false} RunIsStartedIff<S>(f: (S, Event) -> S, s0: S, states: seq<System<S>>, actions: seq<Action>)
    requires IsRun(f, s0, states, actions)
    requires forall i :: 0 <= i < |actions| ==> NoRepeatBeforeFlush(states[i], actions[i])
    ensures Started(states[|actions|].client) <==> AskedLast(actions)
    decreases |actions|
  {
    if actions == [] {
    } else {
      var n := |actions| - 1;
      PrefixIsRun(f, s0, states, actions);
      RunIsStartedIff(f, s0, states[..n + 1], actions[..n]);
      LastStepOfRun(f, s0, states, actions);
    }
  }

  lemma PrefixIsRun<S>(f: (S, Event) -> S, s0: S, states: seq<System<S>>, actions: seq<Action>)
    requires IsRun(f, s0, states, actions) && actions != []
    requires forall i :: 0 <= i < |actions| ==> NoRepeatBeforeFlush(states[i], actions[i])
    ensures var n := |actions| - 1;
            && IsRun(f, s0, states[..n + 1], actions[..n]) && states[..n + 1][n] == states[n]
            && forall i :: 0 <= i < n ==> NoRepeatBeforeFlush(states[..n + 1][i], actions[..n][i])
  {
  }

  lemma LastStepOfRun<S>(f: (S, Event) -> S, s0: S, states: seq<System<S>>, actions: seq<Action>)
    requires IsRun(f, s0, states, actions) && actions != []
    requires forall i :: 0 <= i < |actions| ==> NoRepeatBeforeFlush(states[i], actions[i])
    ensures var n := |actions| - 1;
            Started(states[n + 1].client) <==>
              actions[n] == EnsureBootstrapped || (Started(states[n].client) && actions[n] != SnapshotFails)
  {
    var n := |actions| - 1;
    RunsReplicate(f, s0, states, actions);
    assert Inv(f, s0, states[n]);
    StepKeepsStarted(f, s0, states[n], actions[n]);
  }

  // The resequencer emits each sequence once per subscription, in order, so its deliveries rise
  // strictly until the next resubscription.
  ghost predicate InOrder<S>(s: System<S>, a: Action) {
    a.Deliver? ==> a.sequence > s.cursor
  }

  ghost predicate BelowCursor<S>(s: System<S>) {
    forall e :: e in s.client.buffer ==> e.sequence <= s.cursor
  }

  lemma InOrderDoesNotRepeat<S>(f: (S, Event) -> S, s0: S, s: System<S>, a: Action)
    requires BelowCursor(s) && Enabled(s, a) && InOrder(s, a) && IsLog(s.log)
    ensures NoRepeatBeforeFlush(s, a) && BelowCursor(Next(f, s0, s, a))
  {
    NewerMembers(s.client.coordinator.latestSequence, s.client.buffer);
  }

  // Behind the resequencer the proviso is met: every run is safe.
  lemma {:induction false} ResequencedRunsReplicate<S>(
      f: (S, Event) -> S, s0: S, states: seq<System<S>>, actions: seq<Action>)
    requires IsRun(f, s0, states, actions)
    requires forall i :: 0 <= i < |actions| ==> InOrder(states[i], actions[i])
    ensures forall i :: 0 <= i < |states| ==> Inv(f, s0, states[i]) && BelowCursor(states[i])
    decreases |actions|
  {
    if actions == [] {
      InitialInv(f, s0, states[0].log);
    } else {
      var n := |actions| - 1;
      ResequencedRunsReplicate(f, s0, states[..n + 1], actions[..n]);
      assert states[..n + 1][n] == states[n];
      InOrderDoesNotRepeat(f, s0, states[n], actions[n]);
      StepKeepsInv(f, s0, states[n], actions[n]);
      forall i | 0 <= i < |states| ensures Inv(f, s0, states[i]) && BelowCursor(states[i]) {
        if i <= n {
          assert states[..n + 1][i] == states[i];
        }
      }
    }
  }

  // Nothing is left to do: no recovery running or due, none given up, nothing buffered.
  ghost predicate Settled<S>(c: Client<S>) {
    c.waiting == Nothing && c.coordinator.bootstrapped && c.retryTimers == 0 && !c.stalled && c.buffer == []
  }

  // A settled client has applied every event it ever observed.
  lemma SettledClientIsCurrent<S>(f: (S, Event) -> S, s0: S, s: System<S>)
    requires Inv(f, s0, s) && Settled(s.client)
    ensures s.client.view == Fold(f, s0, s.log[..s.client.coordinator.highestObservedSequence])
  {
    assert Buffered(s.client) == [];
  }

  // ---- The two assumptions are needed exactly ----

  // The reducer that keeps every event: the store is the list of events applied.
  const KEEP: (seq<Event>, Event) -> seq<Event> := (v, e) => v + [e]

  lemma {:induction false} FoldKeeps(v: seq<Event>, es: seq<Event>)
    ensures Fold(KEEP, v, es) == v + es
    decreases |es|
  {
    if es != [] {
      FoldKeeps(v, es[..|es| - 1]);
      assert es == es[..|es| - 1] + [es[|es| - 1]];
    } else {
      assert v + [] == v;
    }
  }

  // From a state that satisfies everything but the single-copy condition, a flush leaves the store
  // a log prefix if and only if the buffer holds at most one copy of the next event.
  lemma FlushSafeIffSingleCopy(s: System<seq<Event>>)
    requires Sequenced(s) && Replicated(KEEP, [], s) && BufferSane(s)
    ensures Replicated(KEEP, [], s.(client := FlushPending(KEEP, s.client))) <==> SingleCopy(s.client)
  {
    var c := s.client;
    var latest := c.coordinator.latestSequence;
    var (next, marked) := MarkBatch(c.coordinator, c.buffer);
    FlushedAreCopies(s);
    FoldKeeps([], s.log[..latest]);
    FoldKeeps(c.view, next);
    if next != [] {
      FoldKeeps([], s.log[..latest + 1]);
      assert |s.log[..latest] + next| == latest + |next|;
      assert |next| == 1 ==> s.log[..latest] + next == s.log[..latest + 1];
    }
  }

  // A flush applies the buffered copies of the next event, all of them.
  lemma FlushedAreCopies<S>(s: System<S>)
    requires Sequenced(s) && BufferSane(s) && s.client.coordinator.latestSequence <= |s.log|
    ensures var latest := s.client.coordinator.latestSequence;
            var (next, marked) := MarkBatch(s.client.coordinator, s.client.buffer);
            && |next| == |Buffered(s.client)|
            && marked.latestSequence == (if next == [] then latest else latest + 1)
            && (next != [] ==> latest < |s.log| && next[0] == s.log[latest])
  {
    var newer := Buffered(s.client);
    NewerMembers(s.client.coordinator.latestSequence, s.client.buffer);
    SortedIsSorted(newer);
    SortedCopies(s.log, s.client.coordinator.latestSequence, newer, SortBySequence(newer));
  }

  lemma SortedCopies(log: seq<Event>, latest: nat, newer: seq<Event>, r: seq<Event>)
    requires multiset(r) == multiset(newer)
    requires forall e :: e in newer ==> e.sequence == latest + 1 && InLog(e, log)
    ensures r != [] ==> r[|r| - 1].sequence == latest + 1 && latest < |log| && r[0] == log[latest]
  {
    assert forall e :: e in r <==> e in multiset(r);
    if r != [] {
      assert r[|r| - 1] in r && r[0] in r;
    }
  }

  // Installing a snapshot leaves the store a log prefix if and only if the snapshot is not older
  // than what the client has applied.
  lemma SnapshotSafeIffFresh(s: System<seq<Event>>, n: nat)
    requires Sequenced(s) && Replicated(KEEP, [], s) && n <= |s.log|
    ensures Replicated(KEEP, [], s.(client := OnSnapshot(s.client, Fold(KEEP, [], s.log[..n]), n)))
            <==> s.client.coordinator.latestSequence <= n
  {
    FoldKeeps([], s.log[..n]);
    FoldKeeps([], s.log[..s.client.coordinator.latestSequence]);
  }

  // An older one rewinds the store to its own prefix and leaves the position where it was.
  lemma StaleSnapshotRewinds(s: System<seq<Event>>, n: nat)
    requires Sequenced(s) && Replicated(KEEP, [], s) && n < s.client.coordinator.latestSequence
    ensures var t := OnSnapshot(s.client, Fold(KEEP, [], s.log[..n]), n);
            t.view == s.log[..n] && t.coordinator.latestSequence == s.client.coordinator.latestSequence > n
  {
    FoldKeeps([], s.log[..n]);
  }
}
