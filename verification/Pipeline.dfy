// The replication loop with the server's resequencer in it: events reach a subscription in any order,
// and what it emits travels in order to the client.
module Pipeline {
  import opened Events
  import opened Recovery
  import opened ReplayRetry
  import opened Resequencer
  import opened Replication

  datatype Pipe<S> = Pipe(
    system: System<S>,
    sequencer: SequenceState,   // the resequencer of the last subscription
    outbox: seq<Event>,         // what it emitted and the client has not received yet
    open: bool,                 // the subscription's stream is running
    received: bool,             // the client has received an event on some subscription
    hooked: bool)               // the resubscription hook has run since the stream ended

  datatype PipeAction =
    | Other(action: Action)           // anything but a delivery or a resubscription
    | Arrive(sequence: nat)           // the event reaches the resequencer, replayed or live
    | DeliverNext
    | Close                           // the stream ends, and what it had in transit is lost
    | Hook                            // before a stream is opened again, if anything was ever received
    | Open(snapshotSequence: nat)     // the server starts a subscription at its snapshot of that moment

  ghost predicate PipeEnabled<S>(p: Pipe<S>, a: PipeAction) {
    match a
    case Other(action) => !action.Deliver? && !action.Resubscribe? && Enabled(p.system, action)
    case Arrive(k) => p.open && 1 <= k <= |p.system.log|
    case DeliverNext => p.open && p.outbox != [] && 1 <= p.outbox[0].sequence <= |p.system.log|
    case Close => p.open
    case Hook => !p.open && p.received
    case Open(n) => !p.open && (p.received ==> p.hooked) && n <= |p.system.log|
  }

  ghost function PipeNext<S>(f: (S, Event) -> S, s0: S, p: Pipe<S>, a: PipeAction): Pipe<S>
    requires PipeEnabled(p, a)
  {
    match a
    case Other(action) => p.(system := Next(f, s0, p.system, action))
    case Arrive(k) =>
      var result := Step(p.sequencer, p.system.log[k - 1]);
      p.(sequencer := result.1, outbox := p.outbox + result.0)
    case DeliverNext =>
      p.(system := Next(f, s0, p.system, Deliver(p.outbox[0].sequence)), outbox := p.outbox[1..], received := true)
    case Close => p.(outbox := [], open := false)
    case Hook => p.(system := Next(f, s0, p.system, Resubscribe), hooked := true)
    case Open(n) =>
      p.(system := p.system.(cursor := 0), sequencer := Start(n), outbox := [], open := true, hooked := false)
  }

  // Before the first subscription.
  ghost function PipeInitial<S>(s0: S, log: seq<Event>): Pipe<S> {
    Pipe(Initial(s0, log), Start(0), [], false, false, false)
  }

  // ---- The resequencer inside ----

  // What it holds are log entries under their own sequences.
  ghost predicate Holding(log: seq<Event>, s: SequenceState) {
    forall k :: k in s.pending ==> s.pending[k].sequence == k && InLog(s.pending[k], log)
  }

  // The events are log entries with consecutive sequences that end just below `next`.
  ghost predicate RunsUpTo(log: seq<Event>, es: seq<Event>, next: nat) {
    forall i :: 0 <= i < |es| ==> es[i].sequence == next - |es| + i && InLog(es[i], log)
  }

  lemma StepExtendsRun(log: seq<Event>, s: SequenceState, e: Event, out: seq<Event>)
    requires IsLog(log) && InLog(e, log) && Holding(log, s) && RunsUpTo(log, out, s.nextSequence)
    ensures var result := Step(s, e);
            && Holding(log, result.1) && RunsUpTo(log, out + result.0, result.1.nextSequence)
            && result.1.nextSequence == s.nextSequence + |result.0|
  {
    if e.sequence < s.nextSequence || e.sequence in s.pending {
      assert out + [] == out;
    } else {
      var held := s.pending[e.sequence := e];
      var end := RunEnd(held.Keys, s.nextSequence);
      assert forall k :: s.nextSequence <= k < end ==> k in held.Keys;
    }
  }

  // What is in transit continues the log right behind the last event delivered, if any.
  ghost predicate PipeInv<S>(p: Pipe<S>) {
    && Holding(p.system.log, p.sequencer)
    && RunsUpTo(p.system.log, p.outbox, p.sequencer.nextSequence)
    && p.system.cursor + |p.outbox| < p.sequencer.nextSequence
  }

  // Whenever a stream may be opened, nothing is left in the client's buffer.
  ghost predicate LinkInv<S>(p: Pipe<S>) {
    && (!p.received || p.hooked ==> p.system.client.buffer == [])
    && (p.hooked ==> !p.open)
  }

  ghost predicate Sound<S>(f: (S, Event) -> S, s0: S, p: Pipe<S>) {
    Inv(f, s0, p.system) && BelowCursor(p.system) && PipeInv(p) && LinkInv(p)
  }

  lemma SystemStepIsSound<S>(f: (S, Event) -> S, s0: S, s: System<S>, a: Action)
    requires Inv(f, s0, s) && BelowCursor(s) && Enabled(s, a) && InOrder(s, a)
    ensures Inv(f, s0, Next(f, s0, s, a)) && BelowCursor(Next(f, s0, s, a))
  {
    InOrderDoesNotRepeat(f, s0, s, a);
    StepKeepsInv(f, s0, s, a);
  }

  lemma PipeStepIsSound<S>(f: (S, Event) -> S, s0: S, p: Pipe<S>, a: PipeAction)
    requires Sound(f, s0, p) && PipeEnabled(p, a)
    ensures Sound(f, s0, PipeNext(f, s0, p, a))
  {
    match a
    case Other(action) =>
      SystemStepIsSound(f, s0, p.system, action);
      OtherKeepsPipe(f, s0, p, action);
    case Arrive(k) => StepExtendsRun(p.system.log, p.sequencer, p.system.log[k - 1], p.outbox);
    case DeliverNext => DeliveryIsSound(f, s0, p);
    case Close =>
    case Hook => HookIsSound(f, s0, p);
    case Open(_) => CursorIsFree(f, s0, p.system);
  }

  lemma DeliveryIsSound<S>(f: (S, Event) -> S, s0: S, p: Pipe<S>)
    requires Sound(f, s0, p) && PipeEnabled(p, DeliverNext)
    ensures Sound(f, s0, PipeNext(f, s0, p, DeliverNext))
  {
    SystemStepIsSound(f, s0, p.system, Deliver(p.outbox[0].sequence));
  }

  lemma HookIsSound<S>(f: (S, Event) -> S, s0: S, p: Pipe<S>)
    requires Sound(f, s0, p) && PipeEnabled(p, Hook)
    ensures Sound(f, s0, PipeNext(f, s0, p, Hook))
  {
    SystemStepIsSound(f, s0, p.system, Resubscribe);
  }

  // With nothing buffered, a new stream may begin anywhere.
  lemma CursorIsFree<S>(f: (S, Event) -> S, s0: S, s: System<S>)
    requires Inv(f, s0, s) && s.client.buffer == []
    ensures Inv(f, s0, s.(cursor := 0)) && BelowCursor(s.(cursor := 0))
  {
  }

  lemma OtherKeepsPipe<S>(f: (S, Event) -> S, s0: S, p: Pipe<S>, action: Action)
    requires PipeInv(p) && LinkInv(p) && PipeEnabled(p, Other(action))
    ensures PipeInv(PipeNext(f, s0, p, Other(action))) && LinkInv(PipeNext(f, s0, p, Other(action)))
  {
    var log := Next(f, s0, p.system, action).log;
    assert log == p.system.log || exists e :: log == p.system.log + [e];
    assert forall e :: InLog(e, p.system.log) ==> InLog(e, log);
  }

  ghost predicate IsPipeRun<S>(f: (S, Event) -> S, s0: S, pipes: seq<Pipe<S>>, actions: seq<PipeAction>) {
    && |pipes| == |actions| + 1
    && IsLog(pipes[0].system.log) && pipes[0] == PipeInitial(s0, pipes[0].system.log)
    && forall i :: 0 <= i < |actions| ==>
         PipeEnabled(pipes[i], actions[i]) && pipes[i + 1] == PipeNext(f, s0, pipes[i], actions[i])
  }

  // End to end: whatever the server's log is when the client starts, in whatever order and however often
  // events reach each subscription, and whenever streams end and are opened again, the client's store is
  // at every moment the fold of a prefix of the server's log.
  lemma {:induction false} PipedRunsReplicate<S>(
    f: (S, Event) -> S, s0: S, pipes: seq<Pipe<S>>, actions: seq<PipeAction>)
    requires IsPipeRun(f, s0, pipes, actions)
    ensures forall i :: 0 <= i < |pipes| ==> Sound(f, s0, pipes[i])
    decreases |actions|
  {
    if actions == [] {
      InitialInv(f, s0, pipes[0].system.log);
    } else {
      var n := |actions| - 1;
      PipedRunsReplicate(f, s0, pipes[..n + 1], actions[..n]);
      assert pipes[..n + 1][n] == pipes[n];
      PipeStepIsSound(f, s0, pipes[n], actions[n]);
      forall i | 0 <= i < |pipes| ensures Sound(f, s0, pipes[i]) {
        if i <= n {
          assert pipes[..n + 1][i] == pipes[i];
        }
      }
    }
  }

  // ---- Having a snapshot ----

  // What the actions ask of the system, deliveries apart.
  function SystemActions(actions: seq<PipeAction>): seq<Action>
    decreases |actions|
  {
    if actions == [] then []
    else
      var n := |actions| - 1;
      match actions[n]
      case Other(action) => SystemActions(actions[..n]) + [action]
      case Hook => SystemActions(actions[..n]) + [Resubscribe]
      case _ => SystemActions(actions[..n])
  }

  lemma AskedAfter(actions: seq<PipeAction>)
    requires actions != []
    ensures var n := |actions| - 1;
            AskedLast(SystemActions(actions)) <==>
              || actions[n] == Other(EnsureBootstrapped)
              || (AskedLast(SystemActions(actions[..n])) && actions[n] != Other(SnapshotFails))
  {
    var n := |actions| - 1;
    var before := SystemActions(actions[..n]);
    assert forall a: Action :: (before + [a])[..|before|] == before;
  }

  lemma PipeStepKeepsStarted<S>(f: (S, Event) -> S, s0: S, p: Pipe<S>, a: PipeAction)
    requires Sound(f, s0, p) && PipeEnabled(p, a)
    ensures Started(PipeNext(f, s0, p, a).system.client) <==>
              a == Other(EnsureBootstrapped) || (Started(p.system.client) && a != Other(SnapshotFails))
  {
    match a
    case Other(action) => StepKeepsStarted(f, s0, p.system, action);
    case DeliverNext => StepKeepsStarted(f, s0, p.system, Deliver(p.outbox[0].sequence));
    case Hook => StepKeepsStarted(f, s0, p.system, Resubscribe);
    case _ =>
  }

  // The client has a snapshot or waits for one exactly if it asked for one and none failed since, whatever
  // became of replays and streams.
  lemma {:induction false} PipedClientIsStartedIff<S>(
    f: (S, Event) -> S, s0: S, pipes: seq<Pipe<S>>, actions: seq<PipeAction>)
    requires IsPipeRun(f, s0, pipes, actions)
    ensures Started(pipes[|actions|].system.client) <==> AskedLast(SystemActions(actions))
    decreases |actions|
  {
    if actions == [] {
    } else {
      var n := |actions| - 1;
      PipedRunsReplicate(f, s0, pipes, actions);
      assert Sound(f, s0, pipes[n]);
      PipedClientIsStartedIff(f, s0, pipes[..n + 1], actions[..n]);
      assert pipes[..n + 1][n] == pipes[n];
      PipeStepKeepsStarted(f, s0, pipes[n], actions[n]);
      AskedAfter(actions);
    }
  }
}
