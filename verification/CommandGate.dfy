// The startup command gate: commands that arrive before the server is ready wait in a queue, one
// worker runs them in order once it is, and all of them fail if startup fails.
module CommandGate {
  import opened Text

  datatype Readiness = Pending | Ready | Failed(error: string)

  // The one-shot signal the worker waits for.
  datatype Latch = Unset | Succeeded | FailedWith(error: string)

  datatype Exit = Success(value: string) | Failure(cause: string) | StartupFailure(error: string)

  // Where the fiber that enqueued a command is.
  datatype Phase =
    | SawPending             // read "pending", has not offered the command yet
    | Queued                 // offered it, waits for its result
    | Direct                 // saw "ready", runs the effect itself
    | Returned(exit: Exit)

  datatype Worker = Idle | Holding(command: nat) | Running(command: nat)

  datatype Gate = Gate(
    readiness: Readiness,
    latch: Latch,
    queue: seq<nat>,
    worker: Worker,
    phases: map<nat, Phase>,
    results: map<nat, Exit>,  // the result of each queued command, once settled
    offered: seq<nat>,        // every command ever queued, in order
    settled: seq<nat>,        // the queued commands settled so far, in order
    started: seq<nat>)        // the commands whose effect was started, in order

  const OPENED := Gate(Pending, Unset, [], Idle, map[], map[], [], [], [])

  // One atomic step of some fiber. Signalling readiness, like failing, takes two steps: first the
  // state is set, then the latch is completed.
  datatype Step =
    | Enqueue(command: nat)
    | Offer(command: nat)
    | WorkerTakes
    | WorkerWakes
    | WorkerFinishes(exit: Exit)
    | DirectFinishes(command: nat, exit: Exit)
    | ResultArrives(command: nat)
    | SetReady
    | CompleteReady
    | SetFailed(error: string)
    | CompleteFailed

  ghost predicate Enabled(g: Gate, step: Step) {
    match step
    case Enqueue(c) => c !in g.phases
    case Offer(c) => c in g.phases && g.phases[c] == SawPending
    case WorkerTakes => g.worker.Idle? && g.queue != []
    case WorkerWakes => g.worker.Holding? && g.latch != Unset
    case WorkerFinishes(_) => g.worker.Running?
    case DirectFinishes(c, _) => c in g.phases && g.phases[c] == Direct
    case ResultArrives(c) => c in g.phases && g.phases[c] == Queued && c in g.results
    case SetReady => g.readiness.Pending?
    case CompleteReady => g.readiness.Ready? && g.latch.Unset?
    case SetFailed(_) => g.readiness.Pending?
    case CompleteFailed => g.readiness.Failed? && g.latch.Unset?
  }

  function Settle(g: Gate, c: nat, exit: Exit): Gate {
    g.(results := g.results[c := exit], settled := g.settled + [c], worker := Idle)
  }

  function EnqueueStep(g: Gate, c: nat): Gate {
    match g.readiness
    case Ready => g.(phases := g.phases[c := Direct], started := g.started + [c])
    case Failed(e) => g.(phases := g.phases[c := Returned(StartupFailure(e))])
    case Pending => g.(phases := g.phases[c := SawPending])
  }

  function WakeStep(g: Gate): Gate
    requires g.worker.Holding? && g.latch != Unset
  {
    var c := g.worker.command;
    match g.latch
    case Succeeded => g.(worker := Running(c), started := g.started + [c])
    case FailedWith(e) => Settle(g, c, StartupFailure(e))
  }

  function Next(g: Gate, step: Step): Gate
    requires Enabled(g, step)
  {
    match step
    case Enqueue(c) => EnqueueStep(g, c)
    case Offer(c) => g.(queue := g.queue + [c], offered := g.offered + [c], phases := g.phases[c := Queued])
    case WorkerTakes => g.(worker := Holding(g.queue[0]), queue := g.queue[1..])
    case WorkerWakes => WakeStep(g)
    case WorkerFinishes(exit) => Settle(g, g.worker.command, exit)
    case DirectFinishes(c, exit) => g.(phases := g.phases[c := Returned(exit)])
    case ResultArrives(c) => g.(phases := g.phases[c := Returned(g.results[c])])
    case SetReady => g.(readiness := Ready)
    case CompleteReady => g.(latch := Succeeded)
    case SetFailed(e) => g.(readiness := Failed(e))
    case CompleteFailed => g.(latch := FailedWith(g.readiness.error))
  }

  // ---- The gate object ----

  class CommandGate {
    var readiness: Readiness
    var latch: Latch
    var queue: seq<nat>
    var worker: Worker
    var phases: map<nat, Phase>
    var results: map<nat, Exit>
    ghost var offered: seq<nat>
    ghost var settled: seq<nat>
    ghost var started: seq<nat>

    ghost function State(): Gate
      reads this
    {
      Gate(readiness, latch, queue, worker, phases, results, offered, settled, started)
    }

    constructor ()
      ensures State() == OPENED
    {
      readiness, latch, queue, worker := Pending, Unset, [], Idle;
      phases, results, offered, settled, started := map[], map[], [], [], [];
    }

    // Reads the readiness and decides what becomes of the command.
    method EnqueueCommand(c: nat)
      requires Enabled(State(), Enqueue(c))
      modifies this
      ensures State() == Next(old(State()), Enqueue(c))
    {
      if readiness == Ready {
        phases := phases[c := Direct];
        started := started + [c];
        return;
      }
      if readiness != Pending {
        phases := phases[c := Returned(StartupFailure(readiness.error))];
        return;
      }
      phases := phases[c := SawPending];
    }

    method OfferCommand(c: nat)
      requires Enabled(State(), Offer(c))
      modifies this
      ensures State() == Next(old(State()), Offer(c))
    {
      queue := queue + [c];
      offered := offered + [c];
      phases := phases[c := Queued];
    }

    method SignalCommandReady()
      requires Enabled(State(), SetReady)
      modifies this
      ensures State() == Next(old(State()), SetReady)
    {
      readiness := Ready;
    }

    method CompleteCommandReady()
      requires Enabled(State(), CompleteReady)
      modifies this
      ensures State() == Next(old(State()), CompleteReady)
    {
      latch := Succeeded;
    }

    method FailCommandReady(error: string)
      requires Enabled(State(), SetFailed(error))
      modifies this
      ensures State() == Next(old(State()), SetFailed(error))
    {
      readiness := Failed(error);
    }

    method CompleteCommandFailed()
      requires Enabled(State(), CompleteFailed)
      modifies this
      ensures State() == Next(old(State()), CompleteFailed)
    {
      latch := FailedWith(readiness.error);
    }

    method TakeCommand()
      requires Enabled(State(), WorkerTakes)
      modifies this
      ensures State() == Next(old(State()), WorkerTakes)
    {
      worker := Holding(queue[0]);
      queue := queue[1..];
    }

    method RunCommand()
      requires Enabled(State(), WorkerWakes)
      modifies this
      ensures State() == Next(old(State()), WorkerWakes)
    {
      var c := worker.command;
      if latch == Succeeded {
        worker := Running(c);
        started := started + [c];
      } else {
        results := results[c := StartupFailure(latch.error)];
        settled := settled + [c];
        worker := Idle;
      }
    }

    method SettleQueuedCommand(exit: Exit)
      requires Enabled(State(), WorkerFinishes(exit))
      modifies this
      ensures State() == Next(old(State()), WorkerFinishes(exit))
    {
      results := results[worker.command := exit];
      settled := settled + [worker.command];
      worker := Idle;
    }
  }

  // ---- Safety ----

  function InHand(w: Worker): seq<nat> {
    if w.Idle? then [] else [w.command]
  }

  ghost predicate Distinct(cs: seq<nat>) {
    forall i, j :: 0 <= i < j < |cs| ==> cs[i] != cs[j]
  }

  // Every queued command is settled, in hand or still queued, once and in queue order, and it has a
  // result exactly when settled.
  ghost predicate Fifo(g: Gate) {
    && g.offered == g.settled + InHand(g.worker) + g.queue
    && Distinct(g.offered)
    && (forall c :: c in g.results <==> c in g.settled)
    && (forall c :: c in g.offered ==>
          c in g.phases && (g.phases[c] == Queued || (c in g.results && g.phases[c] == Returned(g.results[c]))))
    && (forall c :: c in g.phases && g.phases[c] == Queued ==> c in g.offered)
  }

  // Nothing was started unless the server is ready; a command is started at most once; and the
  // latch never contradicts the readiness.
  ghost predicate Gated(g: Gate) {
    && (g.started != [] ==> g.readiness == Ready)
    && (g.latch == Succeeded ==> g.readiness == Ready)
    && (g.latch.FailedWith? ==> g.readiness == Failed(g.latch.error))
    && (g.worker.Running? ==> g.latch == Succeeded)
    && (forall c :: c in g.results && g.readiness.Failed? ==> g.results[c] == StartupFailure(g.readiness.error))
    && (g.results.Keys != {} ==> g.latch != Unset)
  }

  ghost predicate StartedOnce(g: Gate) {
    && Distinct(g.started)
    && (forall c :: c in g.started ==> c in g.phases && g.phases[c] != SawPending)
    && (forall c :: c in g.started && c in g.offered ==> c in g.settled || g.worker == Running(c))
  }

  ghost predicate Inv(g: Gate) {
    Fifo(g) && Gated(g) && StartedOnce(g)
  }

  lemma InHandIsUnsettled(g: Gate)
    requires Fifo(g) && !g.worker.Idle?
    ensures g.worker.command in g.offered && g.worker.command !in g.settled && g.worker.command !in g.results
  {
    var k := |g.settled|;
    assert g.offered[k] == g.worker.command;
    assert forall i :: 0 <= i < k ==> g.offered[i] == g.settled[i];
  }

  lemma SettleKeepsInv(g: Gate, exit: Exit)
    requires Inv(g) && !g.worker.Idle? && g.latch != Unset
    requires g.latch.FailedWith? ==> exit == StartupFailure(g.latch.error)
    ensures Inv(Settle(g, g.worker.command, exit))
  {
    var c := g.worker.command;
    var g' := Settle(g, c, exit);
    InHandIsUnsettled(g);
    assert g'.offered == g'.settled + InHand(g'.worker) + g'.queue;
    assert forall x :: x in g'.settled <==> x in g.settled || x == c;
    assert Fifo(g');
  }

  lemma OfferKeepsInv(g: Gate, c: nat)
    requires Inv(g) && Enabled(g, Offer(c))
    ensures Inv(Next(g, Offer(c)))
  {
    var g' := Next(g, Offer(c));
    assert c !in g.offered;
    assert g'.offered == g'.settled + InHand(g'.worker) + g'.queue;
    assert forall x :: x in g'.offered <==> x in g.offered || x == c;
  }

  lemma EnqueueKeepsInv(g: Gate, c: nat)
    requires Inv(g) && Enabled(g, Enqueue(c))
    ensures Inv(Next(g, Enqueue(c)))
  {
    var g' := Next(g, Enqueue(c));
    assert c !in g.offered && c !in g.started;
    if g.readiness.Ready? {
      assert forall x :: x in g'.started <==> x in g.started || x == c;
    }
  }

  lemma WakeKeepsInv(g: Gate)
    requires Inv(g) && Enabled(g, WorkerWakes)
    ensures Inv(Next(g, WorkerWakes))
  {
    var c := g.worker.command;
    InHandIsUnsettled(g);
    if g.latch.FailedWith? {
      SettleKeepsInv(g, StartupFailure(g.latch.error));
    } else {
      var g' := Next(g, WorkerWakes);
      assert c !in g.started;
      assert forall x :: x in g'.started <==> x in g.started || x == c;
    }
  }

  lemma StepKeepsInv(g: Gate, step: Step)
    requires Inv(g) && Enabled(g, step)
    ensures Inv(Next(g, step))
  {
    match step
    case Enqueue(c) => EnqueueKeepsInv(g, c);
    case Offer(c) => OfferKeepsInv(g, c);
    case WorkerTakes => assert g.settled + InHand(g.worker) + g.queue == g.settled + [g.queue[0]] + g.queue[1..];
    case WorkerWakes => WakeKeepsInv(g);
    case WorkerFinishes(exit) => SettleKeepsInv(g, exit);
    case _ =>
  }

  ghost predicate IsRun(gates: seq<Gate>, steps: seq<Step>) {
    && |gates| == |steps| + 1
    && gates[0] == OPENED
    && (forall i :: 0 <= i < |steps| ==> Enabled(gates[i], steps[i]) && gates[i + 1] == Next(gates[i], steps[i]))
  }

  // In every interleaving: results are settled once and in queue order, nothing starts before the
  // server is ready, no command starts twice, and after a failure no effect has started and every
  // result is that failure.
  lemma {:induction false} RunsStaySafe(gates: seq<Gate>, steps: seq<Step>)
    requires IsRun(gates, steps)
    ensures forall i :: 0 <= i < |gates| ==> Inv(gates[i])
    decreases |steps|
  {
    if steps == [] {
    } else {
      var n := |steps| - 1;
      RunsStaySafe(gates[..n + 1], steps[..n]);
      assert gates[..n + 1][n] == gates[n];
      StepKeepsInv(gates[n], steps[n]);
      forall i | 0 <= i < |gates| ensures Inv(gates[i]) {
        if i <= n {
          assert gates[..n + 1][i] == gates[i];
        }
      }
    }
  }

  lemma FailedStartupRunsNothing(gates: seq<Gate>, steps: seq<Step>, i: nat)
    requires IsRun(gates, steps) && i < |gates| && gates[i].readiness.Failed?
    ensures gates[i].started == []
    ensures forall c :: c in gates[i].results ==> gates[i].results[c] == StartupFailure(gates[i].readiness.error)
  {
    RunsStaySafe(gates, steps);
  }

  // A result, once settled, is never settled again or changed.
  lemma ResultsAreFinal(g: Gate, step: Step, c: nat)
    requires Inv(g) && Enabled(g, step) && c in g.results
    ensures c in Next(g, step).results && Next(g, step).results[c] == g.results[c]
  {
    if !g.worker.Idle? {
      InHandIsUnsettled(g);
    }
  }

  // ---- Progress ----

  // The worker's next step once the latch is complete, an effect ending with the given exit.
  function WorkerStep(g: Gate, exit: Exit): Step
    requires g.latch != Unset && (!g.worker.Idle? || g.queue != [])
  {
    match g.worker
    case Idle => WorkerTakes
    case Holding(_) => WorkerWakes
    case Running(_) => WorkerFinishes(exit)
  }

  // The worker steps still to take: three per queued command, and what is left of the one in hand.
  function Work(g: Gate): nat {
    3 * |g.queue| + match g.worker { case Idle => 0 case Holding(_) => 2 case Running(_) => 1 }
  }

  // Once the latch is complete the worker is never blocked while there is work, and each of its
  // steps leaves less of it.
  lemma WorkerIsNeverStuck(g: Gate, exit: Exit)
    requires g.latch != Unset && Work(g) > 0
    ensures Enabled(g, WorkerStep(g, exit))
    ensures Work(Next(g, WorkerStep(g, exit))) < Work(g)
    ensures Next(g, WorkerStep(g, exit)).latch == g.latch && Next(g, WorkerStep(g, exit)).offered == g.offered
  {
  }

  // Letting the worker run to the end, the n-th of its steps using the n-th exit.
  ghost function Drain(g: Gate, exits: nat -> Exit): Gate
    requires g.latch != Unset
    decreases Work(g)
  {
    if Work(g) == 0 then g
    else
      WorkerIsNeverStuck(g, exits(Work(g)));
      Drain(Next(g, WorkerStep(g, exits(Work(g)))), exits)
  }

  // So no command is lost to the race between reading "pending" and being queued: whatever was
  // queued by the time the worker runs is settled, in order, whenever the latch completed.
  lemma {:induction false} EverythingQueuedIsSettled(g: Gate, exits: nat -> Exit)
    requires Inv(g) && g.latch != Unset
    ensures var d := Drain(g, exits);
            && Inv(d) && d.settled == g.offered && d.queue == [] && d.worker == Idle
            && (forall c :: c in g.phases && g.phases[c] == Queued ==> c in d.results)
    decreases Work(g)
  {
    if Work(g) == 0 {
      assert g.offered == g.settled;
    } else {
      var step := WorkerStep(g, exits(Work(g)));
      WorkerIsNeverStuck(g, exits(Work(g)));
      StepKeepsInv(g, step);
      EverythingQueuedIsSettled(Next(g, step), exits);
    }
  }

  // A command that read "pending" just before the latch completed is settled like any other.
  lemma LateOfferIsSettled(g: Gate, c: nat, exits: nat -> Exit)
    requires Inv(g) && g.latch != Unset && Enabled(g, Offer(c))
    ensures c in Drain(Next(g, Offer(c)), exits).results
  {
    OfferKeepsInv(g, c);
    EverythingQueuedIsSettled(Next(g, Offer(c)), exits);
  }

  // ---- What a command gets ----

  // The exit that a command's caller gets or will get, once it is decided.
  function Outcome(g: Gate, c: nat): Option<Exit> {
    if c in g.results then Some(g.results[c])
    else if c in g.phases && g.phases[c].Returned? then Some(g.phases[c].exit)
    else None
  }

  // The step decides the exit: the command's own effect ends with it, or startup has failed.
  ghost predicate Gives(g: Gate, step: Step, c: nat, exit: Exit) {
    match step
    case WorkerFinishes(e) => g.worker == Running(c) && exit == e
    case WorkerWakes => g.worker == Holding(c) && g.latch.FailedWith? && exit == StartupFailure(g.latch.error)
    case DirectFinishes(d, e) => d == c && exit == e
    case Enqueue(d) => d == c && g.readiness.Failed? && exit == StartupFailure(g.readiness.error)
    case _ => false
  }

  lemma OutcomeAfter(g: Gate, step: Step, c: nat, exit: Exit)
    requires Inv(g) && Enabled(g, step)
    ensures Outcome(Next(g, step), c) == Some(exit) <==> Outcome(g, c) == Some(exit) || Gives(g, step, c, exit)
  {
    if !g.worker.Idle? {
      InHandIsUnsettled(g);
    }
    assert forall d :: d in g.results ==> d in g.settled && d in g.offered;
  }

  // One of the first n steps decides the exit.
  ghost predicate Given(gates: seq<Gate>, steps: seq<Step>, n: nat, c: nat, exit: Exit)
    requires n <= |steps| < |gates|
  {
    exists i :: 0 <= i < n && Gives(gates[i], steps[i], c, exit)
  }

  // In every run, what a command's caller gets is exactly what the command's own effect ended with, or the
  // startup failure it met.
  lemma {:induction false} OutcomeIsWhatWasGiven(gates: seq<Gate>, steps: seq<Step>, n: nat, c: nat, exit: Exit)
    requires IsRun(gates, steps) && n <= |steps|
    ensures Outcome(gates[n], c) == Some(exit) <==> Given(gates, steps, n, c, exit)
    decreases n
  {
    if n > 0 {
      OutcomeIsWhatWasGiven(gates, steps, n - 1, c, exit);
      RunsStaySafe(gates, steps);
      OutcomeAfter(gates[n - 1], steps[n - 1], c, exit);
      GivenByNow(gates, steps, n - 1, c, exit);
    }
  }

  lemma GivenByNow(gates: seq<Gate>, steps: seq<Step>, k: nat, c: nat, exit: Exit)
    requires k < |steps| < |gates|
    ensures Given(gates, steps, k + 1, c, exit) <==>
              Given(gates, steps, k, c, exit) || Gives(gates[k], steps[k], c, exit)
  {
    if i :| 0 <= i < k + 1 && Gives(gates[i], steps[i], c, exit) {
      assert i == k || Given(gates, steps, k, c, exit);
    }
  }

  // A command's effect is started exactly by the worker that holds it once the server is ready, or at once
  // by a command that comes when it is ready.
  lemma StartedAfter(g: Gate, step: Step, c: nat)
    requires Inv(g) && Enabled(g, step)
    ensures c in Next(g, step).started <==>
              || c in g.started
              || (step == WorkerWakes && g.worker == Holding(c) && g.latch == Succeeded)
              || (step == Enqueue(c) && g.readiness == Ready)
    ensures step == Enqueue(c) && g.readiness == Ready ==> Enabled(Next(g, step), DirectFinishes(c, Success("")))
  {
  }

  // ---- From the decision to the results ----

  function Decided(g: Gate): Gate
    requires !g.readiness.Pending?
  {
    if !g.latch.Unset? then g
    else if g.readiness.Ready? then Next(g, CompleteReady)
    else Next(g, CompleteFailed)
  }

  // Once the server is ready or has failed, one step opens or fails the gate, and then all that is queued is
  // settled: with the failure, if it failed.
  lemma DecisionSettlesAll(g: Gate, exits: nat -> Exit)
    requires Inv(g) && !g.readiness.Pending?
    ensures var h := Decided(g);
            && Inv(h) && h.latch != Unset && h.offered == g.offered && (h.latch == Succeeded <==> g.readiness.Ready?)
            && var d := Drain(h, exits);
               && d.settled == g.offered
               && (g.readiness.Failed? ==>
                     d.started == [] && forall c :: c in g.offered ==>
                       c in d.results && d.results[c] == StartupFailure(g.readiness.error))
  {
    if g.latch.Unset? {
      StepKeepsInv(g, if g.readiness.Ready? then CompleteReady else CompleteFailed);
    }
    EverythingQueuedIsSettled(Decided(g), exits);
    DrainKeepsReadiness(Decided(g), exits);
  }

  lemma {:induction false} DrainKeepsReadiness(g: Gate, exits: nat -> Exit)
    requires g.latch != Unset
    ensures Drain(g, exits).readiness == g.readiness
    decreases Work(g)
  {
    if Work(g) > 0 {
      WorkerIsNeverStuck(g, exits(Work(g)));
      DrainKeepsReadiness(Next(g, WorkerStep(g, exits(Work(g)))), exits);
    }
  }
}
