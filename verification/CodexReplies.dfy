// What becomes of every request the app-server makes, and what the session writes to it.
module CodexReplies {
  import opened Text
  import opened Decimal
  import opened CodexPeer

  predicate Supported(methodName: string) {
    methodName in {
      "item/commandExecution/requestApproval", "item/fileRead/requestApproval", "item/fileChange/requestApproval",
      "item/tool/requestUserInput"}
  }

  // The request waits for the user.
  ghost predicate Parked(s: Session, arrival: nat) {
    || (exists u :: u in s.approvals && s.approvals[u].arrival == arrival)
    || (exists u :: u in s.userInputs && s.userInputs[u].arrival == arrival)
  }

  // The user decides about this request, on an open session.
  ghost predicate IsTheAnswer(s: Session, step: Step, arrival: nat) {
    match step
    case Approves(u, _, _) => s.open && u in s.approvals && s.approvals[u].arrival == arrival
    case Answers(u, _, _) => s.open && u in s.userInputs && s.userInputs[u].arrival == arrival
    case _ => false
  }

  // The request comes in with this step.
  ghost predicate Arrives(s: Session, step: Step, arrival: nat) {
    step.Requests? && arrival == |s.arrived|
  }

  predicate CanWrite(step: Step) {
    match step
    case Sends(_, writable) => writable
    case Requests(_, _, writable) => writable
    case Approves(_, _, writable) => writable
    case Answers(_, _, writable) => writable
    case _ => false
  }

  // The step loses the request: the session is stopped while it waits, or its answer cannot be written.
  ghost predicate Drops(s: Session, step: Step, arrival: nat) {
    || (step.Stops? && s.open && Parked(s, arrival))
    || (IsTheAnswer(s, step, arrival) && !CanWrite(step))
    || (Arrives(s, step, arrival) && !Supported(step.request.methodName) && !CanWrite(step))
  }

  ghost predicate Parks(s: Session, step: Step, arrival: nat) {
    Arrives(s, step, arrival) && Supported(step.request.methodName)
  }

  // The step answers the request.
  ghost predicate Settles(s: Session, step: Step, arrival: nat) {
    || (IsTheAnswer(s, step, arrival) && CanWrite(step))
    || (Arrives(s, step, arrival) && !Supported(step.request.methodName) && CanWrite(step))
  }

  // ---- One step ----

  lemma ParkedAfter(s: Session, step: Step, arrival: nat)
    requires Sound(s) && Enabled(s, step)
    ensures Parked(Next(s, step), arrival) <==>
              || Parks(s, step, arrival)
              || (Parked(s, arrival) && !Drops(s, step, arrival) && !Settles(s, step, arrival))
  {
    match step
    case Requests(request, uuid, _) => ParkedAfterRequest(s, step, arrival);
    case Approves(uuid, _, _) => ParkedAfterDecision(s, step, arrival);
    case Answers(uuid, _, _) => ParkedAfterAnswers(s, step, arrival);
    case _ => ParkedAfterOther(s, step, arrival);
  }

  lemma ParkedAfterOther(s: Session, step: Step, arrival: nat)
    requires !step.Requests? && !step.Approves? && !step.Answers?
    ensures Parked(Next(s, step), arrival) <==> Parked(s, arrival) && !(step.Stops? && s.open)
  {
    assert step.Stops? && s.open ==> Next(s, step).approvals == map[] && Next(s, step).userInputs == map[];
    assert !(step.Stops? && s.open) ==>
             Next(s, step).approvals == s.approvals && Next(s, step).userInputs == s.userInputs;
  }

  lemma ParkedIsUnanswered(s: Session, arrival: nat)
    requires Sound(s) && Parked(s, arrival)
    ensures arrival < |s.arrived| && !Answered(s, arrival)
  {
    if u :| u in s.approvals && s.approvals[u].arrival == arrival {
      assert WaitsFor(s, s.approvals[u]);
    } else {
      var u :| u in s.userInputs && s.userInputs[u].arrival == arrival;
      assert WaitsFor(s, s.userInputs[u]);
    }
  }

  lemma ParkedAfterRequest(s: Session, step: Step, arrival: nat)
    requires Sound(s) && Enabled(s, step) && step.Requests?
    ensures Parked(Next(s, step), arrival) <==> Parks(s, step, arrival) || Parked(s, arrival)
    ensures Parked(s, arrival) ==> arrival < |s.arrived|
  {
    if Parked(s, arrival) {
      ParkedIsUnanswered(s, arrival);
    }
    var t := Next(s, step);
    RequestIsParked(s, step.request, step.uuid, t, step.writable);
    if Supported(step.request.methodName) {
      var w := Waiting(step.request.id, |s.arrived|);
      if t.userInputs == s.userInputs {
        ParkedWithApproval(s, t, step.uuid, w, arrival);
      } else {
        ParkedWithInput(s, t, step.uuid, w, arrival);
      }
    }
  }

  lemma RequestIsParked(s: Session, request: Incoming, uuid: string, t: Session, writable: bool)
    requires t == HandleServerRequest(s, request, uuid, writable)
    ensures var w := Waiting(request.id, |s.arrived|);
            if Supported(request.methodName) then
              || (t.approvals == s.approvals[uuid := w] && t.userInputs == s.userInputs)
              || (t.approvals == s.approvals && t.userInputs == s.userInputs[uuid := w])
            else t.approvals == s.approvals && t.userInputs == s.userInputs
  {
  }

  lemma ParkedWithApproval(s: Session, t: Session, uuid: string, w: Waiting, arrival: nat)
    requires uuid !in s.approvals && t.approvals == s.approvals[uuid := w] && t.userInputs == s.userInputs
    ensures Parked(t, arrival) <==> Parked(s, arrival) || arrival == w.arrival
  {
    assert t.approvals[uuid].arrival == w.arrival;
    assert forall u :: u in s.approvals ==> u in t.approvals && t.approvals[u] == s.approvals[u];
  }

  lemma ParkedWithInput(s: Session, t: Session, uuid: string, w: Waiting, arrival: nat)
    requires uuid !in s.userInputs && t.userInputs == s.userInputs[uuid := w] && t.approvals == s.approvals
    ensures Parked(t, arrival) <==> Parked(s, arrival) || arrival == w.arrival
  {
    assert t.userInputs[uuid].arrival == w.arrival;
    assert forall u :: u in s.userInputs ==> u in t.userInputs && t.userInputs[u] == s.userInputs[u];
  }

  lemma ParkedAfterDecision(s: Session, step: Step, arrival: nat)
    requires Sound(s) && step.Approves?
    ensures Parked(Next(s, step), arrival) <==> Parked(s, arrival) && !IsTheAnswer(s, step, arrival)
  {
    var t := Next(s, step);
    if u :| u in s.approvals && s.approvals[u].arrival == arrival && !IsTheAnswer(s, step, arrival) {
      assert u in t.approvals && t.approvals[u].arrival == arrival;
    }
    if u :| u in t.approvals && t.approvals[u].arrival == arrival {
      assert u in s.approvals && s.approvals[u].arrival == arrival;
    }
  }

  lemma ParkedAfterAnswers(s: Session, step: Step, arrival: nat)
    requires Sound(s) && step.Answers?
    ensures Parked(Next(s, step), arrival) <==> Parked(s, arrival) && !IsTheAnswer(s, step, arrival)
  {
    var t := Next(s, step);
    if u :| u in s.userInputs && s.userInputs[u].arrival == arrival && !IsTheAnswer(s, step, arrival) {
      assert u in t.userInputs && t.userInputs[u].arrival == arrival;
    }
    if u :| u in t.userInputs && t.userInputs[u].arrival == arrival {
      assert u in s.userInputs && s.userInputs[u].arrival == arrival;
    }
  }

  // What a step has to write: the request that is sent, or the one reply to the request it answers, with
  // that request's id and what the user said.
  ghost predicate Writes(s: Session, step: Step, m: Written) {
    && CanWrite(step)
    && match step
       case Sends(_, _) => m == Request(s.out.nextRequestId)
       case Requests(request, _, _) =>
         !Supported(request.methodName) && m == Reply(request.id, |s.arrived|, Unsupported(request.methodName))
       case Approves(_, decision, _) =>
         m.Reply? && IsTheAnswer(s, step, m.arrival) && m.arrival < |s.arrived|
         && m == Reply(s.arrived[m.arrival].id, m.arrival, Decision(decision))
       case Answers(_, answers, _) =>
         m.Reply? && IsTheAnswer(s, step, m.arrival) && m.arrival < |s.arrived|
         && m == Reply(s.arrived[m.arrival].id, m.arrival, InputAnswers(answers))
       case _ => false
  }

  // Each step writes that one message, if there is one, and nothing otherwise.
  lemma WrittenAfter(s: Session, step: Step)
    requires Sound(s) && Enabled(s, step)
    ensures WritesExactly(s, step, Next(s, step))
  {
    assert WaitsForAll(s);
    match step
    case Approves(_, _, _) => AnswerWritten(s, step, Next(s, step));
    case Answers(_, _, _) => AnswerWritten(s, step, Next(s, step));
    case _ => OtherWritten(s, step, Next(s, step));
  }

  ghost predicate WritesExactly(s: Session, step: Step, t: Session) {
    || (t.written == s.written && forall m :: !Writes(s, step, m))
    || (exists m :: Writes(s, step, m) && t.written == s.written + [m])
  }

  lemma AnswerWritten(s: Session, step: Step, t: Session)
    requires WaitsForAll(s) && t == Next(s, step) && (step.Approves? || step.Answers?)
    ensures WritesExactly(s, step, t)
  {
    if t.written != s.written {
      assert Writes(s, step, t.written[|s.written|]);
    }
  }

  lemma OtherWritten(s: Session, step: Step, t: Session)
    requires t == Next(s, step) && !step.Approves? && !step.Answers?
    ensures WritesExactly(s, step, t)
  {
    if t.written != s.written {
      assert Writes(s, step, t.written[|s.written|]);
    }
  }

  ghost predicate WaitsForAll(s: Session) {
    && (forall u :: u in s.approvals ==> Known(s, s.approvals[u].jsonRpcId, s.approvals[u].arrival))
    && (forall u :: u in s.userInputs ==> Known(s, s.userInputs[u].jsonRpcId, s.userInputs[u].arrival))
  }

  lemma AnsweredAfter(s: Session, step: Step, arrival: nat)
    requires Sound(s) && Enabled(s, step)
    ensures Answered(Next(s, step), arrival) <==> Answered(s, arrival) || Settles(s, step, arrival)
  {
    WrittenAfter(s, step);
    var t := Next(s, step);
    if m :| Writes(s, step, m) && t.written == s.written + [m] {
      AnsweredAfterWrite(s, m, true, arrival);
      assert Answered(Write(s, m, true), arrival) == Answered(t, arrival);
      MessageSettles(s, step, m, arrival);
    } else {
      assert Answered(t, arrival) == Answered(s, arrival);
      if Settles(s, step, arrival) {
        AnswerIsWritten(s, step, arrival);
      }
    }
  }

  lemma MessageSettles(s: Session, step: Step, m: Written, arrival: nat)
    requires Sound(s) && Writes(s, step, m)
    ensures Settles(s, step, arrival) <==> m.Reply? && m.arrival == arrival
  {
  }

  lemma AnswerIsWritten(s: Session, step: Step, arrival: nat)
    requires Sound(s) && Settles(s, step, arrival)
    ensures exists m :: Writes(s, step, m)
  {
    if IsTheAnswer(s, step, arrival) {
      assert Parked(s, arrival);
      ParkedIsUnanswered(s, arrival);
      if step.Approves? {
        assert Writes(s, step, Reply(s.arrived[arrival].id, arrival, Decision(step.decision)));
      } else {
        assert Writes(s, step, Reply(s.arrived[arrival].id, arrival, InputAnswers(step.answers)));
      }
    } else {
      assert Writes(s, step, Reply(step.request.id, arrival, Unsupported(step.request.methodName)));
    }
  }

  // ---- Whole runs ----

  // A request that has come in waits, is answered or was dropped, and only one of these; one that has not
  // is none of them.
  ghost predicate HasOneFate(s: Session, arrival: nat, dropped: bool) {
    if arrival >= |s.arrived| then !Parked(s, arrival) && !Answered(s, arrival) && !dropped
    else
      || (Parked(s, arrival) && !Answered(s, arrival) && !dropped)
      || (!Parked(s, arrival) && Answered(s, arrival) && !dropped)
      || (!Parked(s, arrival) && !Answered(s, arrival) && dropped)
  }

  lemma StepKeepsFate(s: Session, step: Step, t: Session, arrival: nat, dropped: bool)
    requires Sound(s) && Enabled(s, step) && t == Next(s, step) && HasOneFate(s, arrival, dropped)
    ensures HasOneFate(t, arrival, dropped || Drops(s, step, arrival))
  {
    ParkedAfter(s, step, arrival);
    AnsweredAfter(s, step, arrival);
    OneThingHappens(s, step, arrival);
    ArrivedAfter(s, step, t);
  }

  lemma ArrivedAfter(s: Session, step: Step, t: Session)
    requires t == Next(s, step)
    ensures |t.arrived| == |s.arrived| + (if step.Requests? then 1 else 0)
  {
    match step
    case Requests(request, uuid, writable) => RequestArrives(s, request, uuid, writable);
    case _ => OthersDoNotArrive(s, step, t);
  }

  lemma RequestArrives(s: Session, request: Incoming, uuid: string, writable: bool)
    ensures |HandleServerRequest(s, request, uuid, writable).arrived| == |s.arrived| + 1
  {
  }

  lemma OthersDoNotArrive(s: Session, step: Step, t: Session)
    requires t == Next(s, step) && !step.Requests?
    ensures t.arrived == s.arrived
  {
  }

  // Only a request that waits or comes in is parked, answered or dropped, and only one of these happens.
  lemma OneThingHappens(s: Session, step: Step, arrival: nat)
    ensures Parks(s, step, arrival) ==>
              step.Requests? && arrival == |s.arrived| && !Drops(s, step, arrival) && !Settles(s, step, arrival)
    ensures Drops(s, step, arrival) || Settles(s, step, arrival) ==>
              Parked(s, arrival) || (step.Requests? && arrival == |s.arrived|)
    ensures !(Drops(s, step, arrival) && Settles(s, step, arrival))
    ensures step.Requests? && arrival == |s.arrived| ==>
              Parks(s, step, arrival) || Drops(s, step, arrival) || Settles(s, step, arrival)
  {
    AnswerIsParked(s, step, arrival);
  }

  lemma AnswerIsParked(s: Session, step: Step, arrival: nat)
    ensures IsTheAnswer(s, step, arrival) ==> Parked(s, arrival)
  {
  }

  // One of the first n steps drops the request.
  ghost predicate Dropped(states: seq<Session>, steps: seq<Step>, n: nat, arrival: nat)
    requires n <= |steps| < |states|
  {
    exists i :: 0 <= i < n && Drops(states[i], steps[i], arrival)
  }

  // In every run, every request that came in waits for the user, has been answered, or was dropped by a stop
  // or because its answer could not be written; and exactly one of these.
  lemma {:induction false} EveryRequestHasOneFate(states: seq<Session>, steps: seq<Step>, n: nat, arrival: nat)
    requires IsRun(states, steps) && n <= |steps|
    ensures HasOneFate(states[n], arrival, Dropped(states, steps, n, arrival))
    decreases n
  {
    if n == 0 {
      assert !Answered(FRESH, arrival);
    } else {
      var k := n - 1;
      EveryRequestHasOneFate(states, steps, k, arrival);
      RunsStaySound(states, steps);
      StepKeepsFate(states[k], steps[k], states[n], arrival, Dropped(states, steps, k, arrival));
      DroppedByNow(states, steps, k, arrival);
    }
  }

  lemma DroppedByNow(states: seq<Session>, steps: seq<Step>, k: nat, arrival: nat)
    requires k < |steps| < |states|
    ensures Dropped(states, steps, k + 1, arrival) <==>
              Dropped(states, steps, k, arrival) || Drops(states[k], steps[k], arrival)
  {
    if i :| 0 <= i < k + 1 && Drops(states[i], steps[i], arrival) {
      assert i == k || Dropped(states, steps, k, arrival);
    }
  }

  // In particular, the user's answer to a waiting request, on an open session that can be written to, is
  // written: one reply with that request's id and what the user said, and the request waits no longer.
  lemma AnswerReachesItsRequest(s: Session, step: Step, arrival: nat)
    requires Sound(s) && IsTheAnswer(s, step, arrival)
    ensures arrival < |s.arrived|
    ensures var t := Next(s, step);
            var content := if step.Approves? then Decision(step.decision) else InputAnswers(step.answers);
            var reply := Reply(s.arrived[arrival].id, arrival, content);
            && t.written == s.written + (if CanWrite(step) then [reply] else [])
            && !Parked(t, arrival)
  {
    AnswerIsParked(s, step, arrival);
    ParkedIsUnanswered(s, arrival);
    ParkedAfter(s, step, arrival);
    WrittenAfter(s, step);
    MessageIsTheAnswer(s, step, arrival);
  }

  lemma MessageIsTheAnswer(s: Session, step: Step, arrival: nat)
    requires Sound(s) && IsTheAnswer(s, step, arrival) && arrival < |s.arrived|
    ensures var content := if step.Approves? then Decision(step.decision) else InputAnswers(step.answers);
            forall m :: Writes(s, step, m) <==> CanWrite(step) && m == Reply(s.arrived[arrival].id, arrival, content)
  {
  }

  // From a request's arrival to its answer: the user's decision on an approval, or the user's answers, reach
  // the app-server under the id that came with the request.
  lemma RequestCanBeAnswered(s: Session, request: Incoming, uuid: string, said: string, writable: bool)
    requires Sound(s) && Enabled(s, Requests(request, uuid, writable)) && s.open && Supported(request.methodName)
    ensures var t, arrival := Next(s, Requests(request, uuid, writable)), |s.arrived|;
            if request.methodName == "item/tool/requestUserInput" then
              Next(t, Answers(uuid, said, true)).written == s.written + [Reply(request.id, arrival, InputAnswers(said))]
            else
              Next(t, Approves(uuid, said, true)).written == s.written + [Reply(request.id, arrival, Decision(said))]
  {
  }

  // A session stays open until it is stopped or exits, and then for ever closed, answering nothing.
  lemma OpenAfter(s: Session, step: Step)
    ensures Next(s, step).open <==> s.open && !step.Stops? && !step.Exits?
    ensures !s.open && (step.Approves? || step.Answers? || step.Stops?) ==> Next(s, step) == s
  {
  }

  // ---- Outgoing requests ----

  // What is pending under a key was entered by the send that took its id, with the method asked for, and never
  // changes.
  lemma EntryAfter(s: Session, step: Step, key: string)
    requires Sound(s) && Enabled(s, step) && key in Next(s, step).out.pending
    ensures var entry := Next(s, step).out.pending[key];
            || (key in s.out.pending && entry == s.out.pending[key])
            || (step.Sends? && key == NatToString(s.out.nextRequestId)
                && entry == Pending(s.out.nextRequestId, step.methodName))
  {
    if step.Requests? || step.Approves? || step.Answers? || step.Exits? {
      IncomingKeepsOut(s, step, Next(s, step));
    }
  }

  lemma IncomingKeepsOut(s: Session, step: Step, t: Session)
    requires t == Next(s, step) && (step.Requests? || step.Approves? || step.Answers? || step.Exits?)
    ensures t.out == s.out
  {
  }

  // The settling call that a step makes to a request that was sent before.
  ghost predicate Calls(s: Session, step: Step, id: nat, outcome: Outcome) {
    var key := NatToString(id);
    match step
    case Timer(fired) => fired == id && outcome == TimedOut
    case Stops => s.open && key in s.out.pending && outcome == Stopped
    case Responds(jsonRpcId, error, result) =>
      && IdKey(jsonRpcId) == key && key in s.out.pending
      && (error == None || error == Some("") ==> outcome == Resolved(result))
      && (error != None && error != Some("") ==>
            outcome == Failed(s.out.pending[key].methodName + " failed: " + error.value))
    case _ => false
  }

  // The request received exactly that call, or none if there is none.
  ghost predicate Called(s: Session, step: Step, id: nat, after: map<nat, seq<Outcome>>) {
    && id in s.out.settled && id in after
    && (|| (after[id] == s.out.settled[id] && forall outcome :: !Calls(s, step, id, outcome))
        || (exists outcome :: Calls(s, step, id, outcome) && after[id] == s.out.settled[id] + [outcome]))
  }

  // Each step settles a request by exactly the call it makes, or not at all.
  lemma SettledAfter(s: Session, step: Step, id: nat)
    requires Sound(s) && Enabled(s, step) && id in s.out.settled
    ensures Called(s, step, id, Next(s, step).out.settled)
  {
    match step
    case Responds(jsonRpcId, error, result) => ResponseCalls(s, jsonRpcId, error, result, id);
    case Timer(fired) => TimerCalls(s, fired, id);
    case Stops => StopCalls(s, id);
    case _ => OthersDoNotCall(s, step, Next(s, step), id);
  }

  lemma OthersDoNotCall(s: Session, step: Step, t: Session, id: nat)
    requires t == Next(s, step) && id in s.out.settled && id < s.out.nextRequestId
    requires !step.Responds? && !step.Timer? && !step.Stops?
    ensures Called(s, step, id, t.out.settled)
  {
  }

  lemma TimerCalls(s: Session, fired: nat, id: nat)
    requires Sound(s) && id in s.out.settled && fired in s.out.timers
    ensures Called(s, Timer(fired), id, TimerFires(s, fired).out.settled)
  {
    if fired == id {
      assert Calls(s, Timer(fired), id, TimedOut);
    }
  }

  lemma StopCalls(s: Session, id: nat)
    requires Sound(s) && id in s.out.settled
    ensures Called(s, Stops, id, StopSession(s).out.settled)
  {
    PendingIdIff(s.out, id);
    assert s.out.settled[id] + [] == s.out.settled[id];
    if s.open && NatToString(id) in s.out.pending {
      assert Calls(s, Stops, id, Stopped);
    }
  }

  lemma ResponseCalls(s: Session, jsonRpcId: JsonId, error: Option<string>, result: string, id: nat)
    requires Sound(s) && id in s.out.settled
    ensures Called(s, Responds(jsonRpcId, error, result), id, HandleResponse(s, jsonRpcId, error, result).out.settled)
  {
    var key := IdKey(jsonRpcId);
    if key in s.out.pending {
      KeysAreDistinct(s.out.pending[key].id, id);
      if key == NatToString(id) {
        assert Calls(s, Responds(jsonRpcId, error, result), id, OutcomeOf(s.out.pending[key], error, result));
      }
    }
  }
}
