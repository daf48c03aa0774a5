// One Codex app-server session as a JSON-RPC peer: outgoing requests with timeouts, incoming server
// requests waiting for the user, and stopping.
module CodexPeer {
  import opened Text
  import opened Decimal

  // The id member of a JSON-RPC message; responses are looked up by its string form.
  datatype JsonId = NumberId(number: int) | StringId(text: string)

  function IdKey(id: JsonId): string {
    match id
    case NumberId(n) => if n < 0 then "-" + NatToString(-n) else NatToString(n)
    case StringId(s) => s
  }

  datatype Outcome = Resolved(result: string) | Failed(message: string) | TimedOut | Stopped | WriteFailed

  datatype Pending = Pending(id: nat, methodName: string)

  // An incoming request waiting for the user: which arrival it was, and the id to answer with.
  datatype Waiting = Waiting(jsonRpcId: JsonId, arrival: nat)

  datatype Incoming = Incoming(id: JsonId, methodName: string)

  // What a reply says: the user's decision, the user's answers, or that the method is not supported.
  datatype Content = Decision(decision: string) | InputAnswers(answers: string) | Unsupported(methodName: string)

  datatype Written = Request(id: nat) | Reply(jsonRpcId: JsonId, arrival: nat, content: Content)

  // The outgoing requests: those still pending, the timers still armed, for each request sent the
  // calls made to its resolve or reject so far, and which requests could not be written.
  datatype Outgoing = Outgoing(
    nextRequestId: nat,
    pending: map<string, Pending>,
    timers: set<nat>,
    settled: map<nat, seq<Outcome>>,
    unwritten: set<nat>)

  datatype Session = Session(
    out: Outgoing,
    approvals: map<string, Waiting>,
    userInputs: map<string, Waiting>,
    arrived: seq<Incoming>,           // the server requests received so far
    written: seq<Written>,            // the messages written to the server so far
    open: bool)                       // the session can still be looked up

  const FRESH := Session(Outgoing(1, map[], {}, map[], {}), map[], map[], [], [], true)

  const USER_INPUT_METHOD := "item/tool/requestUserInput"

  predicate NeedsApproval(methodName: string) {
    || methodName == "item/commandExecution/requestApproval"
    || methodName == "item/fileRead/requestApproval"
    || methodName == "item/fileChange/requestApproval"
  }

  function Settle(settled: map<nat, seq<Outcome>>, id: nat, outcome: Outcome): map<nat, seq<Outcome>> {
    settled[id := (if id in settled then settled[id] else []) + [outcome]]
  }

  function Write(s: Session, m: Written, writable: bool): Session {
    if writable then s.(written := s.written + [m]) else s
  }

  // A failed write rejects the request, but leaves its entry and its timer in place.
  function Enter(o: Outgoing, methodName: string, writable: bool): Outgoing {
    var id := o.nextRequestId;
    Outgoing(id + 1, o.pending[NatToString(id) := Pending(id, methodName)], o.timers + {id},
             o.settled[id := if writable then [] else [WriteFailed]],
             if writable then o.unwritten else o.unwritten + {id})
  }

  function SendRequest(s: Session, methodName: string, writable: bool): Session {
    Write(s.(out := Enter(s.out, methodName, writable)), Request(s.out.nextRequestId), writable)
  }

  // Takes a request out of the tables and settles it.
  function TakeOut(o: Outgoing, id: nat, key: string, outcome: Outcome): Outgoing {
    o.(timers := o.timers - {id}, pending := o.pending - {key}, settled := Settle(o.settled, id, outcome))
  }

  function HandleResponse(s: Session, id: JsonId, error: Option<string>, result: string): Session {
    var key := IdKey(id);
    if key !in s.out.pending then s
    else
      var p := s.out.pending[key];
      s.(out := TakeOut(s.out, p.id, key, OutcomeOf(p, error, result)))
  }

  function OutcomeOf(p: Pending, error: Option<string>, result: string): Outcome {
    if error.Some? && error.value != "" then Failed(p.methodName + " failed: " + error.value) else Resolved(result)
  }

  function TimerFires(s: Session, id: nat): Session {
    s.(out := TakeOut(s.out, id, NatToString(id), TimedOut))
  }

  function HandleServerRequest(s: Session, request: Incoming, uuid: string, writable: bool): Session {
    var entry := Waiting(request.id, |s.arrived|);
    var s' := s.(arrived := s.arrived + [request]);
    if NeedsApproval(request.methodName) then s'.(approvals := s.approvals[uuid := entry])
    else if request.methodName == USER_INPUT_METHOD then s'.(userInputs := s.userInputs[uuid := entry])
    else Write(s', Reply(request.id, |s.arrived|, Unsupported(request.methodName)), writable)
  }

  function RespondToRequest(s: Session, uuid: string, decision: string, writable: bool): Session {
    if !s.open || uuid !in s.approvals then s
    else
      var w := s.approvals[uuid];
      Write(s.(approvals := s.approvals - {uuid}), Reply(w.jsonRpcId, w.arrival, Decision(decision)), writable)
  }

  function RespondToUserInput(s: Session, uuid: string, answers: string, writable: bool): Session {
    if !s.open || uuid !in s.userInputs then s
    else
      var w := s.userInputs[uuid];
      Write(s.(userInputs := s.userInputs - {uuid}), Reply(w.jsonRpcId, w.arrival, InputAnswers(answers)), writable)
  }

  ghost function PendingIds(o: Outgoing): set<nat> {
    set k | k in o.pending :: o.pending[k].id
  }

  function SettleAll(settled: map<nat, seq<Outcome>>, ids: set<nat>): map<nat, seq<Outcome>> {
    map id | id in settled :: settled[id] + (if id in ids then [Stopped] else [])
  }

  lemma SettleOneMore(settled: map<nat, seq<Outcome>>, ids: set<nat>, id: nat)
    requires id in settled && id !in ids
    ensures SettleAll(settled, ids + {id}) == Settle(SettleAll(settled, ids), id, Stopped)
  {
    assert settled[id] + [] == settled[id];
  }

  ghost function Abandon(o: Outgoing): Outgoing {
    o.(timers := o.timers - PendingIds(o), settled := SettleAll(o.settled, PendingIds(o)), pending := map[])
  }

  ghost function StopSession(s: Session): Session {
    if !s.open then s
    else s.(out := Abandon(s.out), approvals := map[], userInputs := map[], open := false)
  }

  // ---- The session object ----

  class CodexSession {
    var nextRequestId: nat
    var pending: map<string, Pending>
    var timers: set<nat>
    var settled: map<nat, seq<Outcome>>
    var unwritten: set<nat>
    var pendingApprovals: map<string, Waiting>
    var pendingUserInputs: map<string, Waiting>
    var arrived: seq<Incoming>
    var written: seq<Written>
    var open: bool

    function State(): Session
      reads this
    {
      var out := Outgoing(nextRequestId, pending, timers, settled, unwritten);
      Session(out, pendingApprovals, pendingUserInputs, arrived, written, open)
    }

    constructor ()
      ensures State() == FRESH
    {
      nextRequestId, pending, timers, settled, unwritten := 1, map[], {}, map[], {};
      pendingApprovals, pendingUserInputs, arrived, written, open := map[], map[], [], [], true;
    }

    method Send(methodName: string, writable: bool) returns (id: nat)
      modifies this
      ensures id == old(nextRequestId) && State() == SendRequest(old(State()), methodName, writable)
    {
      id := nextRequestId;
      nextRequestId := nextRequestId + 1;
      settled := settled[id := []];
      assert [] + [WriteFailed] == [WriteFailed];
      timers := timers + {id};
      pending := pending[NatToString(id) := Pending(id, methodName)];
      if writable {
        written := written + [Request(id)];
      } else {
        settled := Settle(settled, id, WriteFailed);
        unwritten := unwritten + {id};
      }
    }

    method OnResponse(id: JsonId, error: Option<string>, result: string)
      modifies this
      ensures State() == HandleResponse(old(State()), id, error, result)
    {
      var key := IdKey(id);
      if key !in pending {
        return;
      }
      var p := pending[key];
      timers := timers - {p.id};
      pending := pending - {key};
      if error.Some? && error.value != "" {
        settled := Settle(settled, p.id, Failed(p.methodName + " failed: " + error.value));
        return;
      }
      settled := Settle(settled, p.id, Resolved(result));
    }

    method OnTimer(id: nat)
      requires id in timers
      modifies this
      ensures State() == TimerFires(old(State()), id)
    {
      timers := timers - {id};
      pending := pending - {NatToString(id)};
      settled := Settle(settled, id, TimedOut);
    }

    method OnServerRequest(request: Incoming, uuid: string, writable: bool)
      modifies this
      ensures State() == HandleServerRequest(old(State()), request, uuid, writable)
    {
      var entry := Waiting(request.id, |arrived|);
      arrived := arrived + [request];
      if NeedsApproval(request.methodName) {
        pendingApprovals := pendingApprovals[uuid := entry];
        return;
      }
      if request.methodName == USER_INPUT_METHOD {
        pendingUserInputs := pendingUserInputs[uuid := entry];
        return;
      }
      if writable {
        written := written + [Reply(request.id, |arrived| - 1, Unsupported(request.methodName))];
      }
    }

    method Respond(uuid: string, decision: string, writable: bool)
      modifies this
      ensures State() == RespondToRequest(old(State()), uuid, decision, writable)
    {
      if !open || uuid !in pendingApprovals {
        return;
      }
      var w := pendingApprovals[uuid];
      pendingApprovals := pendingApprovals - {uuid};
      if writable {
        written := written + [Reply(w.jsonRpcId, w.arrival, Decision(decision))];
      }
    }

    method RespondInput(uuid: string, answers: string, writable: bool)
      modifies this
      ensures State() == RespondToUserInput(old(State()), uuid, answers, writable)
    {
      if !open || uuid !in pendingUserInputs {
        return;
      }
      var w := pendingUserInputs[uuid];
      pendingUserInputs := pendingUserInputs - {uuid};
      if writable {
        written := written + [Reply(w.jsonRpcId, w.arrival, InputAnswers(answers))];
      }
    }

    method Stop()
      requires OutgoingSound(State().out)
      modifies this
      ensures State() == StopSession(old(State()))
    {
      if !open {
        return;
      }
      RejectPending();
      assert IdsOutside(pending, {}) == PendingIds(State().out);
      pending := map[];
      pendingApprovals := map[];
      pendingUserInputs := map[];
      open := false;
    }

    // Clears the timer of every pending request and rejects it.
    method RejectPending()
      requires Named(pending, settled)
      modifies this`timers, this`settled
      ensures timers == old(timers) - IdsOutside(pending, {})
      ensures settled == SettleAll(old(settled), IdsOutside(pending, {}))
    {
      SettleNone(settled);
      var left := pending.Keys;
      ghost var done: set<nat> := {};
      while left != {}
        invariant left <= pending.Keys && done == IdsOutside(pending, left)
        invariant timers == old(timers) - done
        invariant settled == SettleAll(old(settled), done)
      {
        var k :| k in left;
        var id := pending[k].id;
        SettleOneMore(old(settled), done, id);
        done := done + {id};
        timers := timers - {id};
        settled := Settle(settled, id, Stopped);
        left := left - {k};
      }
    }
  }

  ghost function IdsOutside(pending: map<string, Pending>, left: set<string>): set<nat> {
    set k | k in pending && k !in left :: pending[k].id
  }

  lemma SettleNone(settled: map<nat, seq<Outcome>>)
    ensures SettleAll(settled, {}) == settled
  {
    assert forall id :: id in settled ==> settled[id] + [] == settled[id];
  }

  // ---- Soundness of the tables ----

  // How many settling calls a request receives in all: one, or two when it could not be written,
  // because the entry that stays behind is settled again.
  function CallsDue(o: Outgoing, id: nat): nat {
    if id in o.unwritten then 2 else 1
  }

  // Pending requests are kept under the text of their ids.
  ghost predicate Named(pending: map<string, Pending>, settled: map<nat, seq<Outcome>>) {
    forall k :: k in pending ==> k == NatToString(pending[k].id) && pending[k].id in settled
  }

  ghost predicate OutgoingSound(o: Outgoing) {
    && o.nextRequestId >= 1
    && (forall id :: id in o.settled <==> 1 <= id < o.nextRequestId)
    && Named(o.pending, o.settled)
    && (forall id :: id in o.timers || id in o.unwritten ==> id in o.settled)
    && (forall id :: id in o.settled ==> Accounted(o, id, NatToString(id)))
  }

  // The timer is armed while the entry is there, the calls made and still to come add up, and the
  // requests rejected by their own send are the ones that could not be written.
  ghost predicate Accounted(o: Outgoing, id: nat, key: string)
    requires id in o.settled
  {
    && (id in o.timers <==> key in o.pending)
    && |o.settled[id]| + (if key in o.pending then 1 else 0) == CallsDue(o, id)
    && (id in o.unwritten <==> o.settled[id] != [] && o.settled[id][0] == WriteFailed)
  }

  ghost predicate Known(s: Session, jsonRpcId: JsonId, arrival: nat) {
    arrival < |s.arrived| && s.arrived[arrival].id == jsonRpcId
  }

  ghost predicate Answered(s: Session, arrival: nat) {
    exists i :: 0 <= i < |s.written| && s.written[i].Reply? && s.written[i].arrival == arrival
  }

  ghost predicate WaitsFor(s: Session, w: Waiting) {
    Known(s, w.jsonRpcId, w.arrival) && !Answered(s, w.arrival)
  }

  ghost predicate IncomingSound(s: Session) {
    && (forall u :: u in s.approvals ==> WaitsFor(s, s.approvals[u]))
    && (forall u :: u in s.userInputs ==> WaitsFor(s, s.userInputs[u]))
    && (forall u, v :: u in s.approvals && v in s.userInputs ==> s.approvals[u].arrival != s.userInputs[v].arrival)
    && (forall u, v :: u in s.approvals && v in s.approvals && u != v ==>
          s.approvals[u].arrival != s.approvals[v].arrival)
    && (forall u, v :: u in s.userInputs && v in s.userInputs && u != v ==>
          s.userInputs[u].arrival != s.userInputs[v].arrival)
  }

  ghost predicate WrittenSound(s: Session) {
    && (forall i :: 0 <= i < |s.written| && s.written[i].Request? ==> s.written[i].id < s.out.nextRequestId)
    && (forall i :: 0 <= i < |s.written| && s.written[i].Reply? ==>
          Known(s, s.written[i].jsonRpcId, s.written[i].arrival))
    && (forall i, j :: 0 <= i < j < |s.written| && s.written[i].Request? && s.written[j].Request? ==>
          s.written[i].id < s.written[j].id)
    && (forall i, j :: 0 <= i < j < |s.written| && s.written[i].Reply? && s.written[j].Reply? ==>
          s.written[i].arrival != s.written[j].arrival)
  }

  ghost predicate Sound(s: Session) {
    OutgoingSound(s.out) && IncomingSound(s) && WrittenSound(s)
  }

  datatype Step =
    | Sends(methodName: string, writable: bool)
    | Responds(jsonRpcId: JsonId, error: Option<string>, result: string)
    | Timer(id: nat)
    | Requests(request: Incoming, uuid: string, writable: bool)
    | Approves(uuid: string, decision: string, writable: bool)
    | Answers(uuid: string, answers: string, writable: bool)
    | Stops
    | Exits

  // A timer fires only while armed, and random ids do not repeat among the waiting requests.
  ghost predicate Enabled(s: Session, step: Step) {
    match step
    case Timer(id) => id in s.out.timers
    case Requests(_, uuid, _) => uuid !in s.approvals && uuid !in s.userInputs
    case _ => true
  }

  ghost function Next(s: Session, step: Step): Session {
    match step
    case Sends(methodName, writable) => SendRequest(s, methodName, writable)
    case Responds(id, error, result) => HandleResponse(s, id, error, result)
    case Timer(id) => TimerFires(s, id)
    case Requests(request, uuid, writable) => HandleServerRequest(s, request, uuid, writable)
    case Approves(uuid, decision, writable) => RespondToRequest(s, uuid, decision, writable)
    case Answers(uuid, answers, writable) => RespondToUserInput(s, uuid, answers, writable)
    case Stops => StopSession(s)
    case Exits => s.(open := false)
  }

  // ---- Every step keeps the tables sound ----

  lemma KeysAreDistinct(a: nat, b: nat)
    ensures NatToString(a) == NatToString(b) ==> a == b
  {
    if NatToString(a) == NatToString(b) {
      PrintingIsInjective(a, b);
    }
  }

  lemma EnterKeepsSound(o: Outgoing, methodName: string, writable: bool)
    requires OutgoingSound(o)
    ensures OutgoingSound(Enter(o, methodName, writable))
  {
    var t := Enter(o, methodName, writable);
    forall id | id in t.settled ensures Accounted(t, id, NatToString(id)) {
      KeysAreDistinct(id, o.nextRequestId);
      if id != o.nextRequestId {
        assert Accounted(o, id, NatToString(id));
      }
    }
  }

  lemma TakeOutKeepsSound(o: Outgoing, id: nat, key: string, outcome: Outcome)
    requires OutgoingSound(o) && id in o.settled && key == NatToString(id) && key in o.pending && outcome != WriteFailed
    ensures OutgoingSound(TakeOut(o, id, key, outcome))
  {
    var t := TakeOut(o, id, key, outcome);
    assert Accounted(o, id, key);
    forall j | j in t.settled ensures Accounted(t, j, NatToString(j)) {
      KeysAreDistinct(j, id);
      if j != id {
        assert Accounted(o, j, NatToString(j));
      }
    }
  }

  lemma PendingIdIff(o: Outgoing, id: nat)
    requires OutgoingSound(o) && id in o.settled
    ensures id in PendingIds(o) <==> NatToString(id) in o.pending
  {
    var key := NatToString(id);
    if key in o.pending {
      KeysAreDistinct(o.pending[key].id, id);
    }
  }

  lemma AbandonKeepsSound(o: Outgoing)
    requires OutgoingSound(o)
    ensures OutgoingSound(Abandon(o))
  {
    var t := Abandon(o);
    forall id | id in t.settled ensures Accounted(t, id, NatToString(id)) {
      PendingIdIff(o, id);
      assert Accounted(o, id, NatToString(id));
    }
  }

  lemma StepKeepsOutgoing(s: Session, step: Step)
    requires OutgoingSound(s.out) && Enabled(s, step)
    ensures OutgoingSound(Next(s, step).out)
  {
    match step
    case Sends(methodName, writable) => EnterKeepsSound(s.out, methodName, writable);
    case Responds(id, error, result) =>
      var key := IdKey(id);
      if key in s.out.pending {
        var p := s.out.pending[key];
        TakeOutKeepsSound(s.out, p.id, key, OutcomeOf(p, error, result));
      }
    case Timer(id) =>
      assert Accounted(s.out, id, NatToString(id));
      TakeOutKeepsSound(s.out, id, NatToString(id), TimedOut);
    case Stops => AbandonKeepsSound(s.out);
    case _ =>
  }

  lemma AnsweredAfterWrite(s: Session, m: Written, writable: bool, arrival: nat)
    ensures Answered(Write(s, m, writable), arrival)
            <==> Answered(s, arrival) || (writable && m.Reply? && m.arrival == arrival)
  {
    var t := Write(s, m, writable);
    if writable {
      assert t.written[|s.written|] == m;
      forall i | 0 <= i < |s.written| && s.written[i].Reply? && s.written[i].arrival == arrival
          ensures Answered(t, arrival) {
        assert t.written[i] == s.written[i];
      }
    }
  }

  lemma WaitersOutlastWrite(s: Session, m: Written, writable: bool)
    requires m.Request? || forall u :: u in s.approvals ==> s.approvals[u].arrival != m.arrival
    requires m.Request? || forall u :: u in s.userInputs ==> s.userInputs[u].arrival != m.arrival
    requires IncomingSound(s)
    ensures IncomingSound(Write(s, m, writable))
  {
    forall u | u in s.approvals ensures WaitsFor(Write(s, m, writable), s.approvals[u]) {
      AnsweredAfterWrite(s, m, writable, s.approvals[u].arrival);
    }
    forall u | u in s.userInputs ensures WaitsFor(Write(s, m, writable), s.userInputs[u]) {
      AnsweredAfterWrite(s, m, writable, s.userInputs[u].arrival);
    }
  }

  ghost predicate Unclaimed(s: Session, arrival: nat) {
    && (forall u :: u in s.approvals ==> s.approvals[u].arrival != arrival)
    && (forall u :: u in s.userInputs ==> s.userInputs[u].arrival != arrival)
  }

  lemma AnswerKeepsIncoming(s: Session, w: Waiting, content: Content, writable: bool)
    requires IncomingSound(s) && WrittenSound(s) && WaitsFor(s, w) && Unclaimed(s, w.arrival)
    ensures IncomingSound(Write(s, Reply(w.jsonRpcId, w.arrival, content), writable))
    ensures WrittenSound(Write(s, Reply(w.jsonRpcId, w.arrival, content), writable))
  {
    WaitersOutlastWrite(s, Reply(w.jsonRpcId, w.arrival, content), writable);
  }

  lemma RespondKeepsIncoming(s: Session, uuid: string, decision: string, writable: bool)
    requires IncomingSound(s) && WrittenSound(s)
    ensures var t := RespondToRequest(s, uuid, decision, writable); IncomingSound(t) && WrittenSound(t)
  {
    if s.open && uuid in s.approvals {
      AnswerKeepsIncoming(s.(approvals := s.approvals - {uuid}), s.approvals[uuid], Decision(decision), writable);
    }
  }

  lemma RespondInputKeepsIncoming(s: Session, uuid: string, answers: string, writable: bool)
    requires IncomingSound(s) && WrittenSound(s)
    ensures var t := RespondToUserInput(s, uuid, answers, writable); IncomingSound(t) && WrittenSound(t)
  {
    if s.open && uuid in s.userInputs {
      AnswerKeepsIncoming(s.(userInputs := s.userInputs - {uuid}), s.userInputs[uuid], InputAnswers(answers), writable);
    }
  }

  // Dropping entries, or touching only the outgoing tables, keeps the incoming ones sound.
  lemma SmallerTables(s: Session, t: Session)
    requires IncomingSound(s) && t.written == s.written && t.arrived == s.arrived
    requires forall u :: u in t.approvals ==> u in s.approvals && t.approvals[u] == s.approvals[u]
    requires forall u :: u in t.userInputs ==> u in s.userInputs && t.userInputs[u] == s.userInputs[u]
    ensures IncomingSound(t)
  {
    assert forall a :: Answered(t, a) == Answered(s, a);
  }

  lemma RequestKeepsIncoming(s: Session, request: Incoming, uuid: string, writable: bool)
    requires IncomingSound(s) && WrittenSound(s) && uuid !in s.approvals && uuid !in s.userInputs
    ensures IncomingSound(HandleServerRequest(s, request, uuid, writable))
    ensures WrittenSound(HandleServerRequest(s, request, uuid, writable))
  {
    var s' := s.(arrived := s.arrived + [request]);
    var w := Waiting(request.id, |s.arrived|);
    ArrivalIsNew(s, request);
    if NeedsApproval(request.methodName) {
      NewApproval(s', uuid, w);
    } else if request.methodName == USER_INPUT_METHOD {
      NewUserInput(s', uuid, w);
    } else {
      AnswerKeepsIncoming(s', w, Unsupported(request.methodName), writable);
    }
  }

  lemma ArrivalIsNew(s: Session, request: Incoming)
    requires IncomingSound(s) && WrittenSound(s)
    ensures var s' := s.(arrived := s.arrived + [request]);
            && IncomingSound(s') && WrittenSound(s')
            && WaitsFor(s', Waiting(request.id, |s.arrived|)) && Unclaimed(s', |s.arrived|)
  {
    var s' := s.(arrived := s.arrived + [request]);
    assert forall x :: Answered(s', x) == Answered(s, x);
    assert forall w: Waiting :: WaitsFor(s, w) ==> WaitsFor(s', w);
  }

  lemma SameWaiting(s: Session, t: Session, w: Waiting)
    requires t.written == s.written && t.arrived == s.arrived
    ensures WaitsFor(t, w) == WaitsFor(s, w)
  {
    assert Answered(t, w.arrival) == Answered(s, w.arrival);
  }

  lemma NewApproval(s: Session, uuid: string, w: Waiting)
    requires IncomingSound(s) && WrittenSound(s) && WaitsFor(s, w) && Unclaimed(s, w.arrival)
    ensures IncomingSound(s.(approvals := s.approvals[uuid := w])) &&
        WrittenSound(s.(approvals := s.approvals[uuid := w]))
  {
    var t := s.(approvals := s.approvals[uuid := w]);
    forall u | u in t.approvals ensures WaitsFor(t, t.approvals[u]) {
      SameWaiting(s, t, t.approvals[u]);
    }
    forall u | u in t.userInputs ensures WaitsFor(t, t.userInputs[u]) {
      SameWaiting(s, t, t.userInputs[u]);
    }
  }

  lemma NewUserInput(s: Session, uuid: string, w: Waiting)
    requires IncomingSound(s) && WrittenSound(s) && WaitsFor(s, w) && Unclaimed(s, w.arrival)
    ensures IncomingSound(s.(userInputs := s.userInputs[uuid := w])) &&
        WrittenSound(s.(userInputs := s.userInputs[uuid := w]))
  {
    var t := s.(userInputs := s.userInputs[uuid := w]);
    forall u | u in t.approvals ensures WaitsFor(t, t.approvals[u]) {
      SameWaiting(s, t, t.approvals[u]);
    }
    forall u | u in t.userInputs ensures WaitsFor(t, t.userInputs[u]) {
      SameWaiting(s, t, t.userInputs[u]);
    }
  }

  lemma SendKeepsIncoming(s: Session, methodName: string, writable: bool)
    requires IncomingSound(s) && WrittenSound(s)
    ensures IncomingSound(SendRequest(s, methodName, writable)) && WrittenSound(SendRequest(s, methodName, writable))
  {
    var t := SendRequest(s, methodName, writable);
    SmallerTables(s, t.(written := s.written));
    if writable {
      WaitersOutlastWrite(t.(written := s.written), Request(s.out.nextRequestId), true);
    }
    SendKeepsWritten(s, t, writable);
  }

  lemma SendKeepsWritten(s: Session, t: Session, writable: bool)
    requires WrittenSound(s) && t.arrived == s.arrived && t.out.nextRequestId == s.out.nextRequestId + 1
    requires t.written == if writable then s.written + [Request(s.out.nextRequestId)] else s.written
    ensures WrittenSound(t)
  {
  }

  lemma StepKeepsIncoming(s: Session, step: Step)
    requires Sound(s) && Enabled(s, step)
    ensures IncomingSound(Next(s, step)) && WrittenSound(Next(s, step))
  {
    match step
    case Sends(methodName, writable) => SendKeepsIncoming(s, methodName, writable);
    case Requests(request, uuid, writable) => RequestKeepsIncoming(s, request, uuid, writable);
    case Approves(uuid, decision, writable) => RespondKeepsIncoming(s, uuid, decision, writable);
    case Answers(uuid, answers, writable) => RespondInputKeepsIncoming(s, uuid, answers, writable);
    case Responds(_, _, _) => SmallerTables(s, Next(s, step));
    case Timer(_) => SmallerTables(s, Next(s, step));
    case Stops => SmallerTables(s, Next(s, step));
    case Exits => SmallerTables(s, Next(s, step));
  }

  ghost predicate IsRun(states: seq<Session>, steps: seq<Step>) {
    && |states| == |steps| + 1
    && states[0] == FRESH
    && (forall i :: 0 <= i < |steps| ==> Enabled(states[i], steps[i]) && states[i + 1] == Next(states[i], steps[i]))
  }

  // Every interleaving of sends, responses, timeouts, server requests, answers, exit and stop keeps
  // the tables sound.
  lemma {:induction false} RunsStaySound(states: seq<Session>, steps: seq<Step>)
    requires IsRun(states, steps)
    ensures forall i :: 0 <= i < |states| ==> Sound(states[i])
    decreases |steps|
  {
    if steps == [] {
    } else {
      var n := |steps| - 1;
      RunsStaySound(states[..n + 1], steps[..n]);
      assert states[..n + 1][n] == states[n];
      StepKeepsOutgoing(states[n], steps[n]);
      StepKeepsIncoming(states[n], steps[n]);
      forall i | 0 <= i < |states| ensures Sound(states[i]) {
        if i <= n {
          assert states[..n + 1][i] == states[i];
        }
      }
    }
  }

  // ---- What soundness says ----

  // An id given out has received the calls it is due, but for the one to come while it is pending;
  // one that has not settled is pending under its own key with its timer armed.
  lemma RequestsAreAccounted(s: Session, id: nat)
    requires Sound(s) && 1 <= id < s.out.nextRequestId
    ensures id in s.out.settled
    ensures var calls, key := s.out.settled[id], NatToString(id);
            && (calls == [] ==> key in s.out.pending && s.out.pending[key].id == id && id in s.out.timers)
            && |calls| == CallsDue(s.out, id) - (if key in s.out.pending then 1 else 0)
            && (id in s.out.timers <==> key in s.out.pending)
  {
    var key := NatToString(id);
    assert Accounted(s.out, id, key);
    if key in s.out.pending {
      KeysAreDistinct(s.out.pending[key].id, id);
    }
  }

  // The id was given out, and it is among the unwritten requests exactly if it could not be written.
  ghost predicate Marked(o: Outgoing, id: nat, writable: bool) {
    id < o.nextRequestId && (id in o.unwritten <==> !writable)
  }

  lemma SendMarks(s: Session, step: Step, t: Session)
    requires Sound(s) && step.Sends? && t == Next(s, step)
    ensures Marked(t.out, s.out.nextRequestId, step.writable)
  {
  }

  lemma StepKeepsMarked(s: Session, step: Step, t: Session, id: nat, writable: bool)
    requires Enabled(s, step) && t == Next(s, step) && Marked(s.out, id, writable)
    ensures Marked(t.out, id, writable)
  {
  }

  lemma {:induction false} SentStaysMarked(states: seq<Session>, steps: seq<Step>, i: nat, j: nat)
    requires IsRun(states, steps) && i < j < |states| && steps[i].Sends?
    ensures Marked(states[j].out, states[i].out.nextRequestId, steps[i].writable)
    decreases j
  {
    var k := j - 1;
    if k == i {
      RunsStaySound(states, steps);
      SendMarks(states[k], steps[k], states[k + 1]);
    } else {
      SentStaysMarked(states, steps, i, k);
      StepKeepsMarked(states[k], steps[k], states[k + 1], states[i].out.nextRequestId, steps[i].writable);
    }
  }

  // In every run, two sends never use one id; the request of a send receives at most one settling call
  // if it could be written and at most two if not, and once it has left the tables it has received
  // exactly one if and only if it could be written.
  lemma RequestsSettleOnceIffWritten(states: seq<Session>, steps: seq<Step>, i: nat, j: nat)
    requires IsRun(states, steps) && i < j < |states| && steps[i].Sends?
    ensures var id, out := states[i].out.nextRequestId, states[j].out;
            && (j < |steps| && steps[j].Sends? ==> out.nextRequestId != id)
            && id in out.settled
            && |out.settled[id]| <= (if steps[i].writable then 1 else 2)
            && (NatToString(id) in out.pending <==> id in out.timers)
            && (NatToString(id) !in out.pending ==> (|out.settled[id]| == 1 <==> steps[i].writable))
            && (NatToString(id) in out.pending ==> (out.settled[id] == [] <==> steps[i].writable))
  {
    RunsStaySound(states, steps);
    assert Sound(states[i]) && Sound(states[j]);
    SentStaysMarked(states, steps, i, j);
    RequestsAreAccounted(states[j], states[i].out.nextRequestId);
  }

  // Stopping settles everything outstanding, changes no outcome already decided, and leaves no
  // timer armed.
  lemma StopLeavesNothingPending(s: Session)
    requires Sound(s) && s.open
    ensures var o := StopSession(s).out;
            && o.pending == map[] && o.timers == {}
            && (forall id :: 1 <= id < o.nextRequestId ==> id in o.settled && o.settled[id] != [])
            && (forall id :: id in s.out.settled && s.out.settled[id] != [] ==>
                  o.settled[id][0] == s.out.settled[id][0])
  {
    var o := Abandon(s.out);
    AbandonKeepsSound(s.out);
    forall id | id in s.out.timers ensures id in PendingIds(s.out) {
      assert Accounted(s.out, id, NatToString(id));
      PendingIdIff(s.out, id);
    }
    forall id | 1 <= id < o.nextRequestId ensures id in o.settled && o.settled[id] != [] {
      assert Accounted(o, id, NatToString(id));
    }
  }

  // A response that names a pending request in either spelling of its id, number or string, settles it: with
  // its result if it names no error, and otherwise with that error under the method that was asked for. One
  // that names no pending request changes nothing.
  lemma ResponseSettlesItsRequest(s: Session, id: nat, error: Option<string>, result: string)
    requires Sound(s) && 1 <= id < s.out.nextRequestId && NatToString(id) in s.out.pending
    ensures var t := HandleResponse(s, NumberId(id), error, result);
            && t == HandleResponse(s, StringId(NatToString(id)), error, result)
            && t.out.pending == s.out.pending - {NatToString(id)} && t.out.timers == s.out.timers - {id}
            && (error == None || error == Some("") ==> t.out.settled == Settle(s.out.settled, id, Resolved(result)))
            && (error != None && error != Some("") ==>
                  var asked := s.out.pending[NatToString(id)].methodName;
                  t.out.settled == Settle(s.out.settled, id, Failed(asked + " failed: " + error.value)))
    ensures forall other :: IdKey(other) !in s.out.pending ==> HandleResponse(s, other, error, result) == s
  {
    KeysAreDistinct(s.out.pending[NatToString(id)].id, id);
  }

  // A request whose write failed is rejected at once, and its leftover entry settles it again.
  lemma FailedWriteSettlesTwice(s: Session, methodName: string)
    requires Sound(s)
    ensures var id := s.out.nextRequestId;
            TimerFires(SendRequest(s, methodName, false), id).out.settled[id] == [WriteFailed, TimedOut]
  {
  }

  // Each server request is answered at most once, with its own id, and is then no longer waiting.
  lemma AnsweredAtMostOnce(s: Session, i: nat, j: nat)
    requires Sound(s) && i < |s.written| && j < |s.written| && s.written[i].Reply? && s.written[j].Reply?
    ensures s.written[i].arrival < |s.arrived| && s.written[i].jsonRpcId == s.arrived[s.written[i].arrival].id
    ensures s.written[i].arrival == s.written[j].arrival ==> i == j
    ensures forall u :: u in s.approvals ==> s.approvals[u].arrival != s.written[i].arrival
    ensures forall u :: u in s.userInputs ==> s.userInputs[u].arrival != s.written[i].arrival
  {
    assert Answered(s, s.written[i].arrival);
    assert forall u :: u in s.approvals ==> WaitsFor(s, s.approvals[u]);
    assert forall u :: u in s.userInputs ==> WaitsFor(s, s.userInputs[u]);
    assert Known(s, s.written[i].jsonRpcId, s.written[i].arrival);
  }
}
