// The per-subscription resequencer: replayed and live events arrive merged in any order, and the
// subscriber sees each sequence once, in order, as far as the arrivals reach without a gap.
module Resequencer {
  import opened Events

  datatype SequenceState = SequenceState(nextSequence: nat, pending: map<nat, Event>)

  // The first integer at or after `from` that is missing from `keys`.
  function RunEnd(keys: set<nat>, from: nat): (end: nat)
    ensures from <= end && end !in keys
    ensures forall k :: from <= k < end ==> k in keys
    decreases keys
  {
    if from in keys then RunEnd(keys - {from}, from + 1) else from
  }

  lemma RunEndUnique(keys: set<nat>, from: nat, end: nat)
    requires from <= end && end !in keys
    requires forall k :: from <= k < end ==> k in keys
    ensures RunEnd(keys, from) == end
  {
  }

  function Start(fromSequenceExclusive: nat): SequenceState {
    SequenceState(fromSequenceExclusive + 1, map[])
  }

  // What one arrival emits and leaves pending.
  function Step(s: SequenceState, e: Event): (seq<Event>, SequenceState) {
    if e.sequence < s.nextSequence || e.sequence in s.pending then
      ([], s)
    else
      var held := s.pending[e.sequence := e];
      var end := RunEnd(held.Keys, s.nextSequence);
      (seq(end - s.nextSequence, i requires 0 <= i < end - s.nextSequence => held[s.nextSequence + i]),
       SequenceState(end, map k | k in held && !(s.nextSequence <= k < end) :: held[k]))
  }

  class Subscription {
    var nextSequence: nat
    var pendingBySequence: map<nat, Event>

    function State(): SequenceState
      reads this
    {
      SequenceState(nextSequence, pendingBySequence)
    }

    constructor (fromSequenceExclusive: nat)
      ensures State() == Start(fromSequenceExclusive)
    {
      nextSequence := fromSequenceExclusive + 1;
      pendingBySequence := map[];
    }

    method Accept(event: Event) returns (emit: seq<Event>)
      modifies this
      ensures (emit, State()) == Step(old(State()), event)
    {
      if event.sequence < nextSequence || event.sequence in pendingBySequence {
        return [];
      }
      var updatedPending := pendingBySequence[event.sequence := event];
      ghost var held := updatedPending;
      emit := [];
      var expected := nextSequence;
      while expected in updatedPending
        invariant nextSequence <= expected && |emit| == expected - nextSequence
        invariant updatedPending == map k | k in held && !(nextSequence <= k < expected) :: held[k]
        invariant forall k :: nextSequence <= k < expected ==> k in held && emit[k - nextSequence] == held[k]
        decreases updatedPending.Keys
      {
        emit := emit + [updatedPending[expected]];
        updatedPending := updatedPending - {expected};
        expected := expected + 1;
      }
      RunEndUnique(held.Keys, nextSequence, expected);
      ghost var (specEmit, specState) := Step(State(), event);
      assert emit == specEmit;
      assert updatedPending == specState.pending;
      nextSequence := expected;
      pendingBySequence := updatedPending;
    }
  }

  // Everything a subscription has emitted after a list of arrivals, and the state it is left in.
  function Feed(s: SequenceState, arrivals: seq<Event>): (seq<Event>, SequenceState)
    decreases |arrivals|
  {
    if arrivals == [] then ([], s)
    else
      var (before, s') := Feed(s, arrivals[..|arrivals| - 1]);
      var (emit, s'') := Step(s', arrivals[|arrivals| - 1]);
      (before + emit, s'')
  }

  // The earliest arrival with sequence k.
  function FirstArrival(arrivals: seq<Event>, k: nat): Event
    requires k in Sequences(arrivals)
    decreases |arrivals|
  {
    var init := arrivals[..|arrivals| - 1];
    if k in Sequences(init) then FirstArrival(init, k) else arrivals[|arrivals| - 1]
  }

  // The whole output of a subscription in closed form: the maximal gap-free run of arrived
  // sequences after `from`, each sequence once and in order, and what is still held lies strictly
  // beyond the gap.
  ghost predicate Delivered(from: nat, arrivals: seq<Event>, out: seq<Event>, s: SequenceState) {
    var end := RunEnd(Sequences(arrivals), from + 1);
    && s.nextSequence == end
    && |out| == end - (from + 1)
    && (forall i :: 0 <= i < |out| ==> from + 1 + i in Sequences(arrivals)
                                       && out[i] == FirstArrival(arrivals, from + 1 + i))
    && s.pending.Keys == (set k | k in Sequences(arrivals) && k > end)
    && (forall k :: k in s.pending ==> s.pending[k] == FirstArrival(arrivals, k))
  }

  lemma {:induction false} FeedDelivers(from: nat, arrivals: seq<Event>)
    ensures Delivered(from, arrivals, Feed(Start(from), arrivals).0, Feed(Start(from), arrivals).1)
    decreases |arrivals|
  {
    if arrivals == [] {
      assert Sequences(arrivals) == {};
    } else {
      var n := |arrivals| - 1;
      var e := arrivals[n];
      FeedDelivers(from, arrivals[..n]);
      var (out, s) := Feed(Start(from), arrivals[..n]);
      var (emit, s') := Step(s, e);
      StepDelivers(from, arrivals, out, s, emit, s');
    }
  }

  lemma StepDelivers(from: nat, arrivals: seq<Event>, out: seq<Event>, s: SequenceState,
                     emit: seq<Event>, s': SequenceState)
    requires arrivals != [] && Delivered(from, arrivals[..|arrivals| - 1], out, s)
    requires (emit, s') == Step(s, arrivals[|arrivals| - 1])
    ensures Delivered(from, arrivals, out + emit, s')
  {
    var e := arrivals[|arrivals| - 1];
    var earlier := Sequences(arrivals[..|arrivals| - 1]);
    if e.sequence < s.nextSequence || e.sequence in s.pending {
      RunEndUnique(Sequences(arrivals), from + 1, s.nextSequence);
    } else {
      var held := s.pending[e.sequence := e];
      HeldArrivals(from, arrivals, out, s, held);
      AcceptedDelivers(from, arrivals, out, s, held);
    }
  }

  // An accepted arrival was not seen before; with it, everything held is a first arrival.
  // A sequence that is neither emitted nor held has not arrived, nor has the next one.
  lemma NewSequence(from: nat, arrivals: seq<Event>, out: seq<Event>, s: SequenceState, k: nat)
    requires Delivered(from, arrivals, out, s) && k >= s.nextSequence && k !in s.pending
    ensures k !in Sequences(arrivals) && s.nextSequence !in Sequences(arrivals)
    ensures s.pending.Keys == set j | j in Sequences(arrivals) && j >= s.nextSequence
  {
    assert s.pending.Keys == set j | j in Sequences(arrivals) && j > s.nextSequence;
  }

  lemma HeldArrivals(from: nat, arrivals: seq<Event>, out: seq<Event>, s: SequenceState, held: map<nat, Event>)
    requires arrivals != [] && Delivered(from, arrivals[..|arrivals| - 1], out, s)
    requires var e := arrivals[|arrivals| - 1];
             e.sequence >= s.nextSequence && e.sequence !in s.pending && held == s.pending[e.sequence := e]
    ensures held.Keys == set k | k in Sequences(arrivals) && k >= s.nextSequence
    ensures forall k :: k in held ==> held[k] == FirstArrival(arrivals, k)
  {
    var earlier := Sequences(arrivals[..|arrivals| - 1]);
    var e := arrivals[|arrivals| - 1];
    NewSequence(from, arrivals[..|arrivals| - 1], out, s, e.sequence);
    forall k | k in held ensures k in Sequences(arrivals) && held[k] == FirstArrival(arrivals, k) {
      if k != e.sequence {
        assert k in s.pending;
      }
    }
  }

  lemma AcceptedDelivers(from: nat, arrivals: seq<Event>, out: seq<Event>, s: SequenceState, held: map<nat, Event>)
    requires from + 1 <= s.nextSequence && |out| == s.nextSequence - (from + 1)
    requires forall k :: from + 1 <= k < s.nextSequence ==> k in Sequences(arrivals)
    requires forall i :: 0 <= i < |out| ==> from + 1 + i in Sequences(arrivals)
                                            && out[i] == FirstArrival(arrivals, from + 1 + i)
    requires held.Keys == set k | k in Sequences(arrivals) && k >= s.nextSequence
    requires forall k :: k in held ==> held[k] == FirstArrival(arrivals, k)
    ensures var end := RunEnd(held.Keys, s.nextSequence);
            var emit := seq(end - s.nextSequence, i requires 0 <= i < end - s.nextSequence => held[s.nextSequence + i]);
            var s' := SequenceState(end, map k | k in held && !(s.nextSequence <= k < end) :: held[k]);
            Delivered(from, arrivals, out + emit, s')
  {
    RunGoesOn(from, arrivals, s.nextSequence, held.Keys);
  }

  // The run of what arrived ends where the run of what is held ends.
  lemma RunGoesOn(from: nat, arrivals: seq<Event>, next: nat, held: set<nat>)
    requires from + 1 <= next && held == set k | k in Sequences(arrivals) && k >= next
    requires forall k :: from + 1 <= k < next ==> k in Sequences(arrivals)
    ensures RunEnd(Sequences(arrivals), from + 1) == RunEnd(held, next)
  {
    var end := RunEnd(held, next);
    forall k | from + 1 <= k < end ensures k in Sequences(arrivals) {
      assert k >= next ==> k in held;
    }
    assert end !in Sequences(arrivals);
    RunEndUnique(Sequences(arrivals), from + 1, end);
  }

  // Two interleavings of the same log entries give the same output and leave the same state.
  lemma InterleavingIrrelevant(log: seq<Event>, from: nat, a: seq<Event>, b: seq<Event>)
    requires FromLog(a, log) && FromLog(b, log)
    requires Sequences(a) == Sequences(b)
    ensures Feed(Start(from), a) == Feed(Start(from), b)
  {
    FeedDelivers(from, a);
    FeedDelivers(from, b);
    forall k | k in Sequences(a) ensures FirstArrival(a, k) == FirstArrival(b, k) {
      FirstArrivalIsLogEntry(log, a, k);
      FirstArrivalIsLogEntry(log, b, k);
    }
    var (outA, sA) := Feed(Start(from), a);
    var (outB, sB) := Feed(Start(from), b);
    assert outA == outB;
    assert sA.pending == sB.pending;
  }

  lemma {:induction false} FirstArrivalIsLogEntry(log: seq<Event>, arrivals: seq<Event>, k: nat)
    requires FromLog(arrivals, log) && k in Sequences(arrivals)
    ensures 1 <= k <= |log| && FirstArrival(arrivals, k) == log[k - 1]
    decreases |arrivals|
  {
    var init := arrivals[..|arrivals| - 1];
    if k in Sequences(init) {
      FirstArrivalIsLogEntry(log, init, k);
    } else {
      assert arrivals[|arrivals| - 1] in arrivals;
    }
  }

  // End to end: once every log entry after the snapshot has arrived, by replay or live, and however
  // often, the subscriber has received exactly the log from the snapshot on.
  lemma SubscriptionReceivesLog(log: seq<Event>, from: nat, arrivals: seq<Event>)
    requires from <= |log| && FromLog(arrivals, log)
    ensures var out, next := Feed(Start(from), arrivals).0, Feed(Start(from), arrivals).1.nextSequence;
            && from <= next - 1 <= |log|
            && out == log[from..next - 1]
            && ((forall k :: from < k <= |log| ==> k in Sequences(arrivals)) <==> out == log[from..])
  {
    FeedDelivers(from, arrivals);
    var (out, s) := Feed(Start(from), arrivals);
    forall k | k in Sequences(arrivals) ensures 1 <= k <= |log| && FirstArrival(arrivals, k) == log[k - 1] {
      FirstArrivalIsLogEntry(log, arrivals, k);
    }
    if s.nextSequence > from + 1 {
      assert s.nextSequence - 1 in Sequences(arrivals);
    }
    assert out == log[from..s.nextSequence - 1];
    assert s.nextSequence !in Sequences(arrivals);
    if out == log[from..] {
      assert s.nextSequence - 1 == |log|;
      assert forall k :: from < k <= |log| ==> k in Sequences(arrivals);
    }
  }

  // The subscriber's stream only ever grows at its end, so nothing emitted is taken back or moved.
  lemma {:induction false} OutputOnlyGrows(s: SequenceState, xs: seq<Event>, ys: seq<Event>)
    ensures Feed(s, xs).0 <= Feed(s, xs + ys).0
    decreases |ys|
  {
    if ys == [] {
      assert xs + ys == xs;
    } else {
      OutputOnlyGrows(s, xs, ys[..|ys| - 1]);
      assert (xs + ys)[..|xs + ys| - 1] == xs + ys[..|ys| - 1];
    }
  }
}
