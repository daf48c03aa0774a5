// The client's recovery coordinator: it classifies live events, admits one snapshot or replay
// recovery at a time, and decides whether a finished recovery must be followed by another.
module Recovery {
  import opened Events

  datatype Reason = Bootstrap | SequenceGap | Resubscribed | ReplayFailed

  datatype Phase = Idle | Snapshot(reason: Reason) | Replay(reason: Reason)

  datatype Mark = Unset | At(sequence: nat)

  datatype State = State(
    latestSequence: nat,
    highestObservedSequence: nat,
    bootstrapped: bool,
    pendingReplay: bool,
    inFlight: Phase,
    replayStart: Mark)

  datatype Verdict = Ignore | Defer | Recover | Apply

  datatype Completion = Completion(replayMadeProgress: bool, shouldReplay: bool)

  const INITIAL := State(0, 0, false, false, Idle, Unset)

  function Max(a: nat, b: nat): nat {
    if a < b then b else a
  }

  function Classify(s: State, sequence: nat): (Verdict, State) {
    var s' := s.(highestObservedSequence := Max(s.highestObservedSequence, sequence));
    if sequence <= s.latestSequence then (Ignore, s')
    else if !s.bootstrapped || s.inFlight != Idle then (Defer, s'.(pendingReplay := true))
    else if sequence != s.latestSequence + 1 then (Recover, s'.(pendingReplay := true))
    else (Apply, s')
  }

  // The events of a batch that lie beyond `latest`, in arrival order.
  function Newer(latest: nat, events: seq<Event>): seq<Event> {
    if events == [] then []
    else (if events[0].sequence > latest then [events[0]] else []) + Newer(latest, events[1..])
  }

  // Stable sort by sequence.
  function SortBySequence(events: seq<Event>): (r: seq<Event>)
    ensures |r| == |events|
  {
    if events == [] then [] else InsertBySequence(events[0], SortBySequence(events[1..]))
  }

  function InsertBySequence(e: Event, sorted: seq<Event>): (r: seq<Event>)
    ensures |r| == |sorted| + 1
  {
    if sorted == [] || e.sequence <= sorted[0].sequence then [e] + sorted
    else [sorted[0]] + InsertBySequence(e, sorted[1..])
  }

  function MarkBatch(s: State, events: seq<Event>): (seq<Event>, State) {
    var next := SortBySequence(Newer(s.latestSequence, events));
    if next == [] then ([], s)
    else
      var latest := next[|next| - 1].sequence;
      (next, s.(latestSequence := latest, highestObservedSequence := Max(s.highestObservedSequence, latest)))
  }

  function BeginSnapshot(s: State, reason: Reason): (bool, State) {
    if s.inFlight != Idle then (false, s.(pendingReplay := true))
    else (true, s.(inFlight := Snapshot(reason)))
  }

  function ResolveReplayNeed(s: State): (bool, State) {
    (s.pendingReplay || s.highestObservedSequence > s.latestSequence, s.(pendingReplay := false))
  }

  function CompleteSnapshot(s: State, snapshotSequence: nat): (bool, State) {
    var latest := Max(s.latestSequence, snapshotSequence);
    ResolveReplayNeed(s.(latestSequence := latest,
                         highestObservedSequence := Max(s.highestObservedSequence, latest),
                         bootstrapped := true,
                         inFlight := Idle))
  }

  function FailSnapshot(s: State): State {
    s.(inFlight := Idle)
  }

  function BeginReplay(s: State, reason: Reason): (bool, State) {
    if !s.bootstrapped || s.inFlight != Idle then (false, s.(pendingReplay := true))
    else (true, s.(pendingReplay := false, replayStart := At(s.latestSequence), inFlight := Replay(reason)))
  }

  function CompleteReplay(s: State): (Completion, State) {
    var progress := s.replayStart.At? && s.latestSequence > s.replayStart.sequence;
    var (need, s') := ResolveReplayNeed(s.(replayStart := Unset, inFlight := Idle));
    (Completion(progress, need), s')
  }

  function FailReplay(s: State): State {
    s.(replayStart := Unset, bootstrapped := false, inFlight := Idle)
  }

  // The coordinator object. Each method does to the fields what the function above it says.
  class Coordinator {
    var latestSequence: nat
    var highestObservedSequence: nat
    var bootstrapped: bool
    var pendingReplay: bool
    var inFlight: Phase
    var replayStartSequence: Mark

    function GetState(): State
      reads this
    {
      State(latestSequence, highestObservedSequence, bootstrapped, pendingReplay, inFlight, replayStartSequence)
    }

    constructor ()
      ensures GetState() == INITIAL
    {
      latestSequence, highestObservedSequence := 0, 0;
      bootstrapped, pendingReplay := false, false;
      inFlight, replayStartSequence := Idle, Unset;
    }

    method ClassifyDomainEvent(sequence: nat) returns (verdict: Verdict)
      modifies this
      ensures (verdict, GetState()) == Classify(old(GetState()), sequence)
    {
      highestObservedSequence := Max(highestObservedSequence, sequence);
      if sequence <= latestSequence {
        return Ignore;
      }
      if !bootstrapped || inFlight != Idle {
        pendingReplay := true;
        return Defer;
      }
      if sequence != latestSequence + 1 {
        pendingReplay := true;
        return Recover;
      }
      return Apply;
    }

    method MarkEventBatchApplied(events: seq<Event>) returns (next: seq<Event>)
      modifies this
      ensures (next, GetState()) == MarkBatch(old(GetState()), events)
    {
      next := SortBySequence(Newer(latestSequence, events));
      if |next| == 0 {
        return [];
      }
      latestSequence := next[|next| - 1].sequence;
      highestObservedSequence := Max(highestObservedSequence, latestSequence);
    }

    method BeginSnapshotRecovery(reason: Reason) returns (started: bool)
      modifies this
      ensures (started, GetState()) == BeginSnapshot(old(GetState()), reason)
    {
      if inFlight.Snapshot? {
        pendingReplay := true;
        return false;
      }
      if inFlight.Replay? {
        pendingReplay := true;
        return false;
      }
      inFlight := Snapshot(reason);
      return true;
    }

    method ResolveReplayNeedAfterRecovery() returns (shouldReplay: bool)
      modifies this
      ensures (shouldReplay, GetState()) == ResolveReplayNeed(old(GetState()))
    {
      shouldReplay := pendingReplay || highestObservedSequence > latestSequence;
      pendingReplay := false;
    }

    method CompleteSnapshotRecovery(snapshotSequence: nat) returns (shouldReplay: bool)
      modifies this
      ensures (shouldReplay, GetState()) == CompleteSnapshot(old(GetState()), snapshotSequence)
    {
      latestSequence := Max(latestSequence, snapshotSequence);
      highestObservedSequence := Max(highestObservedSequence, latestSequence);
      bootstrapped := true;
      inFlight := Idle;
      shouldReplay := ResolveReplayNeedAfterRecovery();
    }

    method FailSnapshotRecovery()
      modifies this
      ensures GetState() == FailSnapshot(old(GetState()))
    {
      inFlight := Idle;
    }

    method BeginReplayRecovery(reason: Reason) returns (started: bool)
      modifies this
      ensures (started, GetState()) == BeginReplay(old(GetState()), reason)
    {
      if !bootstrapped || inFlight.Snapshot? {
        pendingReplay := true;
        return false;
      }
      if inFlight.Replay? {
        pendingReplay := true;
        return false;
      }
      pendingReplay := false;
      replayStartSequence := At(latestSequence);
      inFlight := Replay(reason);
      return true;
    }

    method CompleteReplayRecovery() returns (completion: Completion)
      modifies this
      ensures (completion, GetState()) == CompleteReplay(old(GetState()))
    {
      var progress := replayStartSequence.At? && latestSequence > replayStartSequence.sequence;
      replayStartSequence := Unset;
      inFlight := Idle;
      var need := ResolveReplayNeedAfterRecovery();
      completion := Completion(progress, need);
    }

    method FailReplayRecovery()
      modifies this
      ensures GetState() == FailReplay(old(GetState()))
    {
      replayStartSequence := Unset;
      bootstrapped := false;
      inFlight := Idle;
    }
  }

  // ---- What a batch applies ----

  ghost predicate Ascending(es: seq<Event>) {
    forall i, j :: 0 <= i < j < |es| ==> es[i].sequence < es[j].sequence
  }

  lemma {:induction false} SortOfAscending(es: seq<Event>)
    requires Ascending(es)
    ensures SortBySequence(es) == es
  {
    if es == [] {
    } else {
      SortOfAscending(es[1..]);
      assert [es[0]] + es[1..] == es;
    }
  }

  lemma {:induction false} SortedIsSorted(es: seq<Event>)
    ensures var r := SortBySequence(es);
            && multiset(r) == multiset(es)
            && Sorted(r)
  {
    if es == [] {
    } else {
      SortedIsSorted(es[1..]);
      InsertKeepsMembers(es[0], SortBySequence(es[1..]));
      InsertKeepsSorted(es[0], SortBySequence(es[1..]));
      assert es == [es[0]] + es[1..];
    }
  }

  ghost predicate Sorted(es: seq<Event>) {
    forall i, j :: 0 <= i < j < |es| ==> es[i].sequence <= es[j].sequence
  }

  lemma {:induction false} InsertKeepsMembers(e: Event, s: seq<Event>)
    ensures multiset(InsertBySequence(e, s)) == multiset{e} + multiset(s)
  {
    if s != [] && e.sequence > s[0].sequence {
      InsertKeepsMembers(e, s[1..]);
      assert s == [s[0]] + s[1..];
    }
  }

  ghost predicate AtLeast(es: seq<Event>, least: nat) {
    forall i :: 0 <= i < |es| ==> least <= es[i].sequence
  }

  lemma {:induction false} InsertKeepsSorted(e: Event, s: seq<Event>)
    requires Sorted(s)
    ensures Sorted(InsertBySequence(e, s))
  {
    if s == [] {
    } else if e.sequence <= s[0].sequence {
      ConsKeepsSorted(e, s);
    } else {
      InsertKeepsSorted(e, s[1..]);
      InsertedAreAtLeast(e, s[1..], s[0].sequence);
      ConsKeepsSorted(s[0], InsertBySequence(e, s[1..]));
    }
  }

  lemma {:induction false} InsertedAreAtLeast(e: Event, s: seq<Event>, least: nat)
    requires least <= e.sequence && AtLeast(s, least)
    ensures AtLeast(InsertBySequence(e, s), least)
  {
    if s == [] || e.sequence <= s[0].sequence {
    } else {
      assert AtLeast(s[1..], least);
      InsertedAreAtLeast(e, s[1..], least);
    }
  }

  lemma ConsKeepsSorted(e: Event, t: seq<Event>)
    requires Sorted(t) && AtLeast(t, e.sequence)
    ensures Sorted([e] + t)
  {
  }

  // Exactly when a batch of log events advances the client by the next slice of the log and
  // nothing else: no sequence beyond `latest` occurs twice, and the furthest one is as far beyond
  // `latest` as there are such events. A caller can check both before the call.
  ghost predicate GapFreeBatch(latest: nat, events: seq<Event>) {
    GapFree(latest, Newer(latest, events))
  }

  ghost predicate GapFree(latest: nat, newer: seq<Event>) {
    && (forall i, j :: 0 <= i < j < |newer| ==> newer[i].sequence != newer[j].sequence)
    && (forall i :: 0 <= i < |newer| ==> newer[i].sequence <= latest + |newer|)
  }

  lemma {:induction false} NewerMembers(latest: nat, events: seq<Event>)
    ensures forall e :: e in Newer(latest, events) <==> e in events && e.sequence > latest
  {
    if events == [] {
    } else {
      NewerMembers(latest, events[1..]);
      assert events == [events[0]] + events[1..];
    }
  }

  lemma BatchAppliesNextSlice(log: seq<Event>, s: State, events: seq<Event>)
    requires IsLog(log) && FromLog(events, log) && s.latestSequence <= |log|
    ensures var applied, s' := MarkBatch(s, events).0, MarkBatch(s, events).1;
            && s.latestSequence <= s'.latestSequence <= |log|
            && (applied == log[s.latestSequence..s'.latestSequence] <==> GapFreeBatch(s.latestSequence, events))
  {
    var newer := Newer(s.latestSequence, events);
    AppliedComesFromLog(log, s.latestSequence, events);
    SortedIsSorted(newer);
    SliceIffGapFree(log, s.latestSequence, newer, SortBySequence(newer));
  }

  lemma SliceIffGapFree(log: seq<Event>, latest: nat, newer: seq<Event>, r: seq<Event>)
    requires IsLog(log) && latest <= |log|
    requires multiset(r) == multiset(newer) && |r| == |newer| && Sorted(r)
    requires forall e :: e in r ==> latest < e.sequence && InLog(e, log)
    ensures var end := if r == [] then latest else r[|r| - 1].sequence;
            && latest <= end <= |log|
            && (r == log[latest..end] <==> GapFree(latest, newer))
  {
    var end := if r == [] then latest else r[|r| - 1].sequence;
    if r != [] {
      assert r[|r| - 1] in r;
      assert InLog(r[|r| - 1], log);
    }
    if GapFree(latest, newer) {
      GapFreeIsSlice(log, latest, newer, r);
    }
    if r == log[latest..end] {
      SliceIsGapFree(log, latest, newer, r);
    }
  }

  lemma GapFreeIsSlice(log: seq<Event>, latest: nat, newer: seq<Event>, r: seq<Event>)
    requires latest <= |log|
    requires multiset(r) == multiset(newer) && |r| == |newer| && Sorted(r)
    requires forall e :: e in r ==> latest < e.sequence && InLog(e, log)
    requires GapFree(latest, newer)
    ensures latest + |r| <= |log| && r == log[latest..latest + |r|]
    ensures r != [] ==> r[|r| - 1].sequence == latest + |r|
  {
    DistinctSortedIsStrict(newer, r);
    forall i | 0 <= i < |r| ensures latest < r[i].sequence <= latest + |r| && InLog(r[i], log) {
      assert r[i] in r;
      assert r[i] in newer;
    }
    StrictRunIsConsecutive(latest, r);
    if r != [] {
      assert InLog(r[|r| - 1], log);
    }
  }

  lemma SliceIsGapFree(log: seq<Event>, latest: nat, newer: seq<Event>, r: seq<Event>)
    requires IsLog(log) && latest + |r| <= |log| && r == log[latest..latest + |r|]
    requires multiset(r) == multiset(newer) && |r| == |newer|
    ensures GapFree(latest, newer)
  {
    assert forall i :: 0 <= i < |r| ==> r[i].sequence == latest + i + 1;
    NoRepeatTransfers(newer, r);
    forall i | 0 <= i < |newer| ensures newer[i].sequence <= latest + |newer| {
      assert newer[i] in multiset(newer);
      assert newer[i] in r;
    }
  }

  lemma AppliedComesFromLog(log: seq<Event>, latest: nat, events: seq<Event>)
    requires FromLog(events, log)
    ensures var r := SortBySequence(Newer(latest, events));
            forall e :: e in r ==> latest < e.sequence && InLog(e, log)
  {
    var r := SortBySequence(Newer(latest, events));
    NewerMembers(latest, events);
    SortedIsSorted(Newer(latest, events));
    assert forall e :: e in r <==> e in multiset(r);
  }

  // A sorted rearrangement of distinct sequences is strictly ascending and stays in range.
  lemma DistinctSortedIsStrict(newer: seq<Event>, r: seq<Event>)
    requires multiset(r) == multiset(newer) && |r| == |newer|
    requires Sorted(r)
    requires forall i, j :: 0 <= i < j < |newer| ==> newer[i].sequence != newer[j].sequence
    ensures Ascending(r)
    ensures forall e :: e in r <==> e in newer
  {
    forall e ensures e in r <==> e in newer {
      assert e in r <==> e in multiset(r);
      assert e in newer <==> e in multiset(newer);
    }
    forall i, j | 0 <= i < j < |r| ensures r[i].sequence < r[j].sequence {
      if r[i].sequence == r[j].sequence {
        assert r[i] in newer && r[j] in newer;
        assert r[i] == r[j];
        TwiceInMultiset(r, i, j);
        OnceInMultiset(newer, r[i]);
      }
    }
  }

  lemma TwiceInMultiset(r: seq<Event>, i: nat, j: nat)
    requires i < j < |r| && r[i] == r[j]
    ensures multiset(r)[r[i]] >= 2
  {
    assert r == r[..j] + [r[j]] + r[j + 1..];
    assert r[i] in r[..j];
    assert r[..j][i] == r[i];
  }

  lemma {:induction false} OnceInMultiset(es: seq<Event>, e: Event)
    requires forall i, j :: 0 <= i < j < |es| ==> es[i].sequence != es[j].sequence
    ensures multiset(es)[e] <= 1
  {
    if es == [] {
    } else {
      OnceInMultiset(es[1..], e);
      assert es == [es[0]] + es[1..];
      if es[0] == e {
        assert e !in es[1..];
      }
    }
  }

  lemma NoRepeatTransfers(newer: seq<Event>, r: seq<Event>)
    requires multiset(r) == multiset(newer)
    requires Ascending(r)
    ensures forall i, j :: 0 <= i < j < |newer| ==> newer[i].sequence != newer[j].sequence
  {
    forall i, j | 0 <= i < j < |newer| ensures newer[i].sequence != newer[j].sequence {
      if newer[i].sequence == newer[j].sequence {
        assert newer[i] in multiset(newer) && newer[j] in multiset(newer);
        assert newer[i] in r && newer[j] in r;
        assert newer[i] == newer[j];
        TwiceInMultiset(newer, i, j);
        OnceInMultiset(r, newer[i]);
      }
    }
  }

  lemma {:induction false} StrictRunIsConsecutive(latest: nat, r: seq<Event>)
    requires Ascending(r)
    requires forall i :: 0 <= i < |r| ==> latest < r[i].sequence <= latest + |r|
    ensures forall i :: 0 <= i < |r| ==> r[i].sequence == latest + 1 + i
    decreases |r|
  {
    if r == [] {
    } else {
      var n := |r| - 1;
      forall i | 0 <= i < n ensures r[i].sequence <= latest + n {
        assert r[i].sequence < r[n].sequence;
      }
      StrictRunIsConsecutive(latest, r[..n]);
      if n > 0 {
        assert r[..n][n - 1].sequence == latest + n;
        assert r[n - 1].sequence < r[n].sequence;
      }
    }
  }

  // A buffered duplicate is applied twice: both copies of event 1 pass the filter.
  lemma DuplicateInBatchAppliedTwice()
    ensures var e := Event(1, "x"); MarkBatch(INITIAL, [e, e]).0 == [e, e]
  {
    var e := Event(1, "x");
    assert Newer(0, [e]) == [e];
    assert [e, e][1..] == [e];
    assert Newer(0, [e, e]) == [e] + Newer(0, [e]);
    SortedIsSorted([e, e]);
    assert InsertBySequence(e, [e]) == [e, e];
    assert SortBySequence([e]) == [e];
    assert SortBySequence([e, e]) == InsertBySequence(e, SortBySequence([e]));
  }

  lemma MarkNeverGoesBack(c: State, es: seq<Event>)
    ensures MarkBatch(c, es).1.latestSequence >= c.latestSequence
  {
    var newer := Newer(c.latestSequence, es);
    var r := SortBySequence(newer);
    NewerMembers(c.latestSequence, es);
    SortedIsSorted(newer);
    if r != [] {
      assert r[|r| - 1] in multiset(r);
    }
  }
}
