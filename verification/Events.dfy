// The append-only event log that the server owns and both ends of the replication speak about.
module Events {
  // An orchestration event: its position in the log and its contents.
  datatype Event = Event(sequence: nat, body: string)

  // Entry i of the log carries sequence i + 1: sequences start at one and have no gap.
  ghost predicate IsLog(log: seq<Event>) {
    forall i :: 0 <= i < |log| ==> log[i].sequence == i + 1
  }

  ghost predicate InLog(e: Event, log: seq<Event>) {
    1 <= e.sequence <= |log| && e == log[e.sequence - 1]
  }

  // Every event of `es` is an entry of the log.
  ghost predicate FromLog(es: seq<Event>, log: seq<Event>) {
    forall e :: e in es ==> InLog(e, log)
  }

  function Sequences(es: seq<Event>): set<nat>
    decreases |es|
  {
    if es == [] then {} else Sequences(es[..|es| - 1]) + {es[|es| - 1].sequence}
  }

  // The state a reducer reaches by applying events in order.
  ghost function Fold<S>(f: (S, Event) -> S, s: S, es: seq<Event>): S
    decreases |es|
  {
    if es == [] then s else f(Fold(f, s, es[..|es| - 1]), es[|es| - 1])
  }

  lemma {:induction false} FoldConcat<S>(f: (S, Event) -> S, s: S, xs: seq<Event>, ys: seq<Event>)
    ensures Fold(f, s, xs + ys) == Fold(f, Fold(f, s, xs), ys)
    decreases |ys|
  {
    if ys == [] {
      assert xs + ys == xs;
    } else {
      FoldConcat(f, s, xs, ys[..|ys| - 1]);
      assert (xs + ys)[..|xs + ys| - 1] == xs + ys[..|ys| - 1];
    }
  }
}
