// Reading the event log in pages, up to a limit.
module EventStore {
  import opened Events

  const READ_LIMIT: nat := 1_000
  const READ_PAGE_SIZE: nat := 500

  function Min(a: nat, b: nat): nat {
    if a < b then a else b
  }

  // The first rows, at most `limit`, with a sequence above the cursor.
  function Rows(log: seq<Event>, cursor: nat, limit: nat): seq<Event> {
    if cursor >= |log| then [] else log[cursor..Min(|log|, cursor + limit)]
  }

  // Reads page after page until one is empty or the limit is reached.
  method ReadFromSequence(log: seq<Event>, sequenceExclusive: nat, limit: nat) returns (events: seq<Event>)
    requires IsLog(log)
    ensures events == Rows(log, sequenceExclusive, limit)
  {
    events := [];
    var cursor: nat, remaining: nat := sequenceExclusive, limit;
    while remaining > 0
      invariant remaining + |events| == limit
      invariant cursor == sequenceExclusive + |events| && (events != [] ==> cursor <= |log|)
      invariant events == Rows(log, sequenceExclusive, |events|)
      decreases remaining
    {
      var page := Rows(log, cursor, Min(remaining, READ_PAGE_SIZE));
      if page == [] {
        assert cursor >= |log|;
        LongerReadAddsNothing(log, sequenceExclusive, |events|, limit);
        return;
      }
      PagesJoin(log, sequenceExclusive, |events|, |page|);
      assert page == Rows(log, cursor, |page|);
      events := events + page;
      cursor := page[|page| - 1].sequence;
      remaining := remaining - |page|;
    }
  }

  lemma PagesJoin(log: seq<Event>, from: nat, a: nat, b: nat)
    requires from + a + b <= |log|
    ensures Rows(log, from, a + b) == Rows(log, from, a) + Rows(log, from + a, b)
  {
  }

  lemma LongerReadAddsNothing(log: seq<Event>, from: nat, a: nat, b: nat)
    requires a <= b && from + a >= |log|
    ensures Rows(log, from, a) == Rows(log, from, b)
  {
  }
}
