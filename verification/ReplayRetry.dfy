// Whether a finished replay is followed by another one, and after how long.
module ReplayRetry {
  import opened Recovery

  datatype Tracker = NoTracker | Tracker(attempts: nat, at: Frontier)

  datatype Frontier = Frontier(latestSequence: nat, highestObservedSequence: nat)

  datatype Decision = Decision(shouldRetry: bool, delayMs: nat, tracker: Tracker)

  datatype Policy = Policy(baseDelayMs: nat, maxNoProgressRetries: nat)

  function Pow2(n: nat): nat {
    if n == 0 then 1 else 2 * Pow2(n - 1)
  }

  function Decide(previous: Tracker, completion: Completion, at: Frontier, policy: Policy): Decision {
    if !completion.shouldReplay then Decision(false, 0, NoTracker)
    else if completion.replayMadeProgress then Decision(true, 0, NoTracker)
    else
      var attempts := if previous.Tracker? && previous.at == at then previous.attempts + 1 else 1;
      if attempts > policy.maxNoProgressRetries then Decision(false, 0, NoTracker)
      else Decision(true, policy.baseDelayMs * Pow2(attempts - 1), Tracker(attempts, at))
  }

  // One finished replay: how it ended and where it left the coordinator.
  datatype Round = Round(completion: Completion, at: Frontier)

  // The decisions of consecutive rounds, each handed the tracker of the one before.
  function Decisions(previous: Tracker, rounds: seq<Round>, policy: Policy): (ds: seq<Decision>)
    ensures |ds| == |rounds|
    decreases |rounds|
  {
    if rounds == [] then []
    else
      var d := Decide(previous, rounds[0].completion, rounds[0].at, policy);
      [d] + Decisions(d.tracker, rounds[1..], policy)
  }

  ghost predicate AllRetry(ds: seq<Decision>) {
    forall i :: 0 <= i < |ds| ==> ds[i].shouldRetry
  }

  // What the coordinator guarantees of consecutive rounds: both sequences only grow, they stay
  // within `bound`, and a round that made progress moved the latest sequence.
  ghost predicate Plausible(at: Frontier, rounds: seq<Round>, bound: nat)
    decreases |rounds|
  {
    rounds != [] ==>
      var r := rounds[0];
      && at.latestSequence <= r.at.latestSequence <= bound
      && at.highestObservedSequence <= r.at.highestObservedSequence <= bound
      && (r.completion.replayMadeProgress ==> at.latestSequence < r.at.latestSequence)
      && Plausible(r.at, rounds[1..], bound)
  }

  function AttemptsAt(previous: Tracker, at: Frontier): nat {
    if previous.Tracker? && previous.at == at then previous.attempts else 0
  }

  function Remaining(at: Frontier, bound: nat): int {
    2 * bound - at.latestSequence - at.highestObservedSequence
  }

  // How many more retries are possible: a full budget for each step either sequence can still
  // take, plus what is left of the budget at this frontier.
  function Potential(previous: Tracker, at: Frontier, bound: nat, policy: Policy): int {
    Remaining(at, bound) * (policy.maxNoProgressRetries + 1) + policy.maxNoProgressRetries - AttemptsAt(previous, at)
  }

  lemma MulDrop(x: int, y: int, m: nat)
    requires x + 1 <= y
    ensures x * (m + 1) + m + 1 <= y * (m + 1)
  {
    var d := y - x - 1;
    assert y * (m + 1) == (x + 1) * (m + 1) + d * (m + 1);
  }

  lemma RetryUsesPotential(previous: Tracker, at: Frontier, r: Round, bound: nat, policy: Policy)
    requires AttemptsAt(previous, at) <= policy.maxNoProgressRetries
    requires Plausible(at, [r], bound)
    requires Decide(previous, r.completion, r.at, policy).shouldRetry
    ensures var next := Decide(previous, r.completion, r.at, policy).tracker;
            && AttemptsAt(next, r.at) <= policy.maxNoProgressRetries
            && Potential(next, r.at, bound, policy) < Potential(previous, at, bound, policy)
  {
    if r.at != at {
      MulDrop(Remaining(r.at, bound), Remaining(at, bound), policy.maxNoProgressRetries);
    }
  }

  // Every unbroken chain of retries is finite, and this bounds its length.
  lemma {:induction false} RetriesAreBounded(
      previous: Tracker, at: Frontier, rounds: seq<Round>, bound: nat, policy: Policy)
    requires AttemptsAt(previous, at) <= policy.maxNoProgressRetries
    requires at.latestSequence <= bound && at.highestObservedSequence <= bound
    requires Plausible(at, rounds, bound)
    requires AllRetry(Decisions(previous, rounds, policy))
    ensures |rounds| <= Potential(previous, at, bound, policy)
    decreases |rounds|
  {
    var m := policy.maxNoProgressRetries;
    if rounds == [] {
      assert Remaining(at, bound) * (m + 1) >= 0;
    } else {
      var r := rounds[0];
      var ds := Decisions(previous, rounds, policy);
      assert ds[0].shouldRetry;
      assert Decisions(ds[0].tracker, rounds[1..], policy) == ds[1..];
      RetryUsesPotential(previous, at, r, bound, policy);
      RetriesAreBounded(ds[0].tracker, r.at, rounds[1..], bound, policy);
    }
  }

  function TotalDelay(ds: seq<Decision>): nat {
    if ds == [] then 0 else ds[0].delayMs + TotalDelay(ds[1..])
  }

  // k rounds in a row without progress, all at one frontier.
  function Stuck(at: Frontier, k: nat): seq<Round> {
    seq(k, i => Round(Completion(false, true), at))
  }

  // Stuck rounds are retried exactly up to the limit, and the waiting doubles each time.
  lemma BackoffDoubles(at: Frontier, k: nat, policy: Policy)
    ensures var ds := Decisions(NoTracker, Stuck(at, k), policy);
            && (AllRetry(ds) <==> k <= policy.maxNoProgressRetries)
            && (AllRetry(ds) ==> TotalDelay(ds) == policy.baseDelayMs * (Pow2(k) - 1))
  {
    if k > 0 {
      BackoffFrom(NoTracker, at, k, policy);
    }
  }

  lemma {:induction false} BackoffFrom(previous: Tracker, at: Frontier, k: nat, policy: Policy)
    requires k > 0
    requires previous.Tracker? ==> previous.at == at
    ensures var ds := Decisions(previous, Stuck(at, k), policy);
            var a := AttemptsAt(previous, at);
            && (AllRetry(ds) <==> a + k <= policy.maxNoProgressRetries)
            && (AllRetry(ds) ==> TotalDelay(ds) == policy.baseDelayMs * (Pow2(a + k) - Pow2(a)))
    decreases k
  {
    var a := AttemptsAt(previous, at);
    var ds := Decisions(previous, Stuck(at, k), policy);
    assert Stuck(at, k)[0] == Round(Completion(false, true), at);
    assert Stuck(at, k)[1..] == Stuck(at, k - 1);
    var rest := Decisions(ds[0].tracker, Stuck(at, k - 1), policy);
    assert ds == [ds[0]] + rest;
    if a + 1 <= policy.maxNoProgressRetries {
      assert ds[0].delayMs == policy.baseDelayMs * (Pow2(a + 1) - Pow2(a));
      if k == 1 {
        assert rest == [];
      } else {
        BackoffFrom(ds[0].tracker, at, k - 1, policy);
        assert AllRetry(ds) <==> AllRetry(rest) by {
          assert forall i :: 0 <= i < |rest| ==> ds[i + 1] == rest[i];
        }
        assert policy.baseDelayMs * (Pow2(a + k) - Pow2(a + 1)) + policy.baseDelayMs * (Pow2(a + 1) - Pow2(a))
            == policy.baseDelayMs * (Pow2(a + k) - Pow2(a));
      }
    } else {
      assert !ds[0].shouldRetry;
    }
  }

  // At a frontier where nothing was tried yet, the attempts start again: the rounds are decided as if there
  // had been none before.
  lemma NewFrontierStartsOver(previous: Tracker, rounds: seq<Round>, policy: Policy)
    requires rounds != [] && AttemptsAt(previous, rounds[0].at) == 0
    ensures Decisions(previous, rounds, policy) == Decisions(NoTracker, rounds, policy)
  {
  }

  // A replay that brought something is followed at once, and one that was enough is not followed; either
  // way the attempts are forgotten.
  lemma ProgressForgetsAttempts(previous: Tracker, completion: Completion, at: Frontier, policy: Policy)
    requires completion.replayMadeProgress || !completion.shouldReplay
    ensures Decide(previous, completion, at, policy) == Decision(completion.shouldReplay, 0, NoTracker)
  {
  }
}
