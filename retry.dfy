/**
 * `_run_batch`, shared by both clients: up to three attempts to run one
 * batch against the store. A transient failure (service unavailable or a
 * transient error) costs one retry and a two-second sleep; success returns
 * at once; any other failure propagates at once; when the retries run out
 * the batch fails. The store is an oracle giving the outcome of each
 * attempt by its number; sleeping is recorded in the trace.
 */
module Retry {
  import opened Config

  datatype StoreOutcome = Succeeded | TransientFailure | OtherFailure

  /** What the loop does, in order: run the batch, or sleep. */
  datatype Event = Attempted(outcome: StoreOutcome) | Slept(seconds: nat)

  /** How the call ends: it returns, raises its own "after retries" error, or lets a non-transient error through. */
  datatype BatchResult = Imported | RetriesExhausted | Propagated

  datatype Outcome = Outcome(result: BatchResult, trace: seq<Event>)

  /** The loop run from attempt number `attempt` with `retries` retries left. */
  function Run(store: nat -> StoreOutcome, attempt: nat, retries: nat): Outcome
    decreases retries
  {
    if retries == 0 then Outcome(RetriesExhausted, [])
    else
      match store(attempt)
      case Succeeded => Outcome(Imported, [Attempted(Succeeded)])
      case OtherFailure => Outcome(Propagated, [Attempted(OtherFailure)])
      case TransientFailure =>
        var rest := Run(store, attempt + 1, retries - 1);
        Outcome(rest.result, [Attempted(TransientFailure), Slept(RetryBackoffSeconds)] + rest.trace)
  }

  /** `_run_batch` as written: a `while retries > 0` loop with early exits. */
  method RunBatch(store: nat -> StoreOutcome) returns (result: BatchResult, trace: seq<Event>)
    ensures Outcome(result, trace) == Run(store, 0, RetryBudget)
  {
    var retries := RetryBudget;
    var attempt := 0;
    trace := [];
    while retries > 0
      invariant 0 <= retries <= RetryBudget
      invariant attempt + retries == RetryBudget
      invariant Run(store, 0, RetryBudget) ==
        Outcome(Run(store, attempt, retries).result, trace + Run(store, attempt, retries).trace)
    {
      var outcome := store(attempt);
      RunUnfold(store, attempt, retries, trace);
      trace := trace + [Attempted(outcome)];
      if outcome == Succeeded {
        result := Imported;
        return;
      } else if outcome == OtherFailure {
        result := Propagated;
        return;
      }
      retries := retries - 1;
      trace := trace + [Slept(RetryBackoffSeconds)];
      attempt := attempt + 1;
    }
    assert trace + Run(store, attempt, retries).trace == trace;
    result := RetriesExhausted;
  }

  /**
   * One pass of the loop, seen from the trace so far: what attempt number
   * `attempt` leads to.
   */
  lemma RunUnfold(store: nat -> StoreOutcome, attempt: nat, retries: nat, trace: seq<Event>)
    requires retries > 0
    ensures store(attempt) == Succeeded ==>
      Outcome(Run(store, attempt, retries).result, trace + Run(store, attempt, retries).trace) ==
      Outcome(Imported, trace + [Attempted(Succeeded)])
    ensures store(attempt) == OtherFailure ==>
      Outcome(Run(store, attempt, retries).result, trace + Run(store, attempt, retries).trace) ==
      Outcome(Propagated, trace + [Attempted(OtherFailure)])
    ensures store(attempt) == TransientFailure ==>
      Outcome(Run(store, attempt, retries).result, trace + Run(store, attempt, retries).trace) ==
      Outcome(Run(store, attempt + 1, retries - 1).result,
              trace + [Attempted(TransientFailure)] + [Slept(RetryBackoffSeconds)] + Run(store, attempt + 1, retries - 1).trace)
  {
    var rest := Run(store, attempt + 1, retries - 1).trace;
    assert trace + [Attempted(TransientFailure)] + [Slept(RetryBackoffSeconds)] + rest ==
      trace + ([Attempted(TransientFailure), Slept(RetryBackoffSeconds)] + rest);
  }

  /** Attempts `from` up to (not including) `to` all fail transiently. */
  ghost predicate TransientBetween(store: nat -> StoreOutcome, from: nat, to: nat) {
    forall j :: from <= j < to ==> store(j) == TransientFailure
  }

  /** `k` rounds of a transient failure followed by the back-off sleep. */
  function Backoffs(k: nat): (events: seq<Event>)
    ensures |events| == 2 * k
  {
    if k == 0 then [] else [Attempted(TransientFailure), Slept(RetryBackoffSeconds)] + Backoffs(k - 1)
  }

  /**
   * How the call ends: it imports exactly when some attempt within the
   * budget succeeds after only transient failures, propagates exactly when
   * such an attempt fails otherwise, and gives up exactly when every attempt
   * in the budget fails transiently.
   */
  lemma {:induction false} RunResult(store: nat -> StoreOutcome, attempt: nat, retries: nat)
    ensures Run(store, attempt, retries).result == Imported <==>
      exists k :: attempt <= k < attempt + retries && TransientBetween(store, attempt, k) && store(k) == Succeeded
    ensures Run(store, attempt, retries).result == Propagated <==>
      exists k :: attempt <= k < attempt + retries && TransientBetween(store, attempt, k) && store(k) == OtherFailure
    ensures Run(store, attempt, retries).result == RetriesExhausted <==> TransientBetween(store, attempt, attempt + retries)
    decreases retries
  {
    if retries > 0 {
      RunResult(store, attempt + 1, retries - 1);
      if store(attempt) == TransientFailure {
        forall k | attempt < k
          ensures TransientBetween(store, attempt, k) <==> TransientBetween(store, attempt + 1, k)
        {
          TransientShift(store, attempt, k);
        }
      } else {
        assert TransientBetween(store, attempt, attempt);
      }
    }
  }

  /** After a transient failure, a run of transient failures from it is one from the next attempt. */
  lemma TransientShift(store: nat -> StoreOutcome, attempt: nat, k: nat)
    requires store(attempt) == TransientFailure && attempt < k
    ensures TransientBetween(store, attempt, k) <==> TransientBetween(store, attempt + 1, k)
  {
  }

  /**
   * The trace: when attempt `k` is the first one that does not fail
   * transiently, it is one round of failure and sleep per earlier attempt
   * and then that attempt.
   */
  lemma {:induction false} RunTrace(store: nat -> StoreOutcome, attempt: nat, retries: nat, k: nat)
    requires attempt <= k < attempt + retries
    requires TransientBetween(store, attempt, k) && store(k) != TransientFailure
    ensures Run(store, attempt, retries).trace == Backoffs(k - attempt) + [Attempted(store(k))]
    decreases retries
  {
    if attempt < k {
      assert store(attempt) == TransientFailure;
      RunTrace(store, attempt + 1, retries - 1, k);
    }
  }

  /** When the retries run out the trace is one round per retry, the last failure also followed by its sleep. */
  lemma {:induction false} ExhaustedTrace(store: nat -> StoreOutcome, attempt: nat, retries: nat)
    requires TransientBetween(store, attempt, attempt + retries)
    ensures Run(store, attempt, retries) == Outcome(RetriesExhausted, Backoffs(retries))
    decreases retries
  {
    if retries > 0 {
      assert store(attempt) == TransientFailure;
      ExhaustedTrace(store, attempt + 1, retries - 1);
    }
  }

  /** The number of attempts and the seconds slept in a trace. */
  function Attempts(trace: seq<Event>): nat {
    if trace == [] then 0 else (if trace[0].Attempted? then 1 else 0) + Attempts(trace[1..])
  }

  function SecondsSlept(trace: seq<Event>): nat {
    if trace == [] then 0 else (if trace[0].Slept? then trace[0].seconds else 0) + SecondsSlept(trace[1..])
  }

  /**
   * The loop never runs the batch more than `retries` times and runs it at
   * least once; every transient failure, the last included, costs the
   * back-off sleep.
   */
  lemma {:induction false} RunCost(store: nat -> StoreOutcome, attempt: nat, retries: nat)
    ensures Attempts(Run(store, attempt, retries).trace) <= retries
    ensures retries > 0 ==> 1 <= Attempts(Run(store, attempt, retries).trace)
    ensures SecondsSlept(Run(store, attempt, retries).trace) ==
      RetryBackoffSeconds * (Attempts(Run(store, attempt, retries).trace) - (if Run(store, attempt, retries).result == RetriesExhausted then 0 else 1))
    decreases retries
  {
    if retries > 0 && store(attempt) == TransientFailure {
      RunCost(store, attempt + 1, retries - 1);
      var rest := Run(store, attempt + 1, retries - 1).trace;
      RoundCost(rest);
      if retries == 1 {
        assert rest == [];
      }
    }
  }

  /** One round of failure and sleep is one attempt and the back-off. */
  lemma RoundCost(rest: seq<Event>)
    ensures Attempts([Attempted(TransientFailure), Slept(RetryBackoffSeconds)] + rest) == 1 + Attempts(rest)
    ensures SecondsSlept([Attempted(TransientFailure), Slept(RetryBackoffSeconds)] + rest) == RetryBackoffSeconds + SecondsSlept(rest)
  {
    var t := [Attempted(TransientFailure), Slept(RetryBackoffSeconds)] + rest;
    assert t[1..] == [Slept(RetryBackoffSeconds)] + rest;
    assert t[1..][1..] == rest;
  }

  /** With the default budget a batch that keeps failing transiently costs three attempts and six seconds of sleep. */
  lemma ExhaustedCost(store: nat -> StoreOutcome)
    requires TransientBetween(store, 0, RetryBudget)
    ensures Run(store, 0, RetryBudget).result == RetriesExhausted
    ensures Attempts(Run(store, 0, RetryBudget).trace) == 3
    ensures SecondsSlept(Run(store, 0, RetryBudget).trace) == 6
  {
    ExhaustedTrace(store, 0, RetryBudget);
    var t := Backoffs(3);
    assert t == [Attempted(TransientFailure), Slept(2), Attempted(TransientFailure), Slept(2), Attempted(TransientFailure), Slept(2)];
    assert t[1..][1..][1..][1..][1..][1..] == [];
  }

  /** One transient failure, then success: fail, sleep two seconds, succeed. */
  lemma SuccessOnSecondAttempt(store: nat -> StoreOutcome)
    requires store(0) == TransientFailure && store(1) == Succeeded
    ensures Run(store, 0, RetryBudget) ==
      Outcome(Imported, [Attempted(TransientFailure), Slept(2), Attempted(Succeeded)])
  {
  }
}
