/**
 * The two retry loops around the chat API (`safe_send_message`, `safe_send_dice`).
 *
 * The API itself is not modelled: `outcomes[k]` is what the `k`-th call returns
 * or raises. A loop returns what was delivered, if anything, and the list of
 * sleeps it performed, in order.
 */
module Dispatch {
  import opened Wrappers

  /** One API call: it returned, raised `RetryAfter`, or raised `TimedOut`/`NetworkError`. */
  datatype Attempt<T> = Delivered(value: T) | RetryAfter(retryAfter: nat) | NetworkFailure

  datatype Sent<T> = Sent(result: Option<T>, sleeps: seq<nat>)

  function Min(a: int, b: int): int {
    if a <= b then a else b
  }

  // ---------------------------------------------------------------------------
  // safe_send_message: 5 attempts, exponential back-off from 1 second
  // ---------------------------------------------------------------------------

  const MaxRetries: nat := 5
  const InitialDelay: nat := 1

  /**
   * The delay in force before the `i`-th sleep of a run whose sleeps are `sleeps`:
   * the initial delay, then twice the previous sleep (`delay *= 2` after sleeping).
   */
  function DelayBefore(initial: nat, sleeps: seq<nat>, i: nat): nat
    requires i <= |sleeps|
  {
    if i == 0 then initial else 2 * sleeps[i - 1]
  }

  /** What one failed attempt sleeps, given the delay in force. */
  function SleepAfter<T>(a: Attempt<T>, delay: nat): nat {
    match a
    case RetryAfter(r) => Min(r, 2 * delay)
    case _ => delay
  }

  /** Attempts `attempt`, `attempt + 1`, ... up to `MaxRetries`, with `delay` in force. */
  function Backoff<T>(outcomes: seq<Attempt<T>>, attempt: nat, delay: nat): (r: Sent<T>)
    requires attempt <= MaxRetries <= |outcomes|
    ensures attempt + |r.sleeps| <= MaxRetries
    ensures forall i :: attempt <= i < attempt + |r.sleeps| ==> !outcomes[i].Delivered?
    ensures r.result.Some? ==> attempt + |r.sleeps| < MaxRetries
    ensures r.result.Some? ==> outcomes[attempt + |r.sleeps|] == Delivered(r.result.value)
    ensures r.result.None? ==> attempt + |r.sleeps| == MaxRetries
    decreases MaxRetries - attempt
  {
    if attempt == MaxRetries then Sent(None, [])
    else match outcomes[attempt]
      case Delivered(v) => Sent(Some(v), [])
      case _ =>
        var slept := SleepAfter(outcomes[attempt], delay);
        var rest := Backoff(outcomes, attempt + 1, 2 * slept);
        Sent(rest.result, [slept] + rest.sleeps)
  }

  /** Each sleep follows from the attempt's outcome and the delay in force before it. */
  lemma {:induction false} BackoffSleeps<T>(outcomes: seq<Attempt<T>>, attempt: nat, delay: nat)
    requires attempt <= MaxRetries <= |outcomes|
    ensures var r := Backoff(outcomes, attempt, delay);
      forall i :: 0 <= i < |r.sleeps| ==>
        r.sleeps[i] == SleepAfter(outcomes[attempt + i], DelayBefore(delay, r.sleeps, i))
    decreases MaxRetries - attempt
  {
    if attempt < MaxRetries && !outcomes[attempt].Delivered? {
      var slept := SleepAfter(outcomes[attempt], delay);
      var rest := Backoff(outcomes, attempt + 1, 2 * slept);
      BackoffSleeps(outcomes, attempt + 1, 2 * slept);
      var r := Backoff(outcomes, attempt, delay);
      assert r.sleeps == [slept] + rest.sleeps;
      forall i | 1 <= i < |r.sleeps|
        ensures r.sleeps[i] == SleepAfter(outcomes[attempt + i], DelayBefore(delay, r.sleeps, i))
      {
        assert r.sleeps[i] == rest.sleeps[i - 1];
        assert DelayBefore(delay, r.sleeps, i) == DelayBefore(2 * slept, rest.sleeps, i - 1);
      }
    }
  }

  /**
   * `safe_send_message`: the first delivery among the first five attempts, and a
   * sleep after every failed attempt, the fifth included.
   */
  function SafeSendMessage<T>(outcomes: seq<Attempt<T>>): (r: Sent<T>)
    requires |outcomes| >= MaxRetries
    ensures |r.sleeps| <= MaxRetries && (r.result.Some? ==> |r.sleeps| < MaxRetries)
    ensures r.result.Some? <==> exists i :: 0 <= i < MaxRetries && outcomes[i].Delivered?
    ensures r.result.Some? ==> outcomes[|r.sleeps|] == Delivered(r.result.value)
    ensures forall i :: 0 <= i < |r.sleeps| ==> !outcomes[i].Delivered?
    ensures r.result.None? ==> |r.sleeps| == MaxRetries
    ensures forall i :: 0 <= i < |r.sleeps| ==>
      r.sleeps[i] == SleepAfter(outcomes[i], DelayBefore(InitialDelay, r.sleeps, i))
  {
    BackoffSleeps(outcomes, 0, InitialDelay);
    var r := Backoff(outcomes, 0, InitialDelay);
    assert r.result.Some? ==> outcomes[|r.sleeps|].Delivered?;
    r
  }

  /** The number of API calls made: one per sleep, plus the one that delivered. */
  function Calls<T>(r: Sent<T>): nat {
    |r.sleeps| + (if r.result.Some? then 1 else 0)
  }

  lemma AtMostFiveCalls<T>(outcomes: seq<Attempt<T>>)
    requires |outcomes| >= MaxRetries
    ensures Calls(SafeSendMessage(outcomes)) <= MaxRetries
    ensures outcomes[0].Delivered? ==> SafeSendMessage(outcomes) == Sent(Some(outcomes[0].value), [])
  {
  }

  /** Only network failures: the sleeps double from one second. */
  lemma NetworkFailuresDouble<T>(outcomes: seq<Attempt<T>>)
    requires |outcomes| >= MaxRetries
    requires forall i :: 0 <= i < MaxRetries ==> outcomes[i].NetworkFailure?
    ensures SafeSendMessage(outcomes) == Sent(None, [1, 2, 4, 8, 16])
  {
    var r := SafeSendMessage(outcomes);
    assert r.sleeps[0] == 1;
    assert r.sleeps[1] == 2;
    assert r.sleeps[2] == 4;
    assert r.sleeps[3] == 8;
    assert r.sleeps[4] == 16;
  }

  /**
   * A `RetryAfter` shorter than twice the delay is slept as given, and the next
   * delay is twice that: a server asking for 1 second every time keeps the sleeps at 1.
   */
  lemma RetryAfterCapsTheSleep<T>(outcomes: seq<Attempt<T>>)
    requires |outcomes| >= MaxRetries
    requires forall i :: 0 <= i < MaxRetries ==> outcomes[i] == RetryAfter(1)
    ensures SafeSendMessage(outcomes) == Sent(None, [1, 1, 1, 1, 1])
  {
    var r := SafeSendMessage(outcomes);
    assert r.sleeps[0] == 1;
    assert r.sleeps[1] == 1;
    assert r.sleeps[2] == 1;
    assert r.sleeps[3] == 1;
    assert r.sleeps[4] == 1;
  }

  // ---------------------------------------------------------------------------
  // safe_send_dice: 3 attempts, fixed sleeps
  // ---------------------------------------------------------------------------

  const DiceRetries: nat := 3
  const NetworkPause: nat := 5

  /** Attempts `attempt` .. `DiceRetries - 1` of `safe_send_dice`. */
  function DiceAttempts<T>(outcomes: seq<Attempt<T>>, attempt: nat): (r: Sent<T>)
    requires attempt <= DiceRetries <= |outcomes|
    ensures attempt + |r.sleeps| <= DiceRetries
    ensures forall i :: attempt <= i < attempt + |r.sleeps| ==> !outcomes[i].Delivered?
    ensures r.result.Some? ==> attempt + |r.sleeps| < DiceRetries
    ensures r.result.Some? ==> outcomes[attempt + |r.sleeps|] == Delivered(r.result.value)
    ensures r.result.None? ==> attempt + |r.sleeps| == DiceRetries
    ensures forall i :: 0 <= i < |r.sleeps| ==>
      r.sleeps[i] == (if outcomes[attempt + i].RetryAfter? then outcomes[attempt + i].retryAfter else NetworkPause)
    decreases DiceRetries - attempt
  {
    if attempt == DiceRetries then Sent(None, [])
    else match outcomes[attempt]
      case Delivered(v) => Sent(Some(v), [])
      case RetryAfter(s) =>
        var rest := DiceAttempts(outcomes, attempt + 1);
        Sent(rest.result, [s] + rest.sleeps)
      case NetworkFailure =>
        var rest := DiceAttempts(outcomes, attempt + 1);
        Sent(rest.result, [NetworkPause] + rest.sleeps)
  }

  /**
   * `safe_send_dice`: the first delivery among three attempts; a `RetryAfter(r)`
   * sleeps exactly `r`, a network failure exactly five seconds.
   */
  function SafeSendDice<T>(outcomes: seq<Attempt<T>>): (r: Sent<T>)
    requires |outcomes| >= DiceRetries
    ensures |r.sleeps| <= DiceRetries && (r.result.Some? ==> |r.sleeps| < DiceRetries)
    ensures r.result.Some? <==> exists i :: 0 <= i < DiceRetries && outcomes[i].Delivered?
    ensures r.result.Some? ==> outcomes[|r.sleeps|] == Delivered(r.result.value)
    ensures r.result.None? ==> |r.sleeps| == DiceRetries
    ensures forall i :: 0 <= i < |r.sleeps| ==> !outcomes[i].Delivered?
    ensures forall i :: 0 <= i < |r.sleeps| ==>
      r.sleeps[i] == (if outcomes[i].RetryAfter? then outcomes[i].retryAfter else NetworkPause)
  {
    DiceAttempts(outcomes, 0)
  }
}
