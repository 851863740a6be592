/** The polling loop of tools/device-flow-validate, with the network as an oracle. */
module PollLoop {

  const SECOND := 1_000_000_000

  /**
   * What one request yields. `Invalid` is a body that is not a JSON status, and
   * `Unknown` a status the client does not know.
   */
  datatype Answer = Pending | SlowDown | Approved | Denied | Forbidden | Expired | Invalid | Unknown | NetworkError

  datatype Outcome = Status(answer: Answer) | TimedOut | InvalidBody | UnexpectedStatus | GaveUp

  predicate IsTerminal(answer: Answer) {
    answer.Approved? || answer.Denied? || answer.Forbidden? || answer.Expired?
  }

  function SlowDowns(answers: nat -> Answer, n: nat): (k: nat)
    ensures k <= n
  {
    if n == 0 then 0 else SlowDowns(answers, n - 1) + if answers(n - 1).SlowDown? then 1 else 0
  }

  /** Network errors in a row at the end of the first `n` answers. */
  function ErrorsInARow(answers: nat -> Answer, n: nat): (k: nat)
    ensures k <= n
  {
    if n > 0 && answers(n - 1).NetworkError? then ErrorsInARow(answers, n - 1) + 1 else 0
  }

  /** The first wait, in seconds. */
  function FirstWait(pollAfter: nat): (p: nat)
    ensures p >= 1 && p >= pollAfter
  {
    if pollAfter < 1 then 1 else pollAfter
  }

  /** The wait before request `n`, in seconds. */
  function Wait(pollAfter: nat, answers: nat -> Answer, n: nat): nat {
    FirstWait(pollAfter) + 5 * SlowDowns(answers, n)
  }

  /** Time since the start when request `n` is considered; `extra` is what sleeping
      and asking took beyond the wait. */
  function Elapsed(pollAfter: nat, answers: nat -> Answer, extra: nat -> nat, n: nat): nat {
    if n == 0 then 0
    else Elapsed(pollAfter, answers, extra, n - 1) + Wait(pollAfter, answers, n - 1) * SECOND + extra(n - 1)
  }

  /** The loop goes on after the `n`-th answer. */
  predicate GoesOn(answers: nat -> Answer, n: nat) {
    || answers(n).Pending?
    || answers(n).SlowDown?
    || (answers(n).NetworkError? && ErrorsInARow(answers, n + 1) < 5)
  }

  function OutcomeOf(answer: Answer): Outcome {
    match answer
    case NetworkError => GaveUp
    case Invalid => InvalidBody
    case Unknown => UnexpectedStatus
    case _ => Status(answer)
  }

  /** The loop is still going before request `n`. */
  ghost predicate Going(pollAfter: nat, timeout: nat, answers: nat -> Answer, extra: nat -> nat, n: nat) {
    && (forall i: nat :: i < n ==> Elapsed(pollAfter, answers, extra, i) < timeout * SECOND)
    && (forall i: nat :: i < n ==> GoesOn(answers, i))
  }

  /** `requests` requests are made and the loop ends with `outcome`. */
  ghost predicate Ends(pollAfter: nat, timeout: nat, answers: nat -> Answer, extra: nat -> nat,
                       requests: nat, outcome: Outcome)
  {
    if outcome.TimedOut? then
      && Going(pollAfter, timeout, answers, extra, requests)
      && Elapsed(pollAfter, answers, extra, requests) >= timeout * SECOND
    else
      && requests >= 1
      && Going(pollAfter, timeout, answers, extra, requests - 1)
      && Elapsed(pollAfter, answers, extra, requests - 1) < timeout * SECOND
      && !GoesOn(answers, requests - 1)
      && outcome == OutcomeOf(answers(requests - 1))
  }

  lemma RequestMade(pollAfter: nat, timeout: nat, answers: nat -> Answer, extra: nat -> nat, n: nat)
    requires Going(pollAfter, timeout, answers, extra, n)
    requires Elapsed(pollAfter, answers, extra, n) < timeout * SECOND
    ensures GoesOn(answers, n) ==> Going(pollAfter, timeout, answers, extra, n + 1)
    ensures !GoesOn(answers, n) ==> Ends(pollAfter, timeout, answers, extra, n + 1, OutcomeOf(answers(n)))
    ensures Elapsed(pollAfter, answers, extra, n + 1)
         == Elapsed(pollAfter, answers, extra, n) + Wait(pollAfter, answers, n) * SECOND + extra(n)
    ensures Wait(pollAfter, answers, n + 1) == Wait(pollAfter, answers, n) + if answers(n).SlowDown? then 5 else 0
  {
  }

  method Poll(pollAfter: nat, timeout: nat, answers: nat -> Answer, extra: nat -> nat)
    returns (outcome: Outcome, requests: nat)
    ensures Ends(pollAfter, timeout, answers, extra, requests, outcome)
    ensures outcome.Status? ==> IsTerminal(outcome.answer)
  {
    var elapsed, deadline := 0, timeout * SECOND;
    var interval := if pollAfter < 1 then 1 else pollAfter;
    var consecutiveErrors := 0;
    requests := 0;
    while true
      invariant elapsed == Elapsed(pollAfter, answers, extra, requests)
      invariant interval == Wait(pollAfter, answers, requests)
      invariant consecutiveErrors == ErrorsInARow(answers, requests) < 5
      invariant Going(pollAfter, timeout, answers, extra, requests)
      decreases deadline - elapsed
    {
      if elapsed >= deadline {
        return TimedOut, requests;
      }
      RequestMade(pollAfter, timeout, answers, extra, requests);
      elapsed := elapsed + interval * SECOND + extra(requests);
      var answer := answers(requests);
      requests := requests + 1;
      if answer.NetworkError? {
        consecutiveErrors := consecutiveErrors + 1;
        if consecutiveErrors >= 5 {
          return GaveUp, requests;
        }
      } else {
        consecutiveErrors := 0;
        if answer.Invalid? {
          return InvalidBody, requests;
        } else if answer.SlowDown? {
          interval := interval + 5;
        } else if IsTerminal(answer) {
          return Status(answer), requests;
        } else if !answer.Pending? {
          return UnexpectedStatus, requests;
        }
      }
    }
  }

  /** The environment determines how the loop ends. */
  lemma EndsOnce(pollAfter: nat, timeout: nat, answers: nat -> Answer, extra: nat -> nat,
                 r1: nat, o1: Outcome, r2: nat, o2: Outcome)
    requires Ends(pollAfter, timeout, answers, extra, r1, o1)
    requires Ends(pollAfter, timeout, answers, extra, r2, o2)
    ensures r1 == r2 && o1 == o2
  {
    assert !(r1 < r2);
    assert !(r2 < r1);
  }

  lemma {:induction false} ASecondEach(pollAfter: nat, answers: nat -> Answer, extra: nat -> nat, n: nat)
    ensures Elapsed(pollAfter, answers, extra, n) >= n * SECOND
  {
    if n > 0 {
      ASecondEach(pollAfter, answers, extra, n - 1);
    }
  }

  /** At most one request for each second of the timeout. */
  lemma AtMostTimeoutRequests(pollAfter: nat, timeout: nat, answers: nat -> Answer, extra: nat -> nat,
                              requests: nat, outcome: Outcome)
    requires Ends(pollAfter, timeout, answers, extra, requests, outcome)
    ensures requests <= timeout
  {
    ASecondEach(pollAfter, answers, extra, requests);
    if requests > 0 {
      ASecondEach(pollAfter, answers, extra, requests - 1);
    }
  }

  /** Twice the seconds that `k` slow-downs have cost by the time of the next wait. */
  function TwiceBackoff(first: nat, k: nat): int {
    2 * k * first + 5 * k * (k - 1)
  }

  lemma BackoffStep(first: nat, k: nat)
    ensures TwiceBackoff(first, k + 1) == TwiceBackoff(first, k) + 2 * (first + 5 * k)
  {
  }

  lemma {:induction false} SlowDownsCost(pollAfter: nat, answers: nat -> Answer, extra: nat -> nat, n: nat)
    ensures 2 * Elapsed(pollAfter, answers, extra, n)
         >= TwiceBackoff(FirstWait(pollAfter), SlowDowns(answers, n)) * SECOND
  {
    if n > 0 {
      SlowDownsCost(pollAfter, answers, extra, n - 1);
      BackoffStep(FirstWait(pollAfter), SlowDowns(answers, n - 1));
    }
  }

  /** With `k` slow-down replies and a first wait of p seconds, (k-1)p + 5(k-1)(k-2)/2 is below the timeout. */
  lemma SlowDownsAreQuadratic(pollAfter: nat, timeout: nat, answers: nat -> Answer, extra: nat -> nat,
                              requests: nat, outcome: Outcome)
    requires Ends(pollAfter, timeout, answers, extra, requests, outcome)
    ensures var k := SlowDowns(answers, requests);
            k >= 1 ==> 2 * (k - 1) * FirstWait(pollAfter) + 5 * (k - 1) * (k - 2) < 2 * timeout
  {
    if SlowDowns(answers, requests) >= 1 {
      LastSlowDown(pollAfter, timeout, answers, extra, requests);
    }
  }

  /** The last slow-down reply was to a request made before the deadline. */
  lemma {:induction false} LastSlowDown(pollAfter: nat, timeout: nat, answers: nat -> Answer, extra: nat -> nat, n: nat)
    requires SlowDowns(answers, n) >= 1
    requires forall i: nat :: i < n ==> Elapsed(pollAfter, answers, extra, i) < timeout * SECOND
    ensures TwiceBackoff(FirstWait(pollAfter), SlowDowns(answers, n) - 1) < 2 * timeout
  {
    if answers(n - 1).SlowDown? {
      SlowDownsCost(pollAfter, answers, extra, n - 1);
    } else {
      LastSlowDown(pollAfter, timeout, answers, extra, n - 1);
    }
  }

  // ----- the loop in plain terms

  /** No time has passed at the start; each request waits, five seconds longer after each slow-down. */
  lemma WaitsAre(pollAfter: nat, answers: nat -> Answer, extra: nat -> nat, n: nat)
    ensures Elapsed(pollAfter, answers, extra, 0) == 0 && SlowDowns(answers, 0) == 0
    ensures Elapsed(pollAfter, answers, extra, n + 1)
         == Elapsed(pollAfter, answers, extra, n)
            + ((if pollAfter < 1 then 1 else pollAfter) + 5 * SlowDowns(answers, n)) * 1_000_000_000 + extra(n)
    ensures SlowDowns(answers, n + 1) == SlowDowns(answers, n) + if answers(n).SlowDown? then 1 else 0
  {
  }

  /** The `m` answers before `n` are network errors. */
  ghost predicate AllErrors(answers: nat -> Answer, n: nat, m: nat) {
    m <= n && forall i: nat :: n - m <= i < n ==> answers(i).NetworkError?
  }

  lemma {:induction false} ErrorsCount(answers: nat -> Answer, n: nat, m: nat)
    ensures ErrorsInARow(answers, n) >= m <==> AllErrors(answers, n, m)
  {
    if n > 0 && m > 0 {
      ErrorsCount(answers, n - 1, m - 1);
      if AllErrors(answers, n, m) {
        assert answers(n - 1).NetworkError?;
        assert AllErrors(answers, n - 1, m - 1);
      }
    }
  }

  /**
   * How the loop ends: by the timeout, by a status, or by five network errors in a row, and
   * with none of these before.
   */
  lemma HowItEnds(pollAfter: nat, timeout: nat, answers: nat -> Answer, extra: nat -> nat, requests: nat,
                  outcome: Outcome)
    requires Ends(pollAfter, timeout, answers, extra, requests, outcome)
    ensures outcome.TimedOut? ==> Elapsed(pollAfter, answers, extra, requests) >= timeout * 1_000_000_000
    ensures !outcome.TimedOut? ==> requests >= 1
    ensures match outcome
            case TimedOut => true
            case Status(answer) =>
              && answers(requests - 1) == answer
              && (answer.Approved? || answer.Denied? || answer.Forbidden? || answer.Expired?)
            case InvalidBody => answers(requests - 1).Invalid?
            case UnexpectedStatus => answers(requests - 1).Unknown?
            case GaveUp => AllErrors(answers, requests, 5)
    ensures var earlier := if outcome.TimedOut? then requests else requests - 1;
            && (forall i: nat :: i < earlier ==>
                  answers(i).Pending? || answers(i).SlowDown? || answers(i).NetworkError?)
            && (forall i: nat :: i < earlier ==> Elapsed(pollAfter, answers, extra, i) < timeout * 1_000_000_000)
            && (forall n: nat :: n <= earlier ==> !AllErrors(answers, n, 5))
  {
    ErrorsCount(answers, requests, 5);
    var earlier := if outcome.TimedOut? then requests else requests - 1;
    forall i: nat | i < earlier
      ensures answers(i).Pending? || answers(i).SlowDown? || answers(i).NetworkError?
    {
      assert GoesOn(answers, i);
    }
    forall n: nat | n <= earlier
      ensures !AllErrors(answers, n, 5)
    {
      ErrorsCount(answers, n, 5);
      if n > 0 { assert GoesOn(answers, n - 1); }
    }
  }
}
