/** One provider call: bounded retries around a send, and what it reports to the circuit breaker. */
module Retry {
  /** How a send ends. A connection error never reached the provider; `Stray` is an exception of a
      kind the retry loop does not catch. */
  datatype Outcome = ConnectionError | Timeout | OtherError | Stray | Response(status: int)

  datatype Report = ReportSuccess | ReportFailure

  datatype Verdict = Returned(status: int) | ClientError(status: int) | Unavailable | CircuitOpen | Escaped

  datatype Policy = Policy(maxAttempts: int, retryOn: set<int>, retryTimeouts: bool) {
    /** Whether the loop tries again after this outcome, attempts permitting. */
    predicate Retries(o: Outcome) {
      o.ConnectionError? || (o.Timeout? && retryTimeouts) || (o.Response? && o.status in retryOn)
    }

    /** `sent` is what a run against `provider` sends: it stops at the first outcome that is not
        retried, or when the attempts are used up. */
    ghost predicate IsRun(sent: seq<Outcome>, provider: nat -> Outcome) {
      && (forall i :: 0 <= i < |sent| ==> sent[i] == provider(i))
      && (forall i :: 0 <= i < |sent| - 1 ==> Retries(provider(i)))
      && |sent| <= (if maxAttempts > 0 then maxAttempts else 0)
      && (|sent| < maxAttempts ==> sent != [] && !Retries(provider(|sent| - 1)))
    }
  }

  /** What the outcome of the last send means; no send at all counts as a failure. */
  function Meaning(sent: seq<Outcome>): Verdict {
    if sent == [] then Unavailable
    else
      match sent[|sent| - 1]
      case Response(status) =>
        if 400 <= status < 500 then ClientError(status) else if status >= 500 then Unavailable else Returned(status)
      case Stray => Escaped
      case _ => Unavailable
  }

  /** What a granted call reports to its breaker: one thing, unless a stray exception escapes. */
  function Reports(verdict: Verdict): seq<Report> {
    if verdict.Escaped? then [] else [if verdict.Unavailable? then ReportFailure else ReportSuccess]
  }

  /** The call. The n-th send ends in `provider(n - 1)`; `granted` is the breaker's answer, if there
      is a breaker. It reports exactly once for a granted call, except when a stray exception
      escapes, and never for a refused one. */
  method RequestWithRetries(policy: Policy, backoff: real, hasBreaker: bool, granted: bool, provider: nat -> Outcome)
    returns (verdict: Verdict, sent: seq<Outcome>, slept: seq<real>, reports: seq<Report>)
    ensures hasBreaker && !granted ==> verdict == CircuitOpen && sent == [] && slept == [] && reports == []
    ensures !hasBreaker || granted ==> policy.IsRun(sent, provider) && verdict == Meaning(sent)
    ensures !hasBreaker ==> reports == []
    ensures hasBreaker && granted ==> reports == Reports(verdict) && !verdict.CircuitOpen?
    ensures |slept| == (if sent == [] then 0 else |sent| - 1)
    ensures forall i :: 0 <= i < |slept| ==> slept[i] == backoff * (i + 1) as real
  {
    sent, slept, reports := [], [], [];
    if hasBreaker && !granted {
      verdict := CircuitOpen;
      return;
    }
    var attempt := 1;
    while attempt <= policy.maxAttempts
      invariant 1 <= attempt && |sent| == |slept| == attempt - 1
      invariant attempt > 1 ==> attempt <= policy.maxAttempts
      invariant reports == []
      invariant forall i :: 0 <= i < |sent| ==> sent[i] == provider(i) && policy.Retries(sent[i])
      invariant forall i :: 0 <= i < |slept| ==> slept[i] == backoff * (i + 1) as real
    {
      var outcome := provider(attempt - 1);
      sent := sent + [outcome];
      match outcome {
        case Stray =>
          verdict := Escaped;
          return;
        case Response(status) =>
          if status in policy.retryOn && attempt < policy.maxAttempts {
            slept := slept + [backoff * attempt as real];
            attempt := attempt + 1;
            continue;
          }
          if 400 <= status < 500 {
            if hasBreaker {
              reports := reports + [ReportSuccess];
            }
            verdict := ClientError(status);
            return;
          }
          if status >= 500 {
            break;
          }
          if hasBreaker {
            reports := reports + [ReportSuccess];
          }
          verdict := Returned(status);
          return;
        case _ =>
          var safe := outcome.ConnectionError? || (policy.retryTimeouts && outcome.Timeout?);
          if safe && attempt < policy.maxAttempts {
            slept := slept + [backoff * attempt as real];
            attempt := attempt + 1;
            continue;
          }
          break;
      }
    }
    if hasBreaker {
      reports := reports + [ReportFailure];
    }
    verdict := Unavailable;
  }

  /** A run is determined by the provider: a longer or shorter one would break a rule. */
  lemma RunIsUnique(policy: Policy, a: seq<Outcome>, b: seq<Outcome>, provider: nat -> Outcome)
    requires policy.IsRun(a, provider) && policy.IsRun(b, provider)
    ensures a == b
  {
    assert |a| == |b|;
  }

  /** A run with attempts to make goes on exactly through connection errors, timeouts the policy retries and
      statuses on its list, until the attempts are used up. */
  lemma StopsAtTheFirstFinalOutcome(policy: Policy, sent: seq<Outcome>, provider: nat -> Outcome)
    requires policy.IsRun(sent, provider) && policy.maxAttempts >= 1
    ensures 1 <= |sent| <= policy.maxAttempts
    ensures forall i :: 0 <= i < |sent| - 1 ==>
              match sent[i]
              case ConnectionError => true
              case Timeout => policy.retryTimeouts
              case Response(status) => status in policy.retryOn
              case _ => false
    ensures |sent| < policy.maxAttempts ==>
              match sent[|sent| - 1]
              case ConnectionError => false
              case Timeout => !policy.retryTimeouts
              case Response(status) => status !in policy.retryOn
              case _ => true
  {
    assert sent != [] && sent[|sent| - 1] == provider(|sent| - 1);
  }

  /** The breaker hears of a success exactly when the last send was answered below 500, of nothing exactly
      when an uncaught exception escaped, and of a failure otherwise: exhausted errors, timeouts, server
      errors. The caller gets the status of an answer below 500, below 400 as a result. */
  lemma ReportFollowsLastSend(sent: seq<Outcome>)
    ensures Reports(Meaning(sent)) == [ReportSuccess] <==>
              sent != [] && sent[|sent| - 1].Response? && sent[|sent| - 1].status < 500
    ensures Reports(Meaning(sent)) == [] <==> sent != [] && sent[|sent| - 1] == Stray
    ensures Reports(Meaning(sent)) == [ReportFailure] <==>
              sent == [] || sent[|sent| - 1] in {ConnectionError, Timeout, OtherError}
              || (sent[|sent| - 1].Response? && sent[|sent| - 1].status >= 500)
    ensures forall x :: Meaning(sent) == Returned(x) <==> sent != [] && sent[|sent| - 1] == Response(x) && x < 400
    ensures forall x :: Meaning(sent) == ClientError(x) <==>
              sent != [] && sent[|sent| - 1] == Response(x) && 400 <= x < 500
  {
  }

  /** The sends that may have reached the provider, on the source's reading of a connection error. */
  predicate MayHaveReached(o: Outcome) {
    !o.ConnectionError?
  }

  ghost predicate AtMostOneReached(sent: seq<Outcome>) {
    forall i, j :: 0 <= i < j < |sent| ==> !(MayHaveReached(sent[i]) && MayHaveReached(sent[j]))
  }

  /** The policy under which a payment call is safe to make without an idempotency key. */
  predicate OnlyConnectionErrorsRetried(policy: Policy) {
    policy.retryOn == {} && !policy.retryTimeouts
  }

  lemma {:induction false} Repeats(policy: Policy, o: Outcome)
    requires policy.Retries(o) && policy.maxAttempts >= 0
    ensures policy.IsRun(seq(policy.maxAttempts, i => o), _ => o)
  {
  }

  /** No provider can be reached twice by one call exactly when only connection errors are retried
      or there is only one attempt. */
  lemma ReachedAtMostOnce(policy: Policy)
    ensures OnlyConnectionErrorsRetried(policy) || policy.maxAttempts <= 1
       <==> forall provider: nat -> Outcome, sent :: policy.IsRun(sent, provider) ==> AtMostOneReached(sent)
  {
    if !OnlyConnectionErrorsRetried(policy) && policy.maxAttempts > 1 {
      var o := Timeout;
      if !policy.retryTimeouts {
        assert (forall status :: status !in policy.retryOn) ==> policy.retryOn == {};
        var status :| status in policy.retryOn;
        o := Response(status);
      }
      Repeats(policy, o);
      var sent := seq(policy.maxAttempts, i => o);
      assert MayHaveReached(sent[0]) && MayHaveReached(sent[1]);
      assert !AtMostOneReached(sent);
    }
  }
}
