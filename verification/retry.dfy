/** The retry executor of shared/tools/retry.go: error classification and
    `RetryWithBackoff`, a bounded loop of attempts separated by capped,
    jittered, exponentially growing sleeps.

    The function being retried, the context and the random source are
    oracles: `fn(k)` is what the k-th invocation returns, `Oracle` says
    whether the context is done at each check and which byte the random
    source yields before each sleep. A run reports its result, how many
    times `fn` was invoked (always attempts 1..calls, in order) and the
    sleeps it completed (sleep i lies between calls i+1 and i+2). */
module Retry {
  import opened Errors

  // ----- classification -----

  /** NewRetryableError: a classified error that is never permanent. */
  function NewRetryableError(err: Error, retryable: bool): (r: Error)
    ensures r.Classified? && r.cause == err && !r.permanent
  {
    Classified(err, retryable, false)
  }

  /** NewPermanentError: a classified error that is permanent and not retryable. */
  function NewPermanentError(err: Error): (r: Error)
    ensures r.Classified? && r.cause == err && r.permanent
  {
    Classified(err, false, true)
  }

  /** IsRetryable looks only at the outermost error: an unclassified error is
      retryable, a classified one exactly when it is retryable and not permanent. */
  predicate IsRetryable(err: Error) {
    match err
    case Classified(_, retryable, permanent) => retryable && !permanent
    case _ => true
  }

  lemma ClassificationRules(err: Error, flag: bool)
    ensures !IsRetryable(NewPermanentError(err))
    ensures IsRetryable(NewRetryableError(err, flag)) <==> flag
    ensures !err.Classified? ==> IsRetryable(err)
    // wrapping hides a classification: the outer error is retryable
    ensures forall ctx: string :: IsRetryable(Wrapped(ctx, NewPermanentError(err)))
  {
  }

  // ----- configuration -----

  datatype RetryConfig = RetryConfig(
    maxAttempts: int,
    initialDelay: nat,
    maxDelay: nat,
    backoffFactor: nat,   // the source's float factor; every caller uses 2
    jitter: bool)

  function DefaultRetryConfig(): (c: RetryConfig)
    ensures c.maxAttempts == 3 && c.initialDelay == 100 * Millisecond
    ensures c.maxDelay == 30 * Second && c.backoffFactor == 2 && c.jitter
  {
    RetryConfig(3, 100 * Millisecond, 30 * Second, 2, true)
  }

  /** A nil configuration is replaced by the defaults. */
  function Effective(config: Option<RetryConfig>): (c: RetryConfig)
    ensures config.None? ==> c == DefaultRetryConfig()
    ensures config.Some? ==> c == config.value
  {
    if config.None? then DefaultRetryConfig() else config.value
  }

  // ----- jitter and backoff -----

  function Min(a: nat, b: nat): nat { if a <= b then a else b }

  function Pow(b: nat, e: nat): nat {
    if e == 0 then 1 else b * Pow(b, e - 1)
  }

  /** addJitter: the delay minus a quarter, plus `n = byte mod (delay/2)`
      drawn from one random byte; `n` is 0 when `delay/2` is 0 or the random
      source fails (`draw == None`). The added amount never exceeds 255 ns,
      so the realised value is close to three quarters of the delay rather
      than spread over the +-25% window the source comment announces. */
  function AddJitter(delay: nat, draw: Option<byte>): (r: nat)
    ensures delay - delay / 4 <= r
    ensures r - (delay - delay / 4) <= 255
    ensures r - (delay - delay / 4) == 0 || r - (delay - delay / 4) < delay / 2
    ensures delay - delay / 4 <= r <= delay + delay / 4
    ensures draw.None? || delay / 2 == 0 ==> r == delay - delay / 4
  {
    var n := JitterAmount(delay, draw);
    QuarterBounds(delay);
    delay + n - delay / 4
  }

  /** The random amount: the byte modulo `delay/2`, or 0. */
  function JitterAmount(delay: nat, draw: Option<byte>): (n: nat)
    ensures n <= 255
    ensures n == 0 || n < delay / 2
    ensures draw.None? || delay / 2 == 0 ==> n == 0
  {
    var max := delay / 2;
    if max > 0 && draw.Some? then ModBound(draw.value as nat, max); draw.value as nat % max else 0
  }

  lemma ModBound(b: nat, m: nat)
    requires m > 0
    ensures b % m <= b && b % m < m
  {
  }

  lemma QuarterBounds(delay: nat)
    ensures delay / 4 <= delay
    ensures delay / 2 <= 2 * (delay / 4) + 1
  {
  }

  /** The sleep taken after a failed attempt whose un-jittered delay is
      `delay`: jittered when enabled, then capped at `maxDelay`. */
  function SleepFor(cfg: RetryConfig, delay: nat, draw: Option<byte>): (r: nat)
    ensures r <= cfg.maxDelay
  {
    var next := if cfg.jitter then AddJitter(delay, draw) else delay;
    if next > cfg.maxDelay then cfg.maxDelay else next
  }

  /** A sleep never exceeds a quarter above its delay; without jitter it is
      the delay capped at maxDelay, with jitter either the cap or within
      255ns above three quarters of the delay. */
  lemma SleepForBounds(cfg: RetryConfig, delay: nat, draw: Option<byte>)
    ensures SleepFor(cfg, delay, draw) <= delay + delay / 4
    ensures !cfg.jitter ==> SleepFor(cfg, delay, draw) == Min(delay, cfg.maxDelay)
    ensures cfg.jitter ==> SleepFor(cfg, delay, draw) == cfg.maxDelay
                           || delay - delay / 4 <= SleepFor(cfg, delay, draw) <= delay - delay / 4 + 255
  {
  }

  /** `delay` multiplied by `factor`, `i` times over, as the loop does. */
  function Grown(delay: nat, factor: nat, i: nat): nat
    decreases i
  {
    if i == 0 then delay else Grown(delay * factor, factor, i - 1)
  }

  lemma GrownStep(delay: nat, factor: nat, i: nat)
    requires i > 0
    ensures Grown(delay, factor, i) == Grown(delay * factor, factor, i - 1)
  {
  }

  lemma {:induction false} GrownIsPower(delay: nat, factor: nat, i: nat)
    decreases i
    ensures Grown(delay, factor, i) == delay * Pow(factor, i)
  {
    if i > 0 {
      GrownIsPower(delay * factor, factor, i - 1);
      ShiftPow(delay, factor, i);
    }
  }

  /** The un-jittered delay before the k-th sleep: initialDelay * factor^(k-1). */
  function BaseDelay(cfg: RetryConfig, k: nat): nat
    requires k >= 1
  {
    cfg.initialDelay * Pow(cfg.backoffFactor, k - 1)
  }

  // ----- the executor -----

  /** Context and randomness, as seen by the executor. */
  datatype Oracle = Oracle(
    doneBeforeAttempt: nat -> bool,   // ctx.Done() at the check before attempt k
    doneDuringBackoff: nat -> bool,   // ctx.Done() fires during the sleep after attempt k
    jitterDraw: nat -> Option<byte>,  // the random byte drawn for the sleep after attempt k
    ctxErr: Error)                    // ctx.Err() once the context is done

  /** A context that is never done (context.Background()). */
  function Background(draws: nat -> Option<byte>): (o: Oracle)
    ensures forall k :: !o.doneBeforeAttempt(k) && !o.doneDuringBackoff(k)
  {
    Oracle(_ => false, _ => false, draws, ContextCanceled)
  }

  datatype Run = Run(result: Outcome, calls: nat, sleeps: seq<nat>)

  /** The index of the last invocation of a run that started at `attempt`. */
  function LastCall(attempt: nat, r: Run): nat
    requires attempt >= 1
  {
    attempt + r.calls - 1
  }

  /** Iterations `attempt..maxAttempts` of the loop, entered with `delay`. */
  function Loop(cfg: RetryConfig, fn: nat -> Outcome, o: Oracle, attempt: nat, delay: nat): (r: Run)
    requires 1 <= attempt <= cfg.maxAttempts
    decreases cfg.maxAttempts - attempt
    // fn runs at most once per remaining attempt
    ensures r.calls <= cfg.maxAttempts - attempt + 1
    // no sleep follows the final attempt, and every sleep is capped
    ensures |r.sleeps| <= cfg.maxAttempts - attempt
    ensures |r.sleeps| <= r.calls
    ensures forall i :: 0 <= i < |r.sleeps| ==> r.sleeps[i] <= cfg.maxDelay
  {
    if o.doneBeforeAttempt(attempt) then
      Run(Fail(RetryCancelled(false, o.ctxErr)), 0, [])
    else match fn(attempt)
      case Pass => Run(Pass, 1, [])
      case Fail(e) =>
        if !IsRetryable(e) then Run(Fail(NonRetryable(attempt, e)), 1, [])
        else if attempt == cfg.maxAttempts then Run(Fail(Exhausted(cfg.maxAttempts, Some(e))), 1, [])
        else if o.doneDuringBackoff(attempt) then Run(Fail(RetryCancelled(true, o.ctxErr)), 1, [])
        else
          var rest := Loop(cfg, fn, o, attempt + 1, delay * cfg.backoffFactor);
          Run(rest.result, rest.calls + 1, [SleepFor(cfg, delay, o.jitterDraw(attempt))] + rest.sleeps)
  }

  /** Attempt `j` neither stopped the run nor was the last one: the context
      was live before it, it failed retryably, and the context stayed live
      through the sleep after it. */
  ghost predicate Continued(fn: nat -> Outcome, o: Oracle, j: nat) {
    !o.doneBeforeAttempt(j) && fn(j).Fail? && IsRetryable(fn(j).error) && !o.doneDuringBackoff(j)
  }

  /** What a run's result says about the invocation that ended it (the
      `last`-th, or the check before attempt `last + 1`). */
  ghost predicate Explains(cfg: RetryConfig, fn: nat -> Outcome, o: Oracle, last: nat, r: Run) {
    match r.result
    case Pass => fn(last) == Pass && !o.doneBeforeAttempt(last)
    case Fail(NonRetryable(k, e)) => k == last && fn(k) == Fail(e) && !IsRetryable(e) && !o.doneBeforeAttempt(last)
    case Fail(Exhausted(m, cause)) =>
      m == cfg.maxAttempts == last && fn(m).Fail? && cause == Some(fn(m).error) && IsRetryable(fn(m).error)
      && !o.doneBeforeAttempt(last)
    case Fail(RetryCancelled(inBackoff, e)) =>
      e == o.ctxErr &&
      if inBackoff
      then last < cfg.maxAttempts && fn(last).Fail? && IsRetryable(fn(last).error)
           && o.doneDuringBackoff(last) && !o.doneBeforeAttempt(last)
      else last < cfg.maxAttempts && o.doneBeforeAttempt(last + 1)
    case _ => false
  }

  /** The run's calls are consecutive attempts, all but the last of which
      continued; one sleep separates each pair of calls, plus one more when
      the context was found done before a further attempt. */
  lemma {:induction false} LoopPrefix(cfg: RetryConfig, fn: nat -> Outcome, o: Oracle, attempt: nat, delay: nat)
    requires 1 <= attempt <= cfg.maxAttempts
    decreases cfg.maxAttempts - attempt
    ensures var r := Loop(cfg, fn, o, attempt, delay);
            && (r.calls == 0 <==> o.doneBeforeAttempt(attempt))
            && (forall j :: attempt <= j < LastCall(attempt, r) ==> Continued(fn, o, j))
            && (r.result == Fail(RetryCancelled(false, o.ctxErr)) && r.calls > 0 ==> Continued(fn, o, LastCall(attempt, r)))
            && |r.sleeps| == (if r.result == Fail(RetryCancelled(false, o.ctxErr)) then r.calls else r.calls - 1)
  {
    var r := Loop(cfg, fn, o, attempt, delay);
    if o.doneBeforeAttempt(attempt) {
    } else if fn(attempt).Pass? {
    } else if !IsRetryable(fn(attempt).error) {
    } else if attempt == cfg.maxAttempts {
    } else if o.doneDuringBackoff(attempt) {
    } else {
      var rest := Loop(cfg, fn, o, attempt + 1, delay * cfg.backoffFactor);
      LoopContinues(cfg, fn, o, attempt, delay);
      LoopPrefix(cfg, fn, o, attempt + 1, delay * cfg.backoffFactor);
      assert r.result == rest.result && r.calls == rest.calls + 1 && |r.sleeps| == |rest.sleeps| + 1;
      assert LastCall(attempt, r) == LastCall(attempt + 1, rest);
      assert Continued(fn, o, attempt);
    }
  }

  /** The result of a run is explained by how its last call ended. */
  lemma {:induction false} LoopResult(cfg: RetryConfig, fn: nat -> Outcome, o: Oracle, attempt: nat, delay: nat)
    requires 1 <= attempt <= cfg.maxAttempts
    decreases cfg.maxAttempts - attempt
    ensures var r := Loop(cfg, fn, o, attempt, delay);
            Explains(cfg, fn, o, LastCall(attempt, r), r)
  {
    var r := Loop(cfg, fn, o, attempt, delay);
    if o.doneBeforeAttempt(attempt) {
    } else if fn(attempt).Pass? {
    } else if !IsRetryable(fn(attempt).error) {
    } else if attempt == cfg.maxAttempts {
    } else if o.doneDuringBackoff(attempt) {
    } else {
      var rest := Loop(cfg, fn, o, attempt + 1, delay * cfg.backoffFactor);
      LoopContinues(cfg, fn, o, attempt, delay);
      LoopResult(cfg, fn, o, attempt + 1, delay * cfg.backoffFactor);
      assert r.result == rest.result && r.calls == rest.calls + 1 && |r.sleeps| == |rest.sleeps| + 1;
      assert LastCall(attempt, r) == LastCall(attempt + 1, rest);
    }
  }

  /** A continued attempt: one sleep, then the rest of the run. */
  lemma LoopContinues(cfg: RetryConfig, fn: nat -> Outcome, o: Oracle, attempt: nat, delay: nat)
    requires 1 <= attempt < cfg.maxAttempts
    requires Continued(fn, o, attempt)
    ensures var rest := Loop(cfg, fn, o, attempt + 1, delay * cfg.backoffFactor);
            Loop(cfg, fn, o, attempt, delay)
              == Run(rest.result, rest.calls + 1, [SleepFor(cfg, delay, o.jitterDraw(attempt))] + rest.sleeps)
  {
  }

  /** `sleeps[i]` is the sleep for `delay` grown i times, drawn after attempt `attempt + i`. */
  ghost predicate SleepsFrom(cfg: RetryConfig, o: Oracle, attempt: nat, delay: nat, sleeps: seq<nat>) {
    forall i :: 0 <= i < |sleeps| ==>
      sleeps[i] == SleepFor(cfg, Grown(delay, cfg.backoffFactor, i), o.jitterDraw(attempt + i))
  }

  /** Prepending the sleep for `delay` to a schedule that starts one attempt later. */
  lemma SleepsCons(cfg: RetryConfig, o: Oracle, attempt: nat, delay: nat, rest: seq<nat>)
    requires SleepsFrom(cfg, o, attempt + 1, delay * cfg.backoffFactor, rest)
    ensures SleepsFrom(cfg, o, attempt, delay, [SleepFor(cfg, delay, o.jitterDraw(attempt))] + rest)
  {
    var f := cfg.backoffFactor;
    var s := [SleepFor(cfg, delay, o.jitterDraw(attempt))] + rest;
    forall i | 0 < i < |s|
      ensures s[i] == SleepFor(cfg, Grown(delay, f, i), o.jitterDraw(attempt + i))
    {
      var j := i - 1;
      assert s[i] == rest[j];
      GrownStep(delay, f, i);
      assert attempt + 1 + j == attempt + i;
    }
  }

  /** The i-th sleep of a run entered with `delay` is computed from
      `delay` grown i times by the factor. */
  lemma {:induction false} LoopSleeps(cfg: RetryConfig, fn: nat -> Outcome, o: Oracle, attempt: nat, delay: nat)
    requires 1 <= attempt <= cfg.maxAttempts
    decreases cfg.maxAttempts - attempt
    ensures SleepsFrom(cfg, o, attempt, delay, Loop(cfg, fn, o, attempt, delay).sleeps)
  {
    if attempt < cfg.maxAttempts && Continued(fn, o, attempt) {
      var rest := Loop(cfg, fn, o, attempt + 1, delay * cfg.backoffFactor);
      LoopContinues(cfg, fn, o, attempt, delay);
      LoopSleeps(cfg, fn, o, attempt + 1, delay * cfg.backoffFactor);
      SleepsCons(cfg, o, attempt, delay, rest.sleeps);
    } else {
      assert |Loop(cfg, fn, o, attempt, delay).sleeps| == 0;
    }
  }

  lemma ShiftPow(delay: nat, f: nat, i: nat)
    requires i >= 1
    ensures delay * f * Pow(f, i - 1) == delay * Pow(f, i)
  {
    var p := Pow(f, i - 1);
    assert Pow(f, i) == f * p;
    assert delay * f * p == delay * (f * p);
  }

  /** RetryWithBackoff(ctx, config, fn). A non-positive attempt limit runs
      nothing and reports exhaustion without a cause. */
  function RetryWithBackoff(config: Option<RetryConfig>, fn: nat -> Outcome, o: Oracle): (r: Run)
    ensures r.calls <= Effective(config).maxAttempts || r.calls == 0
    ensures |r.sleeps| <= r.calls
    ensures Effective(config).maxAttempts >= 1 ==> |r.sleeps| <= Effective(config).maxAttempts - 1
    ensures forall i :: 0 <= i < |r.sleeps| ==> r.sleeps[i] <= Effective(config).maxDelay
    ensures Effective(config).maxAttempts < 1 ==> r == Run(Fail(Exhausted(Effective(config).maxAttempts, None)), 0, [])
  {
    var cfg := Effective(config);
    if cfg.maxAttempts < 1 then Run(Fail(Exhausted(cfg.maxAttempts, None)), 0, [])
    else Loop(cfg, fn, o, 1, cfg.initialDelay)
  }

  // ----- properties of whole runs -----

  /** How a run ends once attempt `k` is the first that did not continue
      (or is the last permitted one): the number of invocations, the number
      of sleeps and the exact error follow from how attempt `k` went. */
  lemma RunStopsAtFirstStop(config: Option<RetryConfig>, fn: nat -> Outcome, o: Oracle, k: nat)
    requires 1 <= k <= Effective(config).maxAttempts
    requires forall j :: 1 <= j < k ==> Continued(fn, o, j)
    requires !Continued(fn, o, k) || k == Effective(config).maxAttempts
    ensures var r := RetryWithBackoff(config, fn, o);
            && r.calls == (if o.doneBeforeAttempt(k) then k - 1 else k)
            && |r.sleeps| == k - 1
            && r.result == StopResult(Effective(config), fn, o, k)
  {
    var cfg := Effective(config);
    var r := RetryWithBackoff(config, fn, o);
    assert r == Loop(cfg, fn, o, 1, cfg.initialDelay);
    LoopPrefix(cfg, fn, o, 1, cfg.initialDelay);
    LoopResult(cfg, fn, o, 1, cfg.initialDelay);
    var last := r.calls;
    assert LastCall(1, r) == last;
    assert last <= k;
    // the run ended at `last`: it did not continue, or the context was done before the next attempt
    assert (last >= 1 && !Continued(fn, o, last)) || o.doneBeforeAttempt(last + 1) || last == cfg.maxAttempts;
    assert last + 1 < k ==> Continued(fn, o, last + 1);
    assert last >= k - 1;
    if last == k - 1 {
      assert last >= 1 ==> Continued(fn, o, last);
      assert r.result == Fail(RetryCancelled(false, o.ctxErr));
    } else {
      assert r.result != Fail(RetryCancelled(false, o.ctxErr));
    }
  }

  /** The i-th sleep of any run (0-based) is the jittered and capped
      initialDelay * factor^i, drawn after attempt i + 1. */
  lemma SleepSchedule(config: Option<RetryConfig>, fn: nat -> Outcome, o: Oracle)
    ensures var cfg := Effective(config);
            var r := RetryWithBackoff(config, fn, o);
            forall i :: 0 <= i < |r.sleeps| ==>
              r.sleeps[i] == SleepFor(cfg, BaseDelay(cfg, i + 1), o.jitterDraw(i + 1))
  {
    var cfg := Effective(config);
    if cfg.maxAttempts >= 1 {
      var r := RetryWithBackoff(config, fn, o);
      LoopSleeps(cfg, fn, o, 1, cfg.initialDelay);
      forall i | 0 <= i < |r.sleeps|
        ensures r.sleeps[i] == SleepFor(cfg, BaseDelay(cfg, i + 1), o.jitterDraw(i + 1))
      {
        GrownIsPower(cfg.initialDelay, cfg.backoffFactor, i);
      }
    }
  }

  /** The result of a run whose attempt `k` stopped it. */
  function StopResult(cfg: RetryConfig, fn: nat -> Outcome, o: Oracle, k: nat): Outcome {
    if o.doneBeforeAttempt(k) then Fail(RetryCancelled(false, o.ctxErr))
    else match fn(k)
      case Pass => Pass
      case Fail(e) =>
        if !IsRetryable(e) then Fail(NonRetryable(k, e))
        else if k == cfg.maxAttempts then Fail(Exhausted(cfg.maxAttempts, Some(e)))
        else Fail(RetryCancelled(true, o.ctxErr))
  }
}
