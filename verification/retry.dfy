/**
 The retry loop of `retry.Do` and `retry.DoWithNotify`. The operation, the
 cancellation signal and the random draws are scripted: `op(i)` is what the
 i-th invocation returns (`None` for nil), `cancel(i)` says whether the
 context is done before the timer fires in the wait after invocation i, and
 `draws(i)` is the value `rand.Float64()` returns for the i-th backoff.
 */
module Retry {

  import opened Wrappers
  import opened Errors
  import opened Backoff

  /** How a run ends; `ResultError` gives the error value Go returns for it. */
  datatype Outcome =
    | Ok                             // nil
    | NotRetryable(err: Error)       // "not retryable error: %w"
    | TimedOut(err: Error)           // "timed out: %w"
    | Exceeded(last: Option<Error>)  // "retries exceeded: %w", wrapping a nil error when nothing ran

  /** A finished run: its outcome and how many times the operation was invoked. */
  datatype Run = Run(outcome: Outcome, calls: nat)

  /** One `notify(err, backoff)` call. */
  datatype Notice = Notice(err: Error, backoff: real)

  datatype NotifiedRun = NotifiedRun(run: Run, notices: seq<Notice>)

  type Operation = nat -> Option<Error>
  type CancelSignal = nat -> bool
  type Draws = nat -> UnitInterval

  /** The number of invocations the policy allows: `MaxRetries`, or none when it is not positive. */
  function Budget(cfg: Config): nat
  {
    if cfg.maxRetries > 0 then cfg.maxRetries else 0
  }

  /** Invocation `i` failed with a retryable error and its wait was not cancelled. */
  predicate Continues(op: Operation, cancel: CancelSignal, i: nat)
  {
    op(i).Some? && IsRetryable(op(i).value) && !cancel(i)
  }

  /**
   The reference description of a run: it stays within the budget, every
   invocation but the last one failed retryably and waited out its backoff,
   and the outcome is what the last invocation (or the empty budget) implies.
   */
  predicate Explains(cfg: Config, op: Operation, cancel: CancelSignal, r: Run)
  {
    && r.calls <= Budget(cfg)
    && (forall i :: 0 <= i < r.calls - 1 ==> Continues(op, cancel, i))
    && match r.outcome
       case Ok => r.calls > 0 && op(r.calls - 1).None?
       case NotRetryable(e) => r.calls > 0 && op(r.calls - 1) == Some(e) && !IsRetryable(e)
       case TimedOut(e) => r.calls > 0 && op(r.calls - 1) == Some(e) && IsRetryable(e) && cancel(r.calls - 1)
       case Exceeded(last) =>
         && r.calls == Budget(cfg)
         && if r.calls == 0 then last == None
            else Continues(op, cancel, r.calls - 1) && last == op(r.calls - 1)
  }

  /** A run is determined by its scripts: two runs that both explain them are equal. */
  lemma ExplainsUnique(cfg: Config, op: Operation, cancel: CancelSignal, r1: Run, r2: Run)
    requires Explains(cfg, op, cancel, r1) && Explains(cfg, op, cancel, r2)
    ensures r1 == r2
  {
    ContinuesBefore(cfg, op, cancel, r2, r1.calls);
    ContinuesBefore(cfg, op, cancel, r1, r2.calls);
  }

  /** In a run that made more than `k` invocations, invocation `k - 1` continued. */
  lemma ContinuesBefore(cfg: Config, op: Operation, cancel: CancelSignal, r: Run, k: nat)
    requires Explains(cfg, op, cancel, r)
    ensures 0 < k < r.calls ==> Continues(op, cancel, k - 1)
  {
  }

  /** The loop of `Do` from iteration `attempt` on, `last` being the error of the previous invocation. */
  function DoFrom(cfg: Config, op: Operation, cancel: CancelSignal, attempt: nat, last: Option<Error>): (r: Run)
    ensures attempt <= r.calls
    ensures r.calls <= Budget(cfg) || r.calls == attempt
    ensures forall i :: attempt <= i < r.calls - 1 ==> Continues(op, cancel, i)
    ensures match r.outcome
            case Ok => r.calls > attempt && op(r.calls - 1).None?
            case NotRetryable(e) => r.calls > attempt && op(r.calls - 1) == Some(e) && !IsRetryable(e)
            case TimedOut(e) =>
              r.calls > attempt && op(r.calls - 1) == Some(e) && IsRetryable(e) && cancel(r.calls - 1)
            case Exceeded(l) =>
              && (r.calls == Budget(cfg) || (r.calls == attempt && attempt >= Budget(cfg)))
              && if r.calls == attempt then l == last
                 else Continues(op, cancel, r.calls - 1) && l == op(r.calls - 1)
    decreases cfg.maxRetries - attempt
  {
    if attempt >= cfg.maxRetries then
      Run(Exceeded(last), attempt)
    else
      var next: nat := attempt + 1;
      match op(attempt)
      case None => Run(Ok, next)
      case Some(err) =>
        if !IsRetryable(err) then Run(NotRetryable(err), next)
        // the exhaustion check of the source: never true inside the loop
        else if attempt == cfg.maxRetries then Run(Exceeded(Some(err)), next)
        else if cancel(attempt) then Run(TimedOut(err), next)
        else DoFrom(cfg, op, cancel, next, Some(err))
  }

  /** `retry.Do`: the run always matches the reference description. */
  function Do(cfg: Config, op: Operation, cancel: CancelSignal): (r: Run)
    ensures Explains(cfg, op, cancel, r)
  {
    DoFrom(cfg, op, cancel, 0, None)
  }

  /**
   How many backoff waits a run performed: one after every invocation except
   the last, plus one after the last when it ended in a timeout or in the
   exhaustion of the budget.
   */
  function Waits(r: Run): nat
  {
    match r.outcome
    case Ok => if r.calls > 0 then r.calls - 1 else 0
    case NotRetryable(_) => if r.calls > 0 then r.calls - 1 else 0
    case TimedOut(_) => r.calls
    case Exceeded(_) => r.calls
  }

  /** The loop of `DoWithNotify` from iteration `attempt` on; `notify` says whether a callback was given. */
  function DoWithNotifyFrom(cfg: Config, op: Operation, cancel: CancelSignal, draws: Draws, notify: bool,
                            attempt: nat, last: Option<Error>): (r: NotifiedRun)
    ensures r.run == DoFrom(cfg, op, cancel, attempt, last)
    ensures !notify ==> r.notices == []
    ensures notify ==> |r.notices| == Waits(r.run) - attempt
    ensures notify ==> forall k :: 0 <= k < |r.notices| ==>
              && op(attempt + k) == Some(r.notices[k].err)
              && r.notices[k].backoff == CalculateBackoff(attempt + k, cfg, draws(attempt + k))
    decreases cfg.maxRetries - attempt
  {
    if attempt >= cfg.maxRetries then
      NotifiedRun(Run(Exceeded(last), attempt), [])
    else
      var next: nat := attempt + 1;
      match op(attempt)
      case None => NotifiedRun(Run(Ok, next), [])
      case Some(err) =>
        if !IsRetryable(err) then NotifiedRun(Run(NotRetryable(err), next), [])
        // the exhaustion check of the source: never true inside the loop
        else if attempt == cfg.maxRetries then NotifiedRun(Run(Exceeded(Some(err)), next), [])
        else
          var backoff := CalculateBackoff(attempt, cfg, draws(attempt));
          var notices := if notify then [Notice(err, backoff)] else [];
          if cancel(attempt) then
            NotifiedRun(Run(TimedOut(err), next), notices)
          else
            var rest := DoWithNotifyFrom(cfg, op, cancel, draws, notify, next, Some(err));
            assert forall k :: 0 < k < |notices + rest.notices| ==> (notices + rest.notices)[k] == rest.notices[k - 1];
            NotifiedRun(rest.run, notices + rest.notices)
  }

  /**
   `retry.DoWithNotify`: the same outcome and invocation count as `Do`; with a
   callback, one notice before every wait, carrying the error just returned and
   the backoff about to be waited; without one, no notices.
   */
  function DoWithNotify(cfg: Config, op: Operation, cancel: CancelSignal, draws: Draws, notify: bool): (r: NotifiedRun)
    ensures r.run == Do(cfg, op, cancel)
    ensures !notify ==> r.notices == []
    ensures notify ==> |r.notices| == Waits(r.run)
    ensures notify ==> forall i :: 0 <= i < |r.notices| ==>
              && op(i) == Some(r.notices[i].err)
              && r.notices[i].backoff == CalculateBackoff(i, cfg, draws(i))
  {
    DoWithNotifyFrom(cfg, op, cancel, draws, notify, 0, None)
  }

  /** Every invocation before `k` failed retryably and was not cancelled. */
  predicate ContinuesUpTo(op: Operation, cancel: CancelSignal, k: nat)
  {
    forall i :: 0 <= i < k ==> Continues(op, cancel, i)
  }

  /** An operation that first succeeds on invocation `k + 1` within the budget: success after exactly `k + 1` calls. */
  lemma SucceedsOnCall(cfg: Config, op: Operation, cancel: CancelSignal, k: nat)
    requires k < cfg.maxRetries && ContinuesUpTo(op, cancel, k) && op(k) == None
    ensures Do(cfg, op, cancel) == Run(Ok, k + 1)
  {
    ExplainsUnique(cfg, op, cancel, Do(cfg, op, cancel), Run(Ok, k + 1));
  }

  /** A non-retryable error ends the run right after the invocation that returned it. */
  lemma StopsOnFatalError(cfg: Config, op: Operation, cancel: CancelSignal, k: nat, e: Error)
    requires k < cfg.maxRetries && ContinuesUpTo(op, cancel, k)
    requires op(k) == Some(e) && !IsRetryable(e)
    ensures Do(cfg, op, cancel) == Run(NotRetryable(e), k + 1)
  {
    ExplainsUnique(cfg, op, cancel, Do(cfg, op, cancel), Run(NotRetryable(e), k + 1));
  }

  /**
   A cancellation during the wait after invocation `k + 1` ends the run as
   timed out, wrapping that invocation's error, with no further invocation;
   this holds for the final invocation too.
   */
  lemma CancelledDuringWait(cfg: Config, op: Operation, cancel: CancelSignal, k: nat, e: Error)
    requires k < cfg.maxRetries && ContinuesUpTo(op, cancel, k)
    requires op(k) == Some(e) && IsRetryable(e) && cancel(k)
    ensures Do(cfg, op, cancel) == Run(TimedOut(e), k + 1)
  {
    ExplainsUnique(cfg, op, cancel, Do(cfg, op, cancel), Run(TimedOut(e), k + 1));
  }

  /**
   When every invocation fails retryably and no wait is cancelled, the run uses
   exactly `MaxRetries` invocations and reports the last error as exceeded.
   */
  lemma ExhaustsBudget(cfg: Config, op: Operation, cancel: CancelSignal)
    requires cfg.maxRetries > 0 && ContinuesUpTo(op, cancel, cfg.maxRetries)
    ensures Do(cfg, op, cancel) == Run(Exceeded(op(cfg.maxRetries - 1)), cfg.maxRetries)
  {
    ExplainsUnique(cfg, op, cancel, Do(cfg, op, cancel), Run(Exceeded(op(cfg.maxRetries - 1)), cfg.maxRetries));
  }

  /** With no positive budget the operation is never invoked and the run is exceeded with a nil error. */
  lemma NoBudget(cfg: Config, op: Operation, cancel: CancelSignal)
    requires cfg.maxRetries <= 0
    ensures Do(cfg, op, cancel) == Run(Exceeded(None), 0)
  {
  }

  /** The error value Go returns for an outcome. */
  function ResultError(o: Outcome): (r: Option<Error>)
    ensures r.None? <==> o.Ok?
    ensures o.NotRetryable? || o.TimedOut? ==> Unwrap(r.value) == Some(o.err)
    ensures o.Exceeded? ==> Unwrap(r.value) == o.last
  {
    match o
    case Ok => None
    case NotRetryable(e) => Some(Wrapped("not retryable error: ", e))
    case TimedOut(e) => Some(Wrapped("timed out: ", e))
    case Exceeded(Some(e)) => Some(Wrapped("retries exceeded: ", e))
    case Exceeded(None) => Some(Opaque("retries exceeded: %!w(<nil>)"))
  }

  /**
   How an enclosing retry loop classifies the error a run returns: a
   non-retryable result stays non-retryable, while a run that timed out or ran
   out of invocations returns an error that is itself retryable.
   */
  lemma ResultClassification(cfg: Config, op: Operation, cancel: CancelSignal)
    ensures var r := Do(cfg, op, cancel);
      && (r.outcome.NotRetryable? ==> !IsRetryable(ResultError(r.outcome).value))
      && (r.outcome.TimedOut? ==> IsRetryable(ResultError(r.outcome).value))
      && (r.outcome.Exceeded? ==> (IsRetryable(ResultError(r.outcome).value) <==> r.calls > 0))
  {
  }
}
