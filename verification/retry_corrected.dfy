/**
 The retry loop with the exhaustion check the source evidently intends. As
 written, `attempt == config.MaxRetries` can never hold inside a loop bounded by
 `attempt < config.MaxRetries`, so the final failed invocation is still followed
 by a notification and a backoff wait, and a cancellation during that wait is
 reported as a timeout. Here the loop stops before the backoff once the final
 permitted invocation has failed.
 */
module RetryCorrected {

  import opened Wrappers
  import opened Errors
  import opened Backoff
  import opened Retry

  /**
   The reference description of a corrected run. It differs from `Explains`
   only at the end: a timeout needs a later invocation to have been possible,
   and a run that used up its budget is exceeded whatever the cancellation signal says.
   */
  predicate ExplainsCorrected(cfg: Config, op: Operation, cancel: CancelSignal, r: Run)
  {
    && r.calls <= Budget(cfg)
    && (forall i :: 0 <= i < r.calls - 1 ==> Continues(op, cancel, i))
    && match r.outcome
       case Ok => r.calls > 0 && op(r.calls - 1).None?
       case NotRetryable(e) => r.calls > 0 && op(r.calls - 1) == Some(e) && !IsRetryable(e)
       case TimedOut(e) =>
         r.calls > 0 && r.calls < Budget(cfg) && op(r.calls - 1) == Some(e) && IsRetryable(e) && cancel(r.calls - 1)
       case Exceeded(last) =>
         && r.calls == Budget(cfg)
         && if r.calls == 0 then last == None
            else last == op(r.calls - 1) && last.Some? && IsRetryable(last.value)
  }

  /** Waits of a corrected run: one after every invocation but the last, unless a wait was cancelled. */
  function CorrectedWaits(r: Run): nat
  {
    match r.outcome
    case TimedOut(_) => r.calls
    case _ => if r.calls > 0 then r.calls - 1 else 0
  }

  function DoWithNotifyCorrectedFrom(cfg: Config, op: Operation, cancel: CancelSignal, draws: Draws, notify: bool,
                                     attempt: nat, last: Option<Error>): (r: NotifiedRun)
    requires attempt == 0 || attempt < cfg.maxRetries
    requires attempt == 0 ==> last == None
    ensures attempt <= r.run.calls <= Budget(cfg)
    ensures forall i :: attempt <= i < r.run.calls - 1 ==> Continues(op, cancel, i)
    ensures match r.run.outcome
            case Ok => r.run.calls > attempt && op(r.run.calls - 1).None?
            case NotRetryable(e) => r.run.calls > attempt && op(r.run.calls - 1) == Some(e) && !IsRetryable(e)
            case TimedOut(e) =>
              && r.run.calls > attempt && r.run.calls < Budget(cfg)
              && op(r.run.calls - 1) == Some(e) && IsRetryable(e) && cancel(r.run.calls - 1)
            case Exceeded(l) =>
              && r.run.calls == Budget(cfg)
              && if r.run.calls == 0 then l == None
                 else r.run.calls > attempt && l == op(r.run.calls - 1) && l.Some? && IsRetryable(l.value)
    ensures !notify ==> r.notices == []
    ensures notify ==> |r.notices| == CorrectedWaits(r.run) - attempt
    ensures notify ==> forall k :: 0 <= k < |r.notices| ==>
              && op(attempt + k) == Some(r.notices[k].err)
              && r.notices[k].backoff == CalculateBackoff(attempt + k, cfg, draws(attempt + k))
    decreases cfg.maxRetries - attempt
  {
    if attempt >= cfg.maxRetries then
      NotifiedRun(Run(Exceeded(last), attempt), [])
    else
      var next: nat := attempt + 1;
      match op(attempt)
      case None => NotifiedRun(Run(Ok, next), [])
      case Some(err) =>
        if !IsRetryable(err) then NotifiedRun(Run(NotRetryable(err), next), [])
        // the final permitted invocation has failed: no backoff follows it
        else if attempt == cfg.maxRetries - 1 then NotifiedRun(Run(Exceeded(Some(err)), next), [])
        else
          var backoff := CalculateBackoff(attempt, cfg, draws(attempt));
          var notices := if notify then [Notice(err, backoff)] else [];
          if cancel(attempt) then
            NotifiedRun(Run(TimedOut(err), next), notices)
          else
            var rest := DoWithNotifyCorrectedFrom(cfg, op, cancel, draws, notify, next, Some(err));
            assert forall k :: 0 < k < |notices + rest.notices| ==> (notices + rest.notices)[k] == rest.notices[k - 1];
            NotifiedRun(rest.run, notices + rest.notices)
  }

  /**
   `DoWithNotify` with the exhaustion check placed where it was meant: no
   notification and no wait follow the final permitted invocation, so a run
   that used its whole budget is always reported as exceeded.
   */
  function DoWithNotifyCorrected(cfg: Config, op: Operation, cancel: CancelSignal, draws: Draws, notify: bool)
    : (r: NotifiedRun)
    ensures ExplainsCorrected(cfg, op, cancel, r.run)
    ensures r.run.calls == Budget(cfg) ==> r.run.outcome.Ok? || r.run.outcome.NotRetryable? || r.run.outcome.Exceeded?
    ensures !notify ==> r.notices == []
    ensures notify ==> |r.notices| == CorrectedWaits(r.run)
    ensures notify ==> forall i :: 0 <= i < |r.notices| ==>
              && op(i) == Some(r.notices[i].err)
              && r.notices[i].backoff == CalculateBackoff(i, cfg, draws(i))
  {
    DoWithNotifyCorrectedFrom(cfg, op, cancel, draws, notify, 0, None)
  }

  /** The run reaches its final permitted invocation and that invocation fails retryably. */
  predicate FailsRetryablyAtLastCall(cfg: Config, op: Operation, cancel: CancelSignal)
  {
    && cfg.maxRetries > 0
    && ContinuesUpTo(op, cancel, cfg.maxRetries - 1)
    && op(cfg.maxRetries - 1).Some?
    && IsRetryable(op(cfg.maxRetries - 1).value)
  }

  /**
   As written: after the final permitted invocation fails retryably, the loop
   still notifies and waits once more, and a cancellation during that
   pointless wait turns the exceeded result into a timeout.
   */
  lemma FinalWaitAsWritten(cfg: Config, op: Operation, cancel: CancelSignal, draws: Draws)
    requires FailsRetryablyAtLastCall(cfg, op, cancel)
    ensures var r := DoWithNotify(cfg, op, cancel, draws, true);
      && r.run.calls == cfg.maxRetries
      && |r.notices| == cfg.maxRetries
      && r.run.outcome == (if cancel(cfg.maxRetries - 1) then TimedOut(op(cfg.maxRetries - 1).value)
                           else Exceeded(op(cfg.maxRetries - 1)))
  {
    var k := cfg.maxRetries - 1;
    if cancel(k) {
      CancelledDuringWait(cfg, op, cancel, k, op(k).value);
    } else {
      ExhaustsBudget(cfg, op, cancel);
    }
  }

  /** Corrected: the same run ends as exceeded, with one notification fewer and no final wait. */
  lemma FinalWaitCorrected(cfg: Config, op: Operation, cancel: CancelSignal, draws: Draws)
    requires FailsRetryablyAtLastCall(cfg, op, cancel)
    ensures var r := DoWithNotifyCorrected(cfg, op, cancel, draws, true);
      && r.run == Run(Exceeded(op(cfg.maxRetries - 1)), cfg.maxRetries)
      && |r.notices| == cfg.maxRetries - 1
  {
    var r := DoWithNotifyCorrected(cfg, op, cancel, draws, true);
    CorrectedRunAtLastCall(cfg, op, cancel, r.run);
  }

  /** Any corrected run of scripts that fail retryably at the last permitted invocation is exceeded there. */
  lemma CorrectedRunAtLastCall(cfg: Config, op: Operation, cancel: CancelSignal, r: Run)
    requires FailsRetryablyAtLastCall(cfg, op, cancel) && ExplainsCorrected(cfg, op, cancel, r)
    ensures r == Run(Exceeded(op(cfg.maxRetries - 1)), cfg.maxRetries)
  {
    ContinuesAt(op, cancel, cfg.maxRetries - 1, r.calls);
    assert r.calls == cfg.maxRetries;
  }

  /** Invocation `j - 1` continued when every invocation before `k` did and `j < k + 1`. */
  lemma ContinuesAt(op: Operation, cancel: CancelSignal, k: nat, j: nat)
    requires ContinuesUpTo(op, cancel, k)
    ensures 0 < j <= k ==> Continues(op, cancel, j - 1)
  {
  }

  /** Everywhere else the correction changes nothing: outcome, invocations and notifications agree. */
  lemma CorrectionAgreesElsewhere(cfg: Config, op: Operation, cancel: CancelSignal, draws: Draws, notify: bool)
    requires !FailsRetryablyAtLastCall(cfg, op, cancel)
    ensures DoWithNotifyCorrected(cfg, op, cancel, draws, notify) == DoWithNotify(cfg, op, cancel, draws, notify)
  {
    var c := DoWithNotifyCorrected(cfg, op, cancel, draws, notify);
    var a := DoWithNotify(cfg, op, cancel, draws, notify);
    ExceededUsesLastCall(cfg, op, cancel, c.run);
    assert !(c.run.outcome.Exceeded? && c.run.calls > 0);
    assert Explains(cfg, op, cancel, c.run);
    ExplainsUnique(cfg, op, cancel, c.run, a.run);
    assert |c.notices| == |a.notices|;
    assert forall i :: 0 <= i < |c.notices| ==> c.notices[i] == a.notices[i];
  }

  /** A corrected run that is exceeded after at least one invocation failed retryably at its last permitted one. */
  lemma ExceededUsesLastCall(cfg: Config, op: Operation, cancel: CancelSignal, r: Run)
    requires ExplainsCorrected(cfg, op, cancel, r)
    ensures r.outcome.Exceeded? && r.calls > 0 ==> FailsRetryablyAtLastCall(cfg, op, cancel)
  {
  }

  /**
   The smallest input that shows the difference: one permitted invocation,
   a retryable failure, and a context cancelled during the wait after it.
   */
  lemma DeadExhaustionCheckExample(draws: Draws)
    ensures var cfg := Config(1, 10 * Millisecond, 10 * Millisecond, 1.5, 0.1);
      var op: Operation := i => Some(Marked(Opaque("temporary failure")));
      var cancel: CancelSignal := i => true;
      var written := DoWithNotify(cfg, op, cancel, draws, true);
      var corrected := DoWithNotifyCorrected(cfg, op, cancel, draws, true);
      && written.run == Run(TimedOut(Marked(Opaque("temporary failure"))), 1)
      && |written.notices| == 1
      && corrected.run == Run(Exceeded(Some(Marked(Opaque("temporary failure")))), 1)
      && corrected.notices == []
  {
  }
}
