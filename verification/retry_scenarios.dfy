/** The scenarios of the retry package's own tests, stated over the model. */
module RetryScenarios {

  import opened Wrappers
  import opened Errors
  import opened Backoff
  import opened Retry

  /** Fails twice with a marked error, then succeeds: success after three invocations. */
  lemma RetrySuccessScenario()
    ensures var cfg := Config(3, 10 * Millisecond, 100 * Millisecond, 1.5, 0.5);
      var op: Operation := i => if i < 2 then Some(Marked(Opaque("retryable error"))) else None;
      Do(cfg, op, i => false) == Run(Ok, 3)
  {
  }

  /** Always fails with a marked error under a budget of two: exceeded after two invocations. */
  lemma MaxAttemptsExceededScenario()
    ensures var cfg := Config(2, 10 * Millisecond, 50 * Millisecond, 2.0, 0.1);
      var op: Operation := i => Some(Marked(Opaque("always fails")));
      Do(cfg, op, i => false) == Run(Exceeded(Some(Marked(Opaque("always fails")))), 2)
  {
  }

  /**
   The context is cancelled during the second invocation, so the wait after it
   ends the run: a timeout after exactly two invocations out of five allowed.
   */
  lemma ContextCancelScenario()
    ensures var cfg := Config(5, 10 * Millisecond, 50 * Millisecond, 2.0, 0.1);
      var op: Operation := i => Some(Marked(Opaque("temporary failure")));
      Do(cfg, op, i => i >= 1) == Run(TimedOut(Marked(Opaque("temporary failure"))), 2)
  {
    var cfg := Config(5, 10 * Millisecond, 50 * Millisecond, 2.0, 0.1);
    var op: Operation := i => Some(Marked(Opaque("temporary failure")));
    MarkerForcesRetry(Opaque("temporary failure"));
    CancelledDuringWait(cfg, op, i => i >= 1, 1, Marked(Opaque("temporary failure")));
  }

  /** A cancellation returned by the operation is never retried, even when marked retryable. */
  lemma MarkedCancellationScenario(cfg: Config, cancel: CancelSignal)
    requires cfg.maxRetries > 0
    ensures Do(cfg, i => Some(Marked(Canceled)), cancel) == Run(NotRetryable(Marked(Canceled)), 1)
  {
  }
}
