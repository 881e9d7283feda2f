# Retry engine model

A Dafny model of the retry engine of `go-retry-mechanism`: the backoff
calculator, the retry loops `Do` and `DoWithNotify`, the error classifier
`IsRetryable`, the HTTP status predicate `IsRetryableHTTPStatus`, and the
string classifier `isTransientDBError` of the database example.

Everything is pure. The pieces the Go code takes from its environment are
inputs to the model:

- the operation is a script `op: nat -> Option<Error>`, the result of its i-th invocation (`None` is a nil error);
- the `select` between the backoff timer and `ctx.Done()` is a script `cancel: nat -> bool`: `cancel(i)` says the context won the race in the wait after invocation i;
- `rand.Float64()` is a script `draws: nat -> UnitInterval` of values in [0, 1), one per backoff;
- the `notify` callback is a flag (given or nil); each call it would receive is recorded as a `Notice(err, backoff)`.

Modules: `Wrappers` (Option), `Errors` (error values, unwrap chains, `errors.As`
as an outermost-first search, `IsRetryable`), `Backoff` (`Config`,
`calculateBackoff`), `Retry` (`Do`, `DoWithNotify`, a reference description
`Explains` of a run and lemmas for each way a run ends), `RetryCorrected` (the
loop with the exhaustion check it evidently intends; see Findings),
`RetryScenarios` (the package's tests), `HttpStatus`, `DatabaseErrors`.

Errors are a datatype: `Canceled` (context.Canceled), `Marked(inner)`
(RetryableError), `Wrapped(prefix, inner)` (fmt.Errorf with `%w`),
`Net(temporary, timeout)` (a net.Error), `Errno(code)` (a syscall.Errno) and
`Opaque(text)`. A run ends as `Ok`, `NotRetryable(e)`, `TimedOut(e)` or
`Exceeded(last)`, standing for nil or one of the three wrapped errors Go returns, and records how many
times the operation was invoked.

The code's check
`attempt == config.MaxRetries` can never hold inside `for attempt < config.MaxRetries`.
So the model waits after the final failed invocation, as the code does, and
`MaxRetries <= 0` gives zero invocations and "retries exceeded" around a nil
error.

## Model

| member | source | states |
|---|---|---|
| Errors.Chain | retry/retry.go:43-45 | the unwrap chain starts at the error, each next element is what `Unwrap` returns for the previous one, and it ends at an error that unwraps to nothing |
| Errors.FindIsOutermost | retry/retry.go:136-151 | the `errors.As` search returns the outermost chain element of the wanted kind, and nothing exactly when no element is of that kind |
| Errors.IsRetryablePrecedence | retry/retry.go:129-155 | first match wins: a cancellation anywhere gives false; otherwise a RetryableError anywhere gives true; otherwise the outermost net error gives temporary-or-timeout; otherwise the outermost errno gives true exactly for ECONNREFUSED and ECONNRESET; otherwise false |
| Errors.MarkerForcesRetry | retry/retry.go:130-139 | wrapping any error in RetryableError makes it retryable exactly when no cancellation lies below the marker |
| Errors.WrappingKeepsClass | retry/retry.go:129-155 | wrapping with `%w` does not change the classification |
| Backoff.CalculateBackoff | retry/retry.go:78-96 | the backoff is never negative; without jitter it equals min(Initial * Factor^attempt, MaxBackoff) when that is non-negative, and 0 otherwise; with jitter, when the clamped value and JitterFactor are non-negative, it stays within JitterFactor/2 of that value, and so, again when both are non-negative, never above MaxBackoff * (1 + JitterFactor/2) |
| Backoff.Jitter | retry/retry.go:86-92 | the jitter step never yields a negative duration; for a non-negative clamped value and jitter factor it moves the clamped value by at most half the jitter factor times that value |
| Backoff.BackoffMonotone | retry/retry.go:80-84 | without jitter, for non-negative durations and with a factor of at least one, later attempts never wait less, and once the exponential reaches MaxBackoff every later backoff equals MaxBackoff |
| Backoff.ConstantBackoff | retry/retry.go:80-84 | without jitter and for non-negative durations, a factor of 1 gives the same backoff at every attempt: the initial backoff, clamped |
| Backoff.BackoffTable | retry/retry_test.go:97-121 | 100ms doubling without jitter, capped at 5s, gives 100ms, 200ms, 400ms, 800ms and 5s at attempts 0, 1, 2, 3 and 10 |
| Backoff.DefaultBackoffBounds | retry/retry.go:23-31 | under the default policy every backoff lies between 9.5ms and 10.5ms |
| Retry.DoFrom | retry/retry.go:50-75 | from a given iteration on, invocations before the last one all failed retryably without cancellation, and the outcome matches the last invocation or the end of the budget |
| Retry.Do | retry/retry.go:47-76 | every run matches the reference description: at most max(MaxRetries, 0) invocations, each but the last a retryable failure whose wait was not cancelled, and the outcome fixed by the last one |
| Retry.ExplainsUnique | retry/retry.go:47-76 | the reference description determines the outcome and the invocation count: two runs that both match it are equal |
| Retry.SucceedsOnCall | retry/retry.go:50-54 | if the first K invocations, all within the budget, each failed retryably with no cancelled wait after them, and invocation K+1 succeeds, the run succeeds after exactly K+1 invocations |
| Retry.StopsOnFatalError | retry/retry.go:58-60 | with a non-retryable error on an invocation within the budget, every earlier invocation having failed retryably with no cancelled wait, the run ends right after that invocation, with no further call, wrapped as "not retryable error" |
| Retry.CancelledDuringWait | retry/retry.go:68-72 | when invocation K lies within the budget, every earlier invocation failed retryably with no cancelled wait, and invocation K fails retryably, a cancellation during the wait after it ends the run as "timed out" around that invocation's error after exactly K invocations, also when K is the last permitted one |
| Retry.ExhaustsBudget | retry/retry.go:50-75 | with a positive MaxRetries, when every invocation fails retryably and no wait is cancelled, the run makes exactly MaxRetries invocations and returns "retries exceeded" around the last error |
| Retry.NoBudget | retry/retry.go:48-75 | with MaxRetries of zero or less the operation is never invoked and the run returns "retries exceeded" around a nil error |
| Retry.DoWithNotifyFrom | retry/retry.go:100-124 | from a given iteration on, the loop with notification makes the same run as the loop of `Do`, and notifies once before each wait with that invocation's error and backoff |
| Retry.DoWithNotify | retry/retry.go:98-127 | same outcome and invocation count as `Do`; with a callback, exactly one notice before every wait, the i-th carrying the i-th invocation's error and the i-th backoff; with a nil callback, none |
| Retry.ResultError | retry/retry.go:58-75 | the returned error is nil exactly on success, and otherwise unwraps to the error of the deciding invocation |
| Retry.ResultClassification | retry/retry.go:58-75 | a "not retryable" result is not retryable for an enclosing loop, while a timed-out result, or an exceeded one after at least one invocation, is |
| RetryCorrected.DoWithNotifyCorrectedFrom | retry/retry.go:100-124 | the corrected loop from a given iteration on: it stays within the budget, times out only before the last permitted invocation, and notifies once per wait |
| RetryCorrected.DoWithNotifyCorrected | retry/retry.go:110-112 | with the exhaustion check where it was meant, a run that used its whole budget never ends as timed out: it succeeds, fails fatally or is exceeded; a wait follows its last invocation only when the run timed out |
| RetryCorrected.FinalWaitAsWritten | retry/retry.go:110-122 | as written, when the last permitted invocation fails retryably the loop still notifies and waits, so there are as many notices as invocations, and a cancellation then yields "timed out" |
| RetryCorrected.FinalWaitCorrected | retry/retry.go:110-112 | corrected, the same run ends as exceeded after MaxRetries invocations with one notice fewer |
| RetryCorrected.CorrectionAgreesElsewhere | retry/retry.go:98-127 | on every other input the corrected loop and the loop as written give the same run and the same notices |
| RetryCorrected.DeadExhaustionCheckExample | retry/retry.go:62-64 | one permitted invocation that fails retryably, with the context cancelled during the wait after it: "timed out" and one notice as written, "retries exceeded" and none when corrected |
| RetryScenarios.RetrySuccessScenario | retry/retry_test.go:10-39 | two marked failures, then success, under a budget of three: success after three invocations |
| RetryScenarios.MaxAttemptsExceededScenario | retry/retry_test.go:41-65 | marked failures under a budget of two: "retries exceeded" after two invocations |
| RetryScenarios.ContextCancelScenario | retry/retry_test.go:67-95 | the context cancelled during the second invocation: "timed out" after exactly two invocations |
| RetryScenarios.MarkedCancellationScenario | retry/retry.go:130-133 | with a positive MaxRetries, an operation returning a marked cancellation stops after one invocation as "not retryable" |
| HttpStatus.IsRetryableHTTPStatus | retry/retry.go:156-168 | true exactly for 408, 429, 500, 502, 503 and 504 |
| HttpStatus.RetryableStatusClasses | retry/retry.go:156-168 | no status below 400 or above 504 is retried; of the 4xx only 408 and 429; of 500 to 504 all but 501 |
| DatabaseErrors.ToLower | examples/database.go:88 | lower-casing keeps the length and lower-cases each character |
| DatabaseErrors.Contains | examples/database.go:91-105 | substring search is true exactly when some position starts an occurrence |
| DatabaseErrors.IsTransientDBError | examples/database.go:83-108 | a nil error is never transient; a message is transient exactly when its lower-cased form contains one of "connection refused", "connection reset", "broken pipe", "deadlock", "timeout" |
| DatabaseErrors.CaseInsensitive | examples/database.go:88 | a message and its lower-cased form are classified alike |
| DatabaseErrors.MarkerMakesTransient | examples/database.go:90-105 | a message containing a marker anywhere, in any case, is transient |

## Findings

| source | as written | input that shows it | evidently intended | confidence | as-written member | corrected member |
|---|---|---|---|---|---|---|
| retry/retry.go:110-112 | `if attempt == config.MaxRetries { break }` sits inside `for attempt < config.MaxRetries` and never fires, so the final failed invocation is still followed by a backoff, a `notify` call and a wait; a cancellation during that wait gives "timed out" instead of "retries exceeded" (the same check at retry/retry.go:62-64 in `Do`) | MaxRetries 1, an operation that always returns a RetryableError, the context cancelled during the wait after the first invocation | stop before the backoff once the last permitted invocation (`attempt == MaxRetries - 1`) has failed, and report "retries exceeded" | not executed; high | RetryCorrected.FinalWaitAsWritten | RetryCorrected.DoWithNotifyCorrected |

`RetryCorrected.DeadExhaustionCheckExample` shows both halves on that input.
The corrected loop with a nil callback is the corrected `Do`. The rest of the
model describes the code as written, because callers observe that behaviour.

## Left out

- Backoff.CalculateBackoff: durations are exact reals. It leaves out float64 rounding, `math.Pow` overflowing to +Inf, and the truncating `time.Duration(...)` conversion at retry/retry.go:94.
- Time itself is not modelled: `time.After` and `ctx.Done()` become the `cancel` script. The wait is not a separate event: the notified backoff is the value the loop waits for.
- `rand.Float64()` and its global generator become the `draws` script. `Do`'s outcome does not depend on the backoff value, so `Retry.Do` takes no draws.
- The `fmt.Printf` at retry/retry.go:56 is console output and is left out.
- Retry.ResultError: messages are reduced to the `fmt.Errorf` prefix around the wrapped error. A nil wrapped error gives the text Go's fmt prints for it.
- Which concrete Go types implement `net.Error` or are a `syscall.Errno` is decided by the Go standard library, not by retry/retry.go. For example, `syscall.Errno` itself has `Temporary`/`Timeout` methods. Each branch of retry/retry.go:142-152 has its own constructor instead.
- Errors.IsRetryablePrecedence: only `Marked` and `Wrapped` hold an inner error. In Go, net errors such as `*net.OpError` and `*url.Error` also unwrap, so a `context.Canceled` or `RetryableError` below a net error cannot be written as a model value. `Chain` is also a single list: the `Unwrap() []error` trees of Go 1.20 (`errors.Join`, `fmt.Errorf` with several `%w`) and custom `As` methods are not modelled.
- `errors.Is` here compares against the `context.Canceled` sentinel only. Custom `Is` methods on error types are not modelled.
- A `RetryableError` with a nil `Err` is not modelled: `Marked` always has an inner error.
- Errno codes use the Linux numbering (ECONNRESET 104, ECONNREFUSED 111).
- DatabaseErrors.ToLower: only ASCII letters are lower-cased. `strings.ToLower` also maps other Unicode letters.
- DatabaseErrors.IsTransientDBError takes the message that `err.Error()` would return (`None` for a nil error). How that text is built is up to the database driver.
- Panics and blocking inside the `notify` callback or the operation are not modelled.
- `CreateOrder`, `CreateOrderWithLogging` (SQL transactions), examples/http_client.go (request buffering and the HTTP call) and examples/main.go (demos and concurrency) are database, network and console I/O around the engine.
