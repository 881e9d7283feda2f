/**
 Errors as the retry engine sees them: a value with an unwrap chain, searched
 the way Go's `errors.Is` and `errors.As` search it, and the classifier
 `IsRetryable` that decides whether a failed attempt is tried again.
 */
module Errors {

  import opened Wrappers

  /** Errors are immutable values. Only `Marked` and `Wrapped` have an inner error. */
  datatype Error =
    | Canceled                              // context.Canceled
    | Marked(inner: Error)                  // RetryableError{Err: inner}
    | Wrapped(prefix: string, inner: Error) // fmt.Errorf(prefix + "%w", inner)
    | Net(temporary: bool, timeout: bool)   // some value implementing net.Error
    | Errno(code: int)                      // a syscall.Errno
    | Opaque(text: string)                  // errors.New(text), or any error without Unwrap

  /** syscall.ECONNRESET and syscall.ECONNREFUSED (Linux numbering). */
  const ECONNRESET := 104
  const ECONNREFUSED := 111

  /** Go's `errors.Unwrap`: the error one level down the chain, if any. */
  function Unwrap(e: Error): Option<Error>
  {
    match e
    case Marked(inner) => Some(inner)
    case Wrapped(_, inner) => Some(inner)
    case _ => None
  }

  /** The unwrap chain: `e`, then `Unwrap(e)`, and so on until an error without an inner one. */
  function Chain(e: Error): (c: seq<Error>)
    ensures |c| >= 1 && c[0] == e
    ensures forall i {:trigger Unwrap(c[i])} :: 0 <= i < |c| - 1 ==> Unwrap(c[i]) == Some(c[i + 1])
    ensures Unwrap(c[|c| - 1]).None?
  {
    match e
    case Marked(inner) => [e] + Chain(inner)
    case Wrapped(_, inner) => [e] + Chain(inner)
    case _ => [e]
  }

  /** `i` is the position of the first (outermost) element of `c` satisfying `p`. */
  predicate IsFirst(c: seq<Error>, p: Error -> bool, i: int)
  {
    0 <= i < |c| && p(c[i]) && forall j :: 0 <= j < i ==> !p(c[j])
  }

  /**
   The search behind `errors.As`: walk the chain from the outside in and stop
   at the first error satisfying `p`.
   */
  function Find(e: Error, p: Error -> bool): (r: Option<Error>)
    ensures r.Some? ==> p(r.value)
  {
    if p(e) then Some(e)
    else
      match e
      case Marked(inner) => Find(inner, p)
      case Wrapped(_, inner) => Find(inner, p)
      case _ => None
  }

  /**
   `Find` returns the outermost element of the chain that satisfies `p`, and
   nothing exactly when no element does.
   */
  lemma {:induction false} FindIsOutermost(e: Error, p: Error -> bool)
    ensures Find(e, p).Some? ==> exists i :: IsFirst(Chain(e), p, i) && Chain(e)[i] == Find(e, p).value
    ensures Find(e, p).None? <==> forall x :: x in Chain(e) ==> !p(x)
  {
    if p(e) {
      assert IsFirst(Chain(e), p, 0);
    } else {
      match e
      case Marked(inner) =>
        FindIsOutermost(inner, p);
        FindStep(e, inner, p);
      case Wrapped(_, inner) =>
        FindIsOutermost(inner, p);
        FindStep(e, inner, p);
      case _ =>
    }
  }

  /** Looking past an outer error that fails `p` shifts every first-match position by one. */
  lemma FindStep(e: Error, inner: Error, p: Error -> bool)
    requires Chain(e) == [e] + Chain(inner) && !p(e)
    ensures forall i :: IsFirst(Chain(inner), p, i) ==> IsFirst(Chain(e), p, i + 1)
    ensures forall x :: x in Chain(e) && x != e ==> x in Chain(inner)
  {
  }

  predicate IsCanceled(e: Error) { e.Canceled? }
  predicate IsMarked(e: Error) { e.Marked? }
  predicate IsNet(e: Error) { e.Net? }
  predicate IsErrno(e: Error) { e.Errno? }

  /**
   The classifier of `retry.IsRetryable`: `errors.Is(err, context.Canceled)`
   is a search for the sentinel, each `errors.As` a search for the outermost
   error of the wanted kind, and the first rule that applies decides.
   */
  function IsRetryable(err: Error): bool
  {
    if Find(err, IsCanceled).Some? then
      false
    else if Find(err, IsMarked).Some? then
      true
    else
      match Find(err, IsNet)
      case Some(netErr) => netErr.temporary || netErr.timeout
      case None =>
        match Find(err, IsErrno)
        // errors.Is on a bare Errno compares codes
        case Some(errno) => errno.code == ECONNREFUSED || errno.code == ECONNRESET
        case None => false
  }

  /** The precedence of the classifier's rules, stated over the unwrap chain itself. */
  lemma IsRetryablePrecedence(err: Error)
    // 1. A cancellation anywhere in the chain is never retried, even under a marker.
    ensures Canceled in Chain(err) ==> !IsRetryable(err)
    // 2. Otherwise an explicit RetryableError marker anywhere in the chain is retried.
    ensures Canceled !in Chain(err) && (exists x :: x in Chain(err) && x.Marked?) ==> IsRetryable(err)
    // 3. Otherwise the outermost network error decides.
    ensures Canceled !in Chain(err) && (forall x :: x in Chain(err) ==> !x.Marked?) ==>
              forall i :: IsFirst(Chain(err), IsNet, i) ==>
                (IsRetryable(err) <==> Chain(err)[i].temporary || Chain(err)[i].timeout)
    // 4. Otherwise the outermost errno decides: only refused and reset connections.
    ensures Canceled !in Chain(err) && (forall x :: x in Chain(err) ==> !x.Marked? && !x.Net?) ==>
              forall i :: IsFirst(Chain(err), IsErrno, i) ==>
                (IsRetryable(err) <==> Chain(err)[i].code == ECONNREFUSED || Chain(err)[i].code == ECONNRESET)
    // 5. Anything else is not retried.
    ensures (forall x :: x in Chain(err) ==> !x.Canceled? && !x.Marked? && !x.Net? && !x.Errno?) ==>
              !IsRetryable(err)
  {
    FindIsOutermost(err, IsCanceled);
    FindIsOutermost(err, IsMarked);
    assert Canceled !in Chain(err) ==> forall x :: x in Chain(err) ==> !IsCanceled(x);
    assert (exists x :: x in Chain(err) && x.Marked?) ==> exists x :: x in Chain(err) && IsMarked(x);
    FindIsOutermost(err, IsNet);
    FindIsOutermost(err, IsErrno);
  }

  /**
   Wrapping with a `RetryableError` forces a retry whatever the cause, unless a
   cancellation is somewhere below it; then it is never retried.
   */
  lemma MarkerForcesRetry(e: Error)
    ensures IsRetryable(Marked(e)) <==> Canceled !in Chain(e)
  {
    assert Chain(Marked(e)) == [Marked(e)] + Chain(e);
    assert Marked(e) in Chain(Marked(e));
    IsRetryablePrecedence(Marked(e));
  }

  /** `fmt.Errorf` with `%w` is transparent to the classifier. */
  lemma WrappingKeepsClass(prefix: string, e: Error)
    ensures IsRetryable(Wrapped(prefix, e)) == IsRetryable(e)
  {
  }
}
