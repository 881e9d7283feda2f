/** `retry.IsRetryableHTTPStatus`: which HTTP response statuses are worth retrying. */
module HttpStatus {

  const StatusRequestTimeout := 408        // RFC 9110, section 15.5.9
  const StatusTooManyRequests := 429       // RFC 6585, section 4
  const StatusInternalServerError := 500   // RFC 9110, section 15.6.1
  const StatusNotImplemented := 501        // RFC 9110, section 15.6.2
  const StatusBadGateway := 502            // RFC 9110, section 15.6.3
  const StatusServiceUnavailable := 503    // RFC 9110, section 15.6.4
  const StatusGatewayTimeout := 504        // RFC 9110, section 15.6.5

  /** True exactly for request timeout, rate limiting and the transient server errors. */
  function IsRetryableHTTPStatus(statusCode: int): (r: bool)
    ensures r <==> statusCode in {408, 429, 500, 502, 503, 504}
    ensures r ==> 400 <= statusCode < 600
  {
    || statusCode == StatusRequestTimeout
    || statusCode == StatusTooManyRequests
    || statusCode == StatusInternalServerError
    || statusCode == StatusBadGateway
    || statusCode == StatusServiceUnavailable
    || statusCode == StatusGatewayTimeout
  }

  /**
   The status classes: nothing below 400 is retried; among client errors only
   a request timeout and rate limiting; among the first five server errors all
   but "not implemented"; nothing from 505 up.
   */
  lemma RetryableStatusClasses(s: int)
    ensures s < 400 ==> !IsRetryableHTTPStatus(s)
    ensures 400 <= s < 500 ==> (IsRetryableHTTPStatus(s) <==> s == StatusRequestTimeout || s == StatusTooManyRequests)
    ensures StatusInternalServerError <= s <= StatusGatewayTimeout ==> (IsRetryableHTTPStatus(s) <==> s != StatusNotImplemented)
    ensures s > StatusGatewayTimeout ==> !IsRetryableHTTPStatus(s)
  {
  }
}
