/** One webhook delivery: the retry loop with its exponential backoff. */
module Webhook {
  import opened Options

  datatype RetryConfig = RetryConfig(maxAttempts: nat, initialDelayMs: real, maxDelayMs: real, backoffMultiplier: real)

  /** What one request comes to: a 2xx answer, or a failure with a status if there was an answer. */
  datatype Response = Delivered(code: int) | Failed(status: Option<int>)

  datatype Delivery = Delivery(success: bool, attempts: nat, status: Option<int>)

  /** A client error other than too-many-requests is final. */
  predicate Final(r: Response) {
    r.Delivered? || (r.status.Some? && 400 <= r.status.value < 500 && r.status.value != 429)
  }

  function Min(a: real, b: real): real {
    if a <= b then a else b
  }

  function Times(a: real, m: real): real {
    a * m
  }

  /** The initial delay times the k-th power of the multiplier. */
  function Exponential(c: RetryConfig, k: nat): real {
    if k == 0 then c.initialDelayMs else Times(Exponential(c, k - 1), c.backoffMultiplier)
  }

  /** The wait before retry k, as the loop updates it. */
  function DelayAt(c: RetryConfig, k: nat): real {
    if k == 0 then c.initialDelayMs else Min(Times(DelayAt(c, k - 1), c.backoffMultiplier), c.maxDelayMs)
  }

  lemma DelaySteps(c: RetryConfig, k: nat)
    ensures DelayAt(c, 0) == c.initialDelayMs && Exponential(c, 0) == c.initialDelayMs
    ensures k >= 1 ==> DelayAt(c, k) == Min(Times(DelayAt(c, k - 1), c.backoffMultiplier), c.maxDelayMs)
    ensures k >= 1 ==> Exponential(c, k) == Times(Exponential(c, k - 1), c.backoffMultiplier)
  {
  }

  /** The number of requests made when k were made before. */
  function RequestsFrom(c: RetryConfig, responses: nat -> Response, k: nat): (n: nat)
    requires k <= c.maxAttempts
    ensures k <= n <= c.maxAttempts
    decreases c.maxAttempts - k
  {
    if k == c.maxAttempts then k else if Final(responses(k)) then k + 1 else RequestsFrom(c, responses, k + 1)
  }

  /** What the delivery comes to. */
  function Deliver(c: RetryConfig, urlValid: bool, responses: nat -> Response): (d: Delivery)
    ensures d.attempts <= c.maxAttempts
  {
    var n := if urlValid then RequestsFrom(c, responses, 0) else 0;
    if n == 0 then Delivery(false, 0, None)
    else
      match responses(n - 1)
      case Delivered(code) => Delivery(true, n, Some(code))
      case Failed(status) => Delivery(false, n, status)
  }

  lemma {:induction false} RequestsEnd(c: RetryConfig, responses: nat -> Response, k: nat, n: nat)
    requires k <= n <= c.maxAttempts && (forall j: nat :: j + 1 < n ==> !Final(responses(j)))
    requires n < c.maxAttempts ==> n > k && Final(responses(n - 1))
    requires k == n ==> n == c.maxAttempts
    ensures RequestsFrom(c, responses, k) == n
    decreases n - k
  {
    if k + 1 < n {
      RequestsEnd(c, responses, k + 1, n);
    } else if k + 1 == n && !Final(responses(k)) {
      RequestsEnd(c, responses, n, n);
    }
  }

  /** No answer, a server error, or any status but the client errors; of those only 429 is worth another try. */
  predicate WorthRetrying(r: Response) {
    r.Failed? && (r.status == None || r.status.value < 400 || r.status.value >= 500 || r.status.value == 429)
  }

  /**
   * A request is made exactly if attempts are left and all answers before were worth retrying; the
   * delivery succeeds exactly if the last request did, and reports the status of that one.
   */
  lemma RequestedIff(c: RetryConfig, responses: nat -> Response, k: nat)
    ensures var d := Deliver(c, true, responses);
      && (k < d.attempts <==> k < c.maxAttempts && forall j: nat :: j < k ==> WorthRetrying(responses(j)))
      && (d.success <==> d.attempts > 0 && exists code :: responses(d.attempts - 1) == Delivered(code))
      && (forall code :: d.attempts > 0 && responses(d.attempts - 1) == Delivered(code) ==> d.status == Some(code))
      && (forall status :: d.attempts > 0 && responses(d.attempts - 1) == Failed(status) ==> d.status == status)
      && Deliver(c, false, responses) == Delivery(false, 0, None)
  {
    assert forall r :: Final(r) <==> !WorthRetrying(r);
    RequestsFromIs(c, responses, 0);
    hide Final, WorthRetrying, RequestsFrom;
  }

  lemma {:induction false} RequestsFromIs(c: RetryConfig, responses: nat -> Response, k: nat)
    requires k <= c.maxAttempts
    ensures var n := RequestsFrom(c, responses, k);
      && (forall j: nat :: k <= j && j + 1 < n ==> !Final(responses(j)))
      && (n < c.maxAttempts ==> n > k && Final(responses(n - 1)))
    decreases c.maxAttempts - k
  {
    hide Final;
    if k < c.maxAttempts && !Final(responses(k)) {
      RequestsFromIs(c, responses, k + 1);
    }
  }

  /**
   * The loop makes requests until a final one, at most maxAttempts, and waits between
   * consecutive ones. The address is valid or nothing is sent.
   */
  method SendToWebhook(c: RetryConfig, urlValid: bool, responses: nat -> Response) returns (d: Delivery, delays: seq<real>)
    ensures d == Deliver(c, urlValid, responses)
    ensures d.attempts <= c.maxAttempts && forall k: nat :: k + 1 < d.attempts ==> !Final(responses(k))
    ensures !urlValid ==> d == Delivery(false, 0, None)
    ensures urlValid && d.attempts < c.maxAttempts ==> d.attempts > 0 && Final(responses(d.attempts - 1))
    ensures d.success <==> d.attempts > 0 && responses(d.attempts - 1).Delivered?
    ensures d.status == if d.attempts == 0 then None
                        else match responses(d.attempts - 1) case Delivered(s) => Some(s) case Failed(s) => s
    ensures |delays| == if d.attempts == 0 then 0 else d.attempts - 1
    ensures forall k :: 0 <= k < |delays| ==> delays[k] == DelayAt(c, k)
  {
    hide DelayAt, Min, RequestsFrom;
    DelaySteps(c, 0);
    delays := [];
    if !urlValid {
      return Delivery(false, 0, None), delays;
    }
    var attempts, delayMs, lastStatus := 0, c.initialDelayMs, None;
    while attempts < c.maxAttempts
      invariant attempts <= c.maxAttempts && forall k: nat :: k < attempts ==> !Final(responses(k))
      invariant lastStatus == if attempts == 0 then None
                              else match responses(attempts - 1) case Delivered(s) => Some(s) case Failed(s) => s
      invariant |delays| == if attempts < c.maxAttempts then attempts else if attempts == 0 then 0 else attempts - 1
      invariant attempts < c.maxAttempts ==> delayMs == DelayAt(c, |delays|)
      invariant forall k :: 0 <= k < |delays| ==> delays[k] == DelayAt(c, k)
    {
      attempts := attempts + 1;
      match responses(attempts - 1)
      case Delivered(status) =>
        RequestsEnd(c, responses, 0, attempts);
        return Delivery(true, attempts, Some(status)), delays;
      case Failed(status) =>
        lastStatus := status;
        if Final(responses(attempts - 1)) {
          break;
        }
        if attempts < c.maxAttempts {
          delays := delays + [delayMs];
          DelaySteps(c, |delays|);
          delayMs := Min(Times(delayMs, c.backoffMultiplier), c.maxDelayMs);
        }
    }
    RequestsEnd(c, responses, 0, attempts);
    d := Delivery(false, attempts, lastStatus);
  }

  // ---------------------------------------------------------------- the delays in closed form

  /** Every later delay is the exponential one, capped. */
  ghost predicate CappedExponential(c: RetryConfig) {
    forall k: nat :: k >= 1 ==> DelayAt(c, k) == Min(Exponential(c, k), c.maxDelayMs)
  }

  lemma Scale(a: real, b: real, m: real)
    requires a <= b && m >= 0.0
    ensures Times(a, m) <= Times(b, m)
  {
    assert (b - a) * m >= 0.0;
  }

  lemma StrictScale(a: real, b: real, m: real)
    requires a < b && m > 0.0
    ensures Times(a, m) < Times(b, m)
  {
    assert (b - a) * m > 0.0;
  }

  lemma Commute(a: real, m: real)
    ensures Times(a, m) == Times(m, a) && Times(0.0, m) == 0.0 && Times(1.0, m) == m
  {
  }

  lemma CapTwice(x: real, cap: real, m: real)
    requires m >= 1.0 && cap >= 0.0
    ensures Min(Times(Min(x, cap), m), cap) == Min(Times(x, m), cap)
  {
    Scale(1.0, m, cap);
    if x > cap {
      Scale(cap, x, m);
    }
  }

  lemma {:induction false} CapStays(c: RetryConfig, k: nat)
    requires c.backoffMultiplier >= 1.0 && c.maxDelayMs >= 0.0 && k >= 1
    ensures DelayAt(c, k) == Min(Exponential(c, k), c.maxDelayMs)
  {
    if k > 1 {
      CapStays(c, k - 1);
      CapTwice(Exponential(c, k - 1), c.maxDelayMs, c.backoffMultiplier);
    }
  }

  lemma ShrinkStaysBelow(x: real, cap: real, m: real)
    requires 0.0 < m < 1.0 && 0.0 <= x <= cap
    ensures 0.0 <= Times(x, m) <= cap && Min(Times(x, m), cap) == Times(x, m)
  {
    Scale(m, 1.0, x);
    Scale(0.0, x, m);
    Commute(x, m);
    Commute(0.0, m);
    Commute(1.0, x);
  }

  lemma {:induction false} NeverCapped(c: RetryConfig, k: nat)
    requires 0.0 < c.backoffMultiplier < 1.0 && c.initialDelayMs >= 0.0 && Exponential(c, 1) <= c.maxDelayMs && k >= 1
    ensures DelayAt(c, k) == Exponential(c, k) && 0.0 <= Exponential(c, k) <= c.maxDelayMs
  {
    hide DelayAt, Exponential, Min;
    DelaySteps(c, k);
    if k == 1 {
      Scale(0.0, c.initialDelayMs, c.backoffMultiplier);
      MinOfSmaller(Exponential(c, 1), c.maxDelayMs);
    } else {
      NeverCapped(c, k - 1);
      ShrinkStaysBelow(Exponential(c, k - 1), c.maxDelayMs, c.backoffMultiplier);
    }
  }

  /** That holds exactly for multipliers of at least one, or when the first retry is not capped. */
  lemma CappedExponentialIff(c: RetryConfig)
    requires c.backoffMultiplier > 0.0 && c.initialDelayMs >= 0.0 && c.maxDelayMs > 0.0
    ensures CappedExponential(c) <==> c.backoffMultiplier >= 1.0 || Exponential(c, 1) <= c.maxDelayMs
  {
    hide DelayAt, Exponential, Min;
    if c.backoffMultiplier >= 1.0 {
      forall k: nat | k >= 1 ensures DelayAt(c, k) == Min(Exponential(c, k), c.maxDelayMs) {
        CapStays(c, k);
      }
    } else if Exponential(c, 1) <= c.maxDelayMs {
      forall k: nat | k >= 1 ensures DelayAt(c, k) == Min(Exponential(c, k), c.maxDelayMs) {
        NeverCapped(c, k);
        MinOfSmaller(Exponential(c, k), c.maxDelayMs);
      }
    } else {
      SecondRetryTooEarly(c);
    }
  }

  lemma MinOfSmaller(a: real, b: real)
    requires a <= b
    ensures Min(a, b) == a
  {
  }

  lemma SecondRetryTooEarly(c: RetryConfig)
    requires 0.0 < c.backoffMultiplier < 1.0 && 0.0 < c.maxDelayMs < Exponential(c, 1)
    ensures DelayAt(c, 2) < Min(Exponential(c, 2), c.maxDelayMs)
  {
    hide DelayAt, Exponential;
    DelaySteps(c, 1);
    DelaySteps(c, 2);
    CapThenShrink(Exponential(c, 1), c.maxDelayMs, c.backoffMultiplier);
  }

  lemma CapThenShrink(x: real, cap: real, m: real)
    requires 0.0 < m < 1.0 && 0.0 < cap < x
    ensures Min(x, cap) == cap && Min(Times(cap, m), cap) < Min(Times(x, m), cap)
  {
    StrictScale(m, 1.0, cap);
    StrictScale(cap, x, m);
  }
}
