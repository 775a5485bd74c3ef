/** Rates computed from two samples of ever-growing counters. */
module Metrics {
  import opened Options

  datatype Sample = Sample(requests: real, errors: real)

  /** Requests per second and error rate between two samples. */
  function ComputeRps(prev: Option<Sample>, curr: Sample, window: real): (real, real) {
    if prev.None? then (0.0, 0.0)
    else
      var total := curr.requests - prev.value.requests;
      var errors := curr.errors - prev.value.errors;
      if window <= 0.0 || total < 0.0 then (0.0, 0.0)
      else
        var rate := if total > 0.0 then errors / total else 0.0;
        (total / window, if rate < 1.0 then rate else 1.0)
  }

  /** There is a previous sample with fewer requests, and time has passed. */
  ghost predicate HasNew(prev: Option<Sample>, curr: Sample, window: real) {
    prev.Some? && window > 0.0 && curr.requests > prev.value.requests
  }

  /** The new requests per second, and 0 without any. */
  ghost predicate IsRequestRate(prev: Option<Sample>, curr: Sample, window: real, rps: real) {
    if HasNew(prev, curr, window) then rps * window == curr.requests - prev.value.requests else rps == 0.0
  }

  /** The share of errors among the new requests, at most 1, and 0 without any. */
  ghost predicate IsErrorRate(prev: Option<Sample>, curr: Sample, window: real, rate: real) {
    if HasNew(prev, curr, window) then
      var total, errors := curr.requests - prev.value.requests, curr.errors - prev.value.errors;
      if errors <= total then rate * total == errors else rate == 1.0
    else
      rate == 0.0
  }

  lemma ProductsDetermine(a: real, b: real, d: real)
    requires d > 0.0 && a * d == b * d
    ensures a == b
  {
    assert (a - b) * d == 0.0;
  }

  /** Exactly these two are computed. */
  lemma RatesAreExact(prev: Option<Sample>, curr: Sample, window: real, rps: real, rate: real)
    ensures ComputeRps(prev, curr, window) == (rps, rate)
            <==> IsRequestRate(prev, curr, window, rps) && IsErrorRate(prev, curr, window, rate)
  {
    if HasNew(prev, curr, window) {
      var total, errors := curr.requests - prev.value.requests, curr.errors - prev.value.errors;
      FractionBounds(errors, total);
      QuotientBack(errors, total);
      QuotientBack(total, window);
      if IsRequestRate(prev, curr, window, rps) && IsErrorRate(prev, curr, window, rate) {
        ProductsDetermine(rps, total / window, window);
        if errors <= total {
          ProductsDetermine(rate, errors / total, total);
        }
      }
    }
  }

  lemma FractionBounds(e: real, t: real)
    requires t > 0.0
    ensures e / t < 0.0 <==> e < 0.0
    ensures e / t <= 1.0 <==> e <= t
  {
    assert e / t * t == e;
  }

  /** The request rate is never negative and the error rate never above 1; the error rate is
      negative exactly when errors were lost between samples that gained requests, and is
      the plain ratio exactly when no more errors than requests were gained. */
  lemma RatesAreRates(prev: Sample, curr: Sample, window: real)
    ensures var (rps, rate) := ComputeRps(Some(prev), curr, window);
            var total, errors := curr.requests - prev.requests, curr.errors - prev.errors;
            && rps >= 0.0 && rate <= 1.0
            && (rate < 0.0 <==> window > 0.0 && total > 0.0 && errors < 0.0)
            && (window > 0.0 && total > 0.0 ==> (rate == errors / total <==> errors <= total))
  {
    var total, errors := curr.requests - prev.requests, curr.errors - prev.errors;
    if window > 0.0 && total > 0.0 {
      FractionBounds(errors, total);
      FractionBounds(total, window);
    }
  }

  /** An error rate below 0: errors were lost while requests were gained. */
  lemma RateCanBeNegative()
    ensures ComputeRps(Some(Sample(10.0, 5.0)), Sample(20.0, 0.0), 10.0) == (1.0, -0.5)
  {
  }

  lemma QuotientBack(e: real, t: real)
    requires t > 0.0
    ensures e / t * t == e
  {
  }

  /** The rates between two samples account for the new requests, and the error rate is the
      share of errors among them, a fraction between 0 and 1. */
  ghost predicate FractionOfRequests(prev: Sample, curr: Sample, window: real) {
    exists rps, rate ::
      && ComputeRps(Some(prev), curr, window) == (rps, rate)
      && rps >= 0.0 && 0.0 <= rate <= 1.0
      && rate * (curr.requests - prev.requests) == curr.errors - prev.errors
      && rps * window == curr.requests - prev.requests
      && (curr.requests == prev.requests ==> rate == 0.0 && rps == 0.0)
  }

  /** While no counter goes down the error rate is the share of errors among the new
      requests, and the request rate accounts for them. */
  lemma ShareOfRequests(prev: Sample, curr: Sample, window: real)
    requires window > 0.0 && 0.0 <= curr.errors - prev.errors <= curr.requests - prev.requests
    ensures FractionOfRequests(prev, curr, window)
  {
    var total, errors := curr.requests - prev.requests, curr.errors - prev.errors;
    RatesAreRates(prev, curr, window);
    QuotientBack(total, window);
    if total > 0.0 {
      QuotientBack(errors, total);
    } else {
      RatesAreExact(Some(prev), curr, window, 0.0, 0.0);
    }
  }

  /** The requests counted by the rates of successive samples. */
  function Counted(samples: seq<Sample>, window: real): real {
    if |samples| < 2 then 0.0
    else
      var n := |samples|;
      Counted(samples[..n - 1], window) + ComputeRps(Some(samples[n - 2]), samples[n - 1], window).0 * window
  }

  /** While request totals do not decrease the rates account for every request. */
  lemma {:induction false} RatesTelescope(samples: seq<Sample>, window: real)
    requires samples != [] && window > 0.0
    requires forall i :: 0 <= i < |samples| - 1 ==> samples[i].requests <= samples[i + 1].requests
    ensures Counted(samples, window) == samples[|samples| - 1].requests - samples[0].requests
  {
    var n := |samples|;
    if n >= 2 {
      var total := samples[n - 1].requests - samples[n - 2].requests;
      RatesTelescope(samples[..n - 1], window);
      assert total / window * window == total;
    }
  }
}
