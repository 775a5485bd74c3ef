/** From the texts of all targets to what the policy is shown. */
module Scraping {
  import opened Options
  import opened Controller
  import opened Extraction
  import Exposition
  import Metrics

  /** What scraping a target that answers with this text gives. */
  ghost function ScrapeOf(text: string, number: string -> Option<real>, service: string): Scrape {
    var parsed := Exposition.Parse(text, number);
    if parsed.None? then Malformed else Sampled(Extracted(parsed.value, service))
  }

  /** Every target answered with its text. */
  ghost predicate Answered(g: Setup, i: Input, texts: nat -> string, number: string -> Option<real>, service: string) {
    forall n: nat :: n < g.targets ==> i.scrape(n) == ScrapeOf(texts(n), number, service)
  }

  /** Both texts parse, and no counter of the first is smaller in the second. */
  ghost predicate TextGrown(before: string, after: string, number: string -> Option<real>) {
    var b, a := Exposition.Parse(before, number), Exposition.Parse(after, number);
    b.Some? && a.Some? && Grown(Extraction.Counters(b.value), Extraction.Counters(a.value))
  }

  /** Errors and requests went up, errors by no more than requests. */
  ghost predicate NoMoreErrors(prev: Metrics.Sample, curr: Metrics.Sample) {
    0.0 <= curr.errors - prev.errors <= curr.requests - prev.requests
  }

  lemma TextsGrow(before: string, after: string, number: string -> Option<real>, service: string)
    requires TextGrown(before, after, number)
    ensures var b, a := ScrapeOf(before, number, service), ScrapeOf(after, number, service);
            b.Sampled? && a.Sampled? && NoMoreErrors(b.sample, a.sample)
  {
    SumsGrow(Extraction.Counters(Exposition.Parse(before, number).value), Extraction.Counters(Exposition.Parse(after, number).value), service);
  }

  lemma {:induction false} TotalsGrow(prev: nat -> Scrape, curr: nat -> Scrape, n: nat)
    requires forall j: nat :: j < n ==> prev(j).Sampled? && curr(j).Sampled? && NoMoreErrors(prev(j).sample, curr(j).sample)
    ensures Totals(prev, n).Some? && Totals(curr, n).Some? && NoMoreErrors(Totals(prev, n).value, Totals(curr, n).value)
  {
    if n > 0 {
      TotalsGrow(prev, curr, n - 1);
      assert prev(n - 1).Sampled? && NoMoreErrors(prev(n - 1).sample, curr(n - 1).sample);
    }
  }

  /** The share of errors among the new requests, a fraction between 0 and 1. */
  ghost predicate IsShare(rate: real, prev: Metrics.Sample, curr: Metrics.Sample) {
    && 0.0 <= rate <= 1.0 && rate * (curr.requests - prev.requests) == curr.errors - prev.errors
    && (curr.requests == prev.requests ==> rate == 0.0)
  }

  lemma RateIsShare(rate: real, prev: Metrics.Sample, curr: Metrics.Sample, window: real)
    requires window > 0.0 && NoMoreErrors(prev, curr) && rate == Metrics.ComputeRps(Some(prev), curr, window).1
    ensures IsShare(rate, prev, curr)
  {
    Metrics.ShareOfRequests(prev, curr, window);
    var rps, r :| Metrics.ComputeRps(Some(prev), curr, window) == (rps, r) && 0.0 <= r <= 1.0
                  && r * (curr.requests - prev.requests) == curr.errors - prev.errors && (curr.requests == prev.requests ==> r == 0.0);
  }

  lemma AllTargetsGrow(g: Setup, last: Input, next: Input, before: nat -> string, after: nat -> string,
                       number: string -> Option<real>, service: string)
    requires Answered(g, last, before, number, service) && Answered(g, next, after, number, service)
    requires forall n: nat :: n < g.targets ==> TextGrown(before(n), after(n), number)
    ensures Totals(last.scrape, g.targets).Some? && Totals(next.scrape, g.targets).Some?
    ensures NoMoreErrors(Totals(last.scrape, g.targets).value, Totals(next.scrape, g.targets).value)
  {
    forall j: nat | j < g.targets
      ensures last.scrape(j).Sampled? && next.scrape(j).Sampled? && NoMoreErrors(last.scrape(j).sample, next.scrape(j).sample)
    {
      TextsGrow(before(j), after(j), number, service);
    }
    TotalsGrow(last.scrape, next.scrape, g.targets);
  }

  /** When every target answers two ticks in a row and none of its counters goes down, the
      error rate the policy is shown is the share of errors among the new requests of all
      targets together. */
  lemma ObservedRateIsAFraction(g: Setup, inputs: seq<Input>, next: Input, before: nat -> string, after: nat -> string,
                                number: string -> Option<real>, service: string)
    requires g.targets > 0 && g.window > 0.0 && inputs != []
    requires Answered(g, inputs[|inputs| - 1], before, number, service) && Answered(g, next, after, number, service)
    requires forall n: nat :: n < g.targets ==> TextGrown(before(n), after(n), number)
    ensures var prev, curr := Totals(inputs[|inputs| - 1].scrape, g.targets), Totals(next.scrape, g.targets);
            var o := Observed(g, After(g, inputs), next);
            prev.Some? && curr.Some? && o.Some? && IsShare(o.value.errorRate, prev.value, curr.value)
  {
    var last := inputs[|inputs| - 1];
    AllTargetsGrow(g, last, next, before, after, number, service);
    var prev, curr := Totals(last.scrape, g.targets).value, Totals(next.scrape, g.targets).value;
    PrevIsLast(g, inputs);
    ObservesTheRate(g, After(g, inputs), next, prev, curr);
    RateIsShare(Observed(g, After(g, inputs), next).value.errorRate, prev, curr, g.window);
  }
}
