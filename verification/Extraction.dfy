/** From a scraped text to the totals of one service. */
module Extraction {
  import opened Options
  import opened Exposition
  import Metrics

  const REQUESTS := "http_requests_total"

  predicate Contains(s: string, part: string) {
    |part| <= |s| && (s[..|part|] == part || (s != "" && Contains(s[1..], part)))
  }

  predicate IsDigit(c: char) {
    '0' <= c <= '9'
  }

  const SERVER_ERROR := "status=\"5"

  /** Some status label has a value of three digits beginning with 5. */
  predicate ServerError(labels: string) {
    labels != "" &&
    ((|labels| >= |SERVER_ERROR| + 3 && labels[..|SERVER_ERROR|] == SERVER_ERROR
      && IsDigit(labels[|SERVER_ERROR|]) && IsDigit(labels[|SERVER_ERROR| + 1]) && labels[|SERVER_ERROR| + 2] == '"')
     || ServerError(labels[1..]))
  }

  predicate OfService(labels: string, service: string) {
    Contains(labels, "service=\"" + service + "\"")
  }

  /** The text stands at place `i`. */
  ghost predicate At(s: string, i: nat, part: string) {
    i + |part| <= |s| && s[i..i + |part|] == part
  }

  lemma {:induction false} ContainsIsSomewhere(s: string, part: string)
    ensures Contains(s, part) <==> exists i :: At(s, i, part)
  {
    if !At(s, 0, part) && s != "" {
      var rest := s[1..];
      ContainsIsSomewhere(rest, part);
      forall i: nat | At(rest, i, part) ensures At(s, i + 1, part) {
        assert s[i + 1..i + 1 + |part|] == rest[i..i + |part|];
      }
      forall i: nat | At(s, i, part) ensures i > 0 && At(rest, i - 1, part) {
        assert i > 0;
        assert s[i..i + |part|] == rest[i - 1..i - 1 + |part|];
      }
    }
  }

  /** The labels name the service. */
  ghost predicate NamesService(labels: string, service: string) {
    exists i :: At(labels, i, "service=\"" + service + "\"")
  }

  lemma OfServiceMeans(labels: string, service: string)
    ensures OfService(labels, service) <==> NamesService(labels, service)
  {
    ContainsIsSomewhere(labels, "service=\"" + service + "\"");
  }

  /** A status label with a value from 500 to 599 begins at place `i`. */
  ghost predicate Status5xxAt(labels: string, i: nat) {
    && At(labels, i, "status=\"5")
    && i + 12 <= |labels| && '0' <= labels[i + 9] <= '9' && '0' <= labels[i + 10] <= '9' && labels[i + 11] == '"'
  }

  ghost predicate HasStatus5xx(labels: string) {
    exists i :: Status5xxAt(labels, i)
  }

  lemma Status5xxShifts(labels: string, i: nat)
    requires labels != ""
    ensures Status5xxAt(labels, i + 1) <==> Status5xxAt(labels[1..], i)
  {
    if i + 10 <= |labels| {
      assert labels[i + 1..i + 1 + 9] == labels[1..][i..i + 9];
    }
  }

  lemma {:induction false} ServerErrorMeans(labels: string)
    ensures ServerError(labels) <==> HasStatus5xx(labels)
  {
    if labels != "" {
      var rest := labels[1..];
      ServerErrorMeans(rest);
      forall i: nat ensures Status5xxAt(labels, i + 1) <==> Status5xxAt(rest, i) {
        Status5xxShifts(labels, i);
      }
      assert Status5xxAt(labels, 0) ==> HasStatus5xx(labels);
      if i: nat :| Status5xxAt(rest, i) {
        assert Status5xxAt(labels, i + 1);
      }
      if i: nat :| i > 0 && Status5xxAt(labels, i) {
        assert Status5xxAt(rest, i - 1);
      }
    }
  }

  function Request(service: string): (string, real) -> real {
    (labels: string, value: real) => if OfService(labels, service) then value else 0.0
  }

  function Error(service: string): (string, real) -> real {
    (labels: string, value: real) => if OfService(labels, service) && ServerError(labels) then value else 0.0
  }

  ghost function SumMap(m: map<string, real>, f: (string, real) -> real): real {
    if m == map[] then 0.0
    else
      var k :| k in m;
      f(k, m[k]) + SumMap(m - {k}, f)
  }

  function Counters(m: Families): map<string, real> {
    if REQUESTS in m then m[REQUESTS] else map[]
  }

  /** The order in which a map is summed does not matter. */
  lemma {:induction false} SumTakes(m: map<string, real>, f: (string, real) -> real, k: string)
    requires k in m
    ensures SumMap(m, f) == f(k, m[k]) + SumMap(m - {k}, f)
  {
    var j :| j in m && SumMap(m, f) == f(j, m[j]) + SumMap(m - {j}, f);
    if j != k {
      SumTakes(m - {j}, f, k);
      SumTakes(m - {k}, f, j);
      assert m - {j} - {k} == m - {k} - {j};
    }
  }

  /** The totals of a service: the sum of its request counters, and of those with an error. */
  ghost function Extracted(parsed: Families, service: string): Metrics.Sample {
    Metrics.Sample(SumMap(Counters(parsed), Request(service)), SumMap(Counters(parsed), Error(service)))
  }

  /** The loop over the counters, in whatever order they come. */
  method ExtractSample(parsed: Families, service: string) returns (r: Metrics.Sample)
    ensures r == Extracted(parsed, service)
  {
    var counters := Counters(parsed);
    var rest := counters;
    var requests, errors := 0.0, 0.0;
    while rest != map[]
      invariant requests + SumMap(rest, Request(service)) == SumMap(counters, Request(service))
      invariant errors + SumMap(rest, Error(service)) == SumMap(counters, Error(service))
      decreases |rest|
    {
      var labels :| labels in rest;
      var value := rest[labels];
      SumTakes(rest, Request(service), labels);
      SumTakes(rest, Error(service), labels);
      rest := rest - {labels};
      if !OfService(labels, service) {
        continue;
      }
      requests := requests + value;
      if ServerError(labels) {
        errors := errors + value;
      }
    }
    r := Metrics.Sample(requests, errors);
  }

  /** The counter with these labels is in the text, at this value. */
  predicate HasCounter(m: Families, labels: string, value: real) {
    "http_requests_total" in m && labels in m["http_requests_total"] && m["http_requests_total"][labels] == value
  }

  /** Which counters are added, and to what: one whose labels name the service adds its value
      to the requests, and with a status from 500 to 599 also to the errors. */
  lemma CounterAdds(m: Families, service: string, labels: string, value: real)
    requires HasCounter(m, labels, value)
    ensures var without := m["http_requests_total" := m["http_requests_total"] - {labels}];
            var t, t0 := Extracted(m, service), Extracted(without, service);
            && t.requests == t0.requests + (if NamesService(labels, service) then value else 0.0)
            && t.errors == t0.errors + (if NamesService(labels, service) && HasStatus5xx(labels) then value else 0.0)
  {
    OfServiceMeans(labels, service);
    ServerErrorMeans(labels);
    SumTakes(Counters(m), Request(service), labels);
    SumTakes(Counters(m), Error(service), labels);
  }

  /** Nothing else is: without request counters both totals are 0. */
  lemma NoCountersNoTotals(m: Families, service: string)
    ensures (forall labels, value :: !HasCounter(m, labels, value)) ==> Extracted(m, service) == Metrics.Sample(0.0, 0.0)
  {
    if Counters(m) != map[] {
      var k :| k in Counters(m);
      assert HasCounter(m, k, m[REQUESTS][k]);
    }
  }

  /** Other metrics do not matter. */
  lemma OtherMetricsAreIgnored(m: Families, m': Families, service: string)
    requires forall labels, value :: HasCounter(m, labels, value) <==> HasCounter(m', labels, value)
    ensures Extracted(m, service) == Extracted(m', service)
  {
    forall k | k in Counters(m) ensures k in Counters(m') && Counters(m')[k] == Counters(m)[k] {
      assert HasCounter(m, k, m[REQUESTS][k]);
    }
    forall k | k in Counters(m') ensures k in Counters(m) {
      assert HasCounter(m', k, m'[REQUESTS][k]);
    }
    assert Counters(m) == Counters(m');
  }

  // ---------------------------------------------------------------- the pipeline

  /** A sum over the request counters among rendered samples. */
  function SumList(samples: seq<Sample>, number: string -> Option<real>, f: (string, real) -> real): real {
    if samples == [] then 0.0
    else
      var s := samples[0];
      (if s.name == REQUESTS && number(s.value).Some? then f(s.labels, number(s.value).value) else 0.0)
      + SumList(samples[1..], number, f)
  }

  lemma SetAddsToSum(m: Families, name: string, labels: string, value: real, f: (string, real) -> real)
    requires name == REQUESTS ==> labels !in Counters(m)
    ensures SumMap(Counters(Set(m, name, labels, value)), f)
            == SumMap(Counters(m), f) + if name == REQUESTS then f(labels, value) else 0.0
  {
    if name == REQUESTS {
      var counters := Counters(Set(m, name, labels, value));
      SumTakes(counters, f, labels);
      assert counters - {labels} == Counters(m);
    }
  }

  /** None of the samples is in the map yet. */
  ghost predicate New(samples: seq<Sample>, m: Families) {
    forall s :: s in samples && s.name == REQUESTS ==> s.labels !in Counters(m)
  }

  lemma {:induction false} MapSumIsListSum(samples: seq<Sample>, number: string -> Option<real>, acc: Families, f: (string, real) -> real)
    requires DistinctKeys(samples) && New(samples, acc)
    requires forall s :: s in samples ==> WellFormed(s, number)
    ensures SumMap(Counters(MapOf(samples, number, acc)), f) == SumMap(Counters(acc), f) + SumList(samples, number, f)
    decreases |samples|
  {
    if samples != [] {
      var s := samples[0];
      assert WellFormed(s, number);
      SetAddsToSum(acc, s.name, s.labels, number(s.value).value, f);
      MapSumIsListSum(samples[1..], number, Set(acc, s.name, s.labels, number(s.value).value), f);
    }
  }

  /** What is extracted from a rendered text are the sums over its samples: every request
      counter whose labels name the service, and those among them with a server error. */
  lemma ScrapeGivesTotals(items: seq<Item>, number: string -> Option<real>, service: string)
    requires DistinctKeys(Samples(items)) && forall item :: item in items ==> WellFormedItem(item, number)
    ensures var r := Parse(Render(items), number);
            && r.Some?
            && Extracted(r.value, service)
               == Metrics.Sample(SumList(Samples(items), number, Request(service)), SumList(Samples(items), number, Error(service)))
  {
    ParseAfterRender(items, number, map[]);
    SamplesAreItems(items, number);
    MapSumIsListSum(Samples(items), number, map[], Request(service));
    MapSumIsListSum(Samples(items), number, map[], Error(service));
  }

  // ---------------------------------------------------------------- two scrapes

  /** The counters at a later time: none went down, and new ones may have appeared. */
  ghost predicate Grown(before: map<string, real>, after: map<string, real>) {
    && (forall k :: k in before ==> k in after && before[k] <= after[k])
    && forall k :: k in after && k !in before ==> after[k] >= 0.0
  }

  /** Without one counter, present or not at first. */
  lemma GrownWithout(before: map<string, real>, after: map<string, real>, k: string)
    requires Grown(before, after) && k in after
    ensures Grown(before - {k}, after - {k})
    ensures k !in before ==> before - {k} == before
  {
  }

  lemma {:induction false} SumsGrow(before: map<string, real>, after: map<string, real>, service: string)
    requires Grown(before, after)
    ensures 0.0 <= SumMap(after, Error(service)) - SumMap(before, Error(service))
                <= SumMap(after, Request(service)) - SumMap(before, Request(service))
    decreases |after|
  {
    if after == map[] {
      assert before == map[];
    } else {
      var k :| k in after;
      GrownWithout(before, after, k);
      SumsGrow(before - {k}, after - {k}, service);
      SumTakes(after, Error(service), k);
      SumTakes(after, Request(service), k);
      if k in before {
        SumTakes(before, Error(service), k);
        SumTakes(before, Request(service), k);
      }
    }
  }

  /** End to end: when no counter goes down between two scraped texts, and those that are new
      are not negative, the error rate is the share of errors among the new requests, a
      fraction between 0 and 1. */
  lemma ScrapesGiveFractions(before: string, after: string, number: string -> Option<real>, service: string, window: real)
    requires Parse(before, number).Some? && Parse(after, number).Some? && window > 0.0
    requires Grown(Counters(Parse(before, number).value), Counters(Parse(after, number).value))
    ensures Metrics.FractionOfRequests(Extracted(Parse(before, number).value, service), Extracted(Parse(after, number).value, service), window)
  {
    var b, a := Parse(before, number).value, Parse(after, number).value;
    SumsGrow(Counters(b), Counters(a), service);
    Metrics.ShareOfRequests(Extracted(b, service), Extracted(a, service), window);
  }

  /** The line is a request counter with these labels, at this value. */
  ghost predicate Counts(items: seq<Item>, number: string -> Option<real>, labels: string, value: real) {
    exists s :: Metric(s) in items && s.name == REQUESTS && s.labels == labels && number(s.value) == Some(value)
  }

  /** The same for two rendered expositions: a counter of the first is in the second with no
      smaller value, and the others of the second are not negative. */
  ghost predicate GrownItems(before: seq<Item>, after: seq<Item>, number: string -> Option<real>) {
    && (forall labels, x :: Counts(before, number, labels, x) ==> exists y :: Counts(after, number, labels, y) && x <= y)
    && forall labels, y :: Counts(after, number, labels, y) && (forall x :: !Counts(before, number, labels, x)) ==> y >= 0.0
  }

  lemma CountersOfRendered(items: seq<Item>, number: string -> Option<real>, labels: string, value: real)
    requires DistinctKeys(Samples(items)) && forall item :: item in items ==> WellFormedItem(item, number)
    ensures Parse(Render(items), number).Some?
    ensures var m := Counters(Parse(Render(items), number).value);
            labels in m && m[labels] == value <==> Counts(items, number, labels, value)
  {
    RoundTrip(items, number);
    var m := Parse(Render(items), number).value;
    assert Holds(m, REQUESTS, labels, value) <==> labels in Counters(m) && Counters(m)[labels] == value;
  }

  lemma RenderedGrow(before: seq<Item>, after: seq<Item>, number: string -> Option<real>)
    requires DistinctKeys(Samples(before)) && forall item :: item in before ==> WellFormedItem(item, number)
    requires DistinctKeys(Samples(after)) && forall item :: item in after ==> WellFormedItem(item, number)
    requires GrownItems(before, after, number)
    ensures Parse(Render(before), number).Some? && Parse(Render(after), number).Some?
    ensures Grown(Counters(Parse(Render(before), number).value), Counters(Parse(Render(after), number).value))
  {
    RoundTrip(before, number);
    RoundTrip(after, number);
    var b, a := Counters(Parse(Render(before), number).value), Counters(Parse(Render(after), number).value);
    forall k | k in b ensures k in a && b[k] <= a[k] {
      CountersOfRendered(before, number, k, b[k]);
      var y :| Counts(after, number, k, y) && b[k] <= y;
      CountersOfRendered(after, number, k, y);
    }
    forall k | k in a && k !in b ensures a[k] >= 0.0 {
      CountersOfRendered(after, number, k, a[k]);
      forall x ensures !Counts(before, number, k, x) {
        CountersOfRendered(before, number, k, x);
      }
    }
  }

  lemma CountersGiveFractions(before: seq<Item>, after: seq<Item>, number: string -> Option<real>, service: string, window: real)
    requires DistinctKeys(Samples(before)) && forall item :: item in before ==> WellFormedItem(item, number)
    requires DistinctKeys(Samples(after)) && forall item :: item in after ==> WellFormedItem(item, number)
    requires GrownItems(before, after, number) && window > 0.0
    ensures var b, a := Parse(Render(before), number), Parse(Render(after), number);
            b.Some? && a.Some? && Metrics.FractionOfRequests(Extracted(b.value, service), Extracted(a.value, service), window)
  {
    RenderedGrow(before, after, number);
    ScrapesGiveFractions(Render(before), Render(after), number, service, window);
  }
}
