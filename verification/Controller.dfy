/** The scaling controller: scrape, compute rates, decide, apply. */
module Controller {
  import opened Options
  import opened Metrics
  import opened Policy
  import opened Windows

  /** What scraping one target gives: no usable answer, a sample, or a text whose parsing
      raises. */
  datatype Scrape = Skipped | Sampled(sample: Sample) | Malformed

  datatype Setup = Setup(settings: Settings, targets: nat, window: real)

  /** One call of `tick`: its clock, the answer of each target, and whether the scaler
      raises if it is called. */
  datatype Input = Input(now: int, scrape: nat -> Scrape, scalerRaises: bool)

  datatype Counters = Counters(hold: nat, up: nat, down: nat)

  datatype Control = Control(prev: Option<Sample>, streaks: Streaks, replicas: int, decided: Counters)

  function Initially(g: Setup): Control {
    Control(None, Streaks(0, 0, 0), Max(g.targets, g.settings.minReplicas), Counters(0, 0, 0))
  }

  /** Totals over the first `n` targets; nothing if one of them raised. */
  function Totals(scrape: nat -> Scrape, n: nat): Option<Sample> {
    if n == 0 then Some(Sample(0.0, 0.0))
    else
      var t := Totals(scrape, n - 1);
      if t.None? || scrape(n - 1).Malformed? then None
      else if scrape(n - 1).Skipped? then t
      else Some(Sample(t.value.requests + scrape(n - 1).sample.requests, t.value.errors + scrape(n - 1).sample.errors))
  }

  /** What this call observes, unless it returns or raises before deciding. */
  function Observed(g: Setup, k: Control, i: Input): Option<Obs> {
    var t := Totals(i.scrape, g.targets);
    if g.targets == 0 || t.None? then None
    else
      var (rps, rate) := ComputeRps(k.prev, t.value, g.window);
      Some(Obs(i.now, k.replicas, if k.replicas == 0 then 0.0 else rps / (k.replicas as real), rate))
  }

  function Decided(g: Setup, k: Control, i: Input): Action {
    var o := Observed(g, k, i);
    if o.None? then Hold else Decide(g.settings, k.streaks, o.value).1
  }

  function Bump(c: Counters, a: Action): Counters {
    match a
    case Hold => c.(hold := c.hold + 1)
    case ScaleUp => c.(up := c.up + 1)
    case ScaleDown => c.(down := c.down + 1)
  }

  function Target(s: Settings, replicas: int, a: Action): int {
    match a
    case Hold => replicas
    case ScaleUp => if replicas + 1 < s.maxReplicas then replicas + 1 else s.maxReplicas
    case ScaleDown => Max(replicas - 1, s.minReplicas)
  }

  function Ticked(g: Setup, k: Control, i: Input): Control {
    var o := Observed(g, k, i);
    if o.None? then k
    else
      var (st, a) := Decide(g.settings, k.streaks, o.value);
      Control(Totals(i.scrape, g.targets), st,
              if i.scalerRaises then k.replicas else Target(g.settings, k.replicas, a),
              Bump(k.decided, a))
  }

  class ScalingController {
    const setup: Setup
    var prev: Option<Sample>
    const state: PolicyState
    var replicas: int
    var decided: Counters

    ghost function Value(): Control
      reads this, state
    {
      Control(prev, state.Value(), replicas, decided)
    }

    constructor (g: Setup)
      ensures setup == g && fresh(state) && Value() == Initially(g)
      ensures prev == None && state.Value() == Streaks(0, 0, 0) && decided == Counters(0, 0, 0)
      ensures replicas >= g.targets && replicas >= g.settings.minReplicas
      ensures replicas == g.targets || replicas == g.settings.minReplicas
    {
      setup := g;
      prev := None;
      state := new PolicyState();
      replicas := Max(g.targets, g.settings.minReplicas);
      decided := Counters(0, 0, 0);
    }

    method Collect(scrape: nat -> Scrape) returns (totals: Option<Sample>)
      ensures totals == Totals(scrape, setup.targets)
    {
      var requests, errors := 0.0, 0.0;
      for n := 0 to setup.targets
        invariant Totals(scrape, n) == Some(Sample(requests, errors))
      {
        match scrape(n)
        case Skipped => continue;
        case Malformed =>
          MalformedStays(scrape, n + 1, setup.targets);
          return None;
        case Sampled(sample) =>
          requests := requests + sample.requests;
          errors := errors + sample.errors;
      }
      return Some(Sample(requests, errors));
    }

    /** `raised` tells the loop around `tick` to log an exception. */
    method Tick(i: Input) returns (raised: bool)
      modifies this, state
      ensures Value() == Ticked(setup, old(Value()), i)
      ensures raised <==>
                setup.targets > 0 &&
                (Totals(i.scrape, setup.targets).None? || (i.scalerRaises && Decided(setup, old(Value()), i) != Hold))
    {
      if setup.targets == 0 {
        return false;
      }
      var totals := Collect(i.scrape);
      if totals.None? {
        return true;
      }
      var (rps, rate) := ComputeRps(prev, totals.value, setup.window);
      prev := totals;
      var perInstance := if replicas != 0 then rps / (replicas as real) else 0.0;
      var action := state.DecideOn(setup.settings, Obs(i.now, replicas, perInstance, rate));
      decided := Bump(decided, action);
      if action == Hold {
        return false;
      }
      if i.scalerRaises {
        return true;
      }
      if action == ScaleUp {
        replicas := if replicas + 1 < setup.settings.maxReplicas then replicas + 1 else setup.settings.maxReplicas;
      } else {
        replicas := Max(replicas - 1, setup.settings.minReplicas);
      }
      return false;
    }
  }

  lemma {:induction false} MalformedStays(scrape: nat -> Scrape, n: nat, m: nat)
    requires n <= m && Totals(scrape, n).None?
    ensures Totals(scrape, m).None?
    decreases m - n
  {
    if n < m {
      MalformedStays(scrape, n + 1, m);
    }
  }

  // ---------------------------------------------------------------- whole runs

  function After(g: Setup, inputs: seq<Input>): Control {
    if inputs == [] then Initially(g)
    else Ticked(g, After(g, inputs[..|inputs| - 1]), inputs[|inputs| - 1])
  }

  /** The observations that reached the policy. */
  function Observations(g: Setup, inputs: seq<Input>): seq<Obs> {
    if inputs == [] then []
    else
      var before := inputs[..|inputs| - 1];
      var o := Observed(g, After(g, before), inputs[|inputs| - 1]);
      Observations(g, before) + if o.Some? then [o.value] else []
  }

  /** Decisions of one kind that the scaler carried out. */
  function Applied(g: Setup, inputs: seq<Input>, a: Action): nat {
    if inputs == [] then 0
    else
      var before, last := inputs[..|inputs| - 1], inputs[|inputs| - 1];
      Applied(g, before, a) + if Decided(g, After(g, before), last) == a && !last.scalerRaises then 1 else 0
  }

  function Taken(h: seq<Tick>, a: Action): nat {
    if h == [] then 0 else Taken(h[..|h| - 1], a) + if h[|h| - 1].action == a then 1 else 0
  }

  /** The state and the decision counters are those of the policy on these observations. */
  ghost predicate RunsPolicy(g: Setup, k: Control, obs: seq<Obs>) {
    && k.streaks == StateAfter(g.settings, obs)
    && var h := Ticks(g.settings, obs);
       k.decided == Counters(Taken(h, Hold), Taken(h, ScaleUp), Taken(h, ScaleDown))
  }

  lemma ObservationDecides(g: Setup, k: Control, i: Input, before: seq<Obs>, o: Obs, obs: seq<Obs>)
    requires RunsPolicy(g, k, before) && Observed(g, k, i) == Some(o) && obs == before + [o]
    ensures RunsPolicy(g, Ticked(g, k, i), obs)
  {
    assert obs[..|obs| - 1] == before;
    TicksExtend(g.settings, obs);
  }

  /** Scrapes, raised errors and idle calls aside, the controller runs the policy. */
  lemma {:induction false} ControllerRunsPolicy(g: Setup, inputs: seq<Input>)
    ensures RunsPolicy(g, After(g, inputs), Observations(g, inputs))
  {
    if inputs != [] {
      var n := |inputs| - 1;
      var k, before := After(g, inputs[..n]), Observations(g, inputs[..n]);
      ControllerRunsPolicy(g, inputs[..n]);
      var o := Observed(g, k, inputs[n]);
      if o.Some? {
        ObservationDecides(g, k, inputs[n], before, o.value, Observations(g, inputs));
      } else {
        assert Observations(g, inputs) == before;
      }
    }
  }

  ghost predicate InOrder(inputs: seq<Input>) {
    forall i, j :: 0 <= i <= j < |inputs| ==> inputs[i].now <= inputs[j].now
  }

  lemma {:induction false} ObservationsInOrder(g: Setup, inputs: seq<Input>)
    requires InOrder(inputs)
    ensures Clocked(Observations(g, inputs))
    ensures inputs != [] ==> forall i :: 0 <= i < |Observations(g, inputs)| ==> Observations(g, inputs)[i].now <= inputs[|inputs| - 1].now
  {
    if inputs != [] {
      ObservationsInOrder(g, inputs[..|inputs| - 1]);
    }
  }

  /** The replica count is what it started with plus what was really scaled, also when the
      scaler raises, and keeps the hard bounds. */
  lemma {:induction false} ReplicasAreConserved(g: Setup, inputs: seq<Input>)
    ensures var r := After(g, inputs).replicas;
            && r == Initially(g).replicas + Applied(g, inputs, ScaleUp) - Applied(g, inputs, ScaleDown)
            && r >= g.settings.minReplicas
            && r <= Max(Initially(g).replicas, g.settings.maxReplicas)
    ensures inputs != [] ==>
              var r0, r := After(g, inputs[..|inputs| - 1]).replicas, After(g, inputs).replicas;
              && r0 - 1 <= r <= r0 + 1
              && (r0 <= g.settings.maxReplicas ==> r <= g.settings.maxReplicas)
              && (r0 >= g.settings.maxReplicas ==> r <= r0)
  {
    if inputs != [] {
      ReplicasAreConserved(g, inputs[..|inputs| - 1]);
    }
  }

  /** On a monotone clock the scaler is called at most T / cooldown + 1 times in any window
      of T seconds. */
  lemma ScalingIsDamped(g: Setup, inputs: seq<Input>, from: int, span: nat)
    requires g.settings.cooldown > 0
    requires InOrder(inputs)
    ensures CountIn(ActionTimes(Ticks(g.settings, Observations(g, inputs))), from, from + span) <= span / g.settings.cooldown + 1
  {
    ObservationsInOrder(g, inputs);
    ActionsInWindow(g.settings, Observations(g, inputs), from, span);
  }

  /** The requests an observation stands for: per-instance rate times instances times window. */
  function Told(o: Obs, window: real): real {
    o.rps * (o.replicas as real) * window
  }

  /** The requests the policy was told about. */
  function ToldRequests(g: Setup, inputs: seq<Input>): real {
    if inputs == [] then 0.0
    else
      var before := inputs[..|inputs| - 1];
      var o := Observed(g, After(g, before), inputs[|inputs| - 1]);
      ToldRequests(g, before) + if o.Some? then Told(o.value, g.window) else 0.0
  }

  ghost predicate Scraped(g: Setup, inputs: seq<Input>) {
    && (forall k :: 0 <= k < |inputs| ==> Totals(inputs[k].scrape, g.targets).Some?)
    && forall k :: 0 <= k < |inputs| - 1 ==>
         Totals(inputs[k].scrape, g.targets).value.requests <= Totals(inputs[k + 1].scrape, g.targets).value.requests
  }

  lemma RateTimesWindow(total: real, n: int, window: real)
    requires n > 0 && window > 0.0
    ensures total / window / (n as real) * (n as real) * window == total
  {
    assert total / window / (n as real) * (n as real) == total / window;
    assert total / window * window == total;
  }

  lemma ToldOnce(g: Setup, k: Control, i: Input)
    requires g.targets > 0 && g.window > 0.0 && k.replicas > 0 && k.prev.Some?
    requires Totals(i.scrape, g.targets).Some? && k.prev.value.requests <= Totals(i.scrape, g.targets).value.requests
    ensures var o := Observed(g, k, i);
            o.Some? && Told(o.value, g.window) == Totals(i.scrape, g.targets).value.requests - k.prev.value.requests
  {
    RateTimesWindow(Totals(i.scrape, g.targets).value.requests - k.prev.value.requests, k.replicas, g.window);
  }

  /** While counters only grow and every scrape succeeds, the rates shown to the policy
      account for every request between the first and the last sample. */
  lemma {:induction false} ToldEveryRequest(g: Setup, inputs: seq<Input>)
    requires inputs != [] && Scraped(g, inputs) && g.targets > 0 && g.window > 0.0 && g.settings.minReplicas > 0
    ensures After(g, inputs).prev == Totals(inputs[|inputs| - 1].scrape, g.targets)
    ensures ToldRequests(g, inputs)
            == Totals(inputs[|inputs| - 1].scrape, g.targets).value.requests - Totals(inputs[0].scrape, g.targets).value.requests
  {
    var n := |inputs| - 1;
    var before := inputs[..n];
    var k := After(g, before);
    ReplicasAreConserved(g, before);
    if n > 0 {
      ToldEveryRequest(g, before);
      assert before[n - 1] == inputs[n - 1];
      assert Totals(inputs[n - 1].scrape, g.targets).value.requests <= Totals(inputs[n - 1 + 1].scrape, g.targets).value.requests;
      ToldOnce(g, k, inputs[n]);
    } else {
      FirstTellsNothing(g, k, inputs[n]);
    }
  }

  lemma FirstTellsNothing(g: Setup, k: Control, i: Input)
    requires k.prev.None?
    ensures var o := Observed(g, k, i); o.Some? ==> Told(o.value, g.window) == 0.0
  {
  }

  // ---------------------------------------------------------------- what is observed

  /** There are totals unless some text could not be parsed; they are 0 if no target answered. */
  lemma {:induction false} TotalsFail(scrape: nat -> Scrape, n: nat)
    ensures Totals(scrape, n).None? <==> exists j: nat :: j < n && scrape(j) == Malformed
    ensures (forall j: nat :: j < n ==> scrape(j) == Skipped) ==> Totals(scrape, n) == Some(Sample(0.0, 0.0))
  {
    if n > 0 {
      TotalsFail(scrape, n - 1);
    }
  }

  lemma {:induction false} TotalsAgree(scrape: nat -> Scrape, scrape': nat -> Scrape, n: nat)
    requires forall k: nat :: k < n ==> scrape'(k) == scrape(k)
    ensures Totals(scrape', n) == Totals(scrape, n)
  {
    if n > 0 {
      TotalsAgree(scrape, scrape', n - 1);
    }
  }

  /** A target that answers, at whatever place, adds its sample. */
  lemma {:induction false} TargetAddsSample(scrape: nat -> Scrape, scrape': nat -> Scrape, n: nat, j: nat, sample: Sample)
    requires j < n && scrape(j) == Skipped && scrape'(j) == Sampled(sample)
    requires forall k: nat :: k < n && k != j ==> scrape'(k) == scrape(k)
    ensures Totals(scrape, n).None? <==> Totals(scrape', n).None?
    ensures Totals(scrape, n).Some? ==>
              var t, t' := Totals(scrape, n).value, Totals(scrape', n).value;
              t'.requests == t.requests + sample.requests && t'.errors == t.errors + sample.errors
  {
    if j == n - 1 {
      TotalsAgree(scrape, scrape', n - 1);
    } else {
      TargetAddsSample(scrape, scrape', n - 1, j, sample);
    }
  }

  /** Tick `k` is the last of the run that got totals. */
  ghost predicate LastTotalsAt(g: Setup, inputs: seq<Input>, k: nat) {
    && k < |inputs| && g.targets > 0 && Totals(inputs[k].scrape, g.targets).Some?
    && forall j :: k < j < |inputs| ==> Totals(inputs[j].scrape, g.targets).None?
  }

  /** The totals the next tick compares with, in terms of what was scraped. */
  ghost predicate Previous(g: Setup, inputs: seq<Input>, prev: Option<Sample>) {
    || (exists k: nat :: LastTotalsAt(g, inputs, k) && prev == Totals(inputs[k].scrape, g.targets))
    || ((g.targets == 0 || forall k :: 0 <= k < |inputs| ==> Totals(inputs[k].scrape, g.targets).None?) && prev == None)
  }

  lemma PreviousKept(g: Setup, before: seq<Input>, last: Input, prev: Option<Sample>)
    requires Previous(g, before, prev) && (g.targets == 0 || Totals(last.scrape, g.targets).None?)
    ensures Previous(g, before + [last], prev)
  {
    var inputs := before + [last];
    assert forall j :: 0 <= j < |before| ==> inputs[j] == before[j];
    if k: nat :| LastTotalsAt(g, before, k) && prev == Totals(before[k].scrape, g.targets) {
      assert LastTotalsAt(g, inputs, k);
    }
  }

  lemma {:induction false} PrevIsPrevious(g: Setup, inputs: seq<Input>)
    ensures Previous(g, inputs, After(g, inputs).prev)
  {
    if inputs != [] {
      var n := |inputs| - 1;
      PrevIsPrevious(g, inputs[..n]);
      if g.targets > 0 && Totals(inputs[n].scrape, g.targets).Some? {
        assert LastTotalsAt(g, inputs, n);
      } else {
        assert inputs == inputs[..n] + [inputs[n]];
        PreviousKept(g, inputs[..n], inputs[n], After(g, inputs[..n]).prev);
      }
    }
  }

  /** The rates since `prev`, the request rate per instance. */
  ghost predicate ShowsRates(o: Obs, prev: Option<Sample>, curr: Sample, window: real) {
    && IsErrorRate(prev, curr, window, o.errorRate)
    && if o.replicas == 0 then o.rps == 0.0 else IsRequestRate(prev, curr, window, o.rps * (o.replicas as real))
  }

  lemma ObservedShowsRates(g: Setup, k: Control, i: Input, curr: Sample)
    requires g.targets > 0 && Totals(i.scrape, g.targets) == Some(curr)
    ensures var o := Observed(g, k, i);
            o.Some? && o.value.now == i.now && o.value.replicas == k.replicas && ShowsRates(o.value, k.prev, curr, g.window)
  {
    var (rps, rate) := ComputeRps(k.prev, curr, g.window);
    RatesAreExact(k.prev, curr, g.window, rps, rate);
    if k.replicas != 0 {
      Divided(rps, k.replicas as real);
    }
  }

  lemma Divided(x: real, d: real)
    requires d != 0.0
    ensures x / d * d == x
  {
  }

  /** What a tick shows the policy, over any run: nothing, and no change of state, if there are
      no targets or a text cannot be parsed; otherwise its clock, the replicas, and the rates
      since the last tick that got totals. */
  lemma TicksShowRates(g: Setup, inputs: seq<Input>, next: Input) returns (prev: Option<Sample>)
    ensures Previous(g, inputs, prev)
    ensures var k, o, curr := After(g, inputs), Observed(g, After(g, inputs), next), Totals(next.scrape, g.targets);
            && (o.None? <==> g.targets == 0 || exists j: nat :: j < g.targets && next.scrape(j) == Malformed)
            && (o.None? ==> After(g, inputs + [next]) == k)
            && (o.Some? ==>
                  && curr.Some? && After(g, inputs + [next]).prev == curr
                  && o.value.now == next.now && o.value.replicas == k.replicas
                  && ShowsRates(o.value, prev, curr.value, g.window))
  {
    prev := After(g, inputs).prev;
    PrevIsPrevious(g, inputs);
    TotalsFail(next.scrape, g.targets);
    assert (inputs + [next])[..|inputs|] == inputs;
    if g.targets > 0 && Totals(next.scrape, g.targets).Some? {
      ObservedShowsRates(g, After(g, inputs), next, Totals(next.scrape, g.targets).value);
    }
  }

  lemma NothingNewShowsZero(o: Obs, prev: Option<Sample>, curr: Sample, window: real)
    requires ShowsRates(o, prev, curr, window) && !HasNew(prev, curr, window)
    ensures o.rps == 0.0 && o.errorRate == 0.0
  {
    if o.replicas != 0 {
      ZeroFactor(o.rps, o.replicas as real);
    }
  }

  /** An idle tick, one without earlier totals and one with smaller totals show no requests and
      no errors. */
  lemma NoNewRequestsNoRates(g: Setup, inputs: seq<Input>, next: Input) returns (prev: Option<Sample>)
    ensures Previous(g, inputs, prev)
    ensures var o, curr := Observed(g, After(g, inputs), next), Totals(next.scrape, g.targets);
            o.Some? ==>
              && curr.Some?
              && (prev == None || curr.value.requests <= prev.value.requests || g.window <= 0.0 ==>
                    o.value.rps == 0.0 && o.value.errorRate == 0.0)
  {
    prev := TicksShowRates(g, inputs, next);
    var o, curr := Observed(g, After(g, inputs), next), Totals(next.scrape, g.targets);
    if o.Some? && !HasNew(prev, curr.value, g.window) {
      NothingNewShowsZero(o.value, prev, curr.value, g.window);
    }
  }

  lemma ZeroFactor(a: real, b: real)
    requires a * b == 0.0 && b != 0.0
    ensures a == 0.0
  {
  }

  // ---------------------------------------------------------------- the observed error rate

  /** The totals of the last tick that got any, seen from the next one. */
  lemma PrevIsLast(g: Setup, inputs: seq<Input>)
    requires inputs != [] && g.targets > 0 && Totals(inputs[|inputs| - 1].scrape, g.targets).Some?
    ensures After(g, inputs).prev == Totals(inputs[|inputs| - 1].scrape, g.targets)
  {
  }

  lemma ObservesTheRate(g: Setup, k: Control, i: Input, prev: Sample, curr: Sample)
    requires g.targets > 0 && k.prev == Some(prev) && Totals(i.scrape, g.targets) == Some(curr)
    ensures var o := Observed(g, k, i); o.Some? && o.value.errorRate == ComputeRps(Some(prev), curr, g.window).1
  {
  }

  /** A tick observes a negative error rate exactly when its totals gained requests and lost
      errors since the previous ones. */
  lemma WhenObservedRateIsNegative(g: Setup, k: Control, i: Input)
    requires g.targets > 0 && Totals(i.scrape, g.targets).Some?
    ensures var o, curr := Observed(g, k, i), Totals(i.scrape, g.targets).value;
            && o.Some?
            && (o.value.errorRate < 0.0 <==>
                  && k.prev.Some? && g.window > 0.0
                  && curr.requests > k.prev.value.requests && curr.errors < k.prev.value.errors)
  {
    if k.prev.Some? {
      RatesAreRates(k.prev.value, Totals(i.scrape, g.targets).value, g.window);
    }
  }

  lemma TwoTotals(a: Scrape, b: Scrape, scrape: nat -> Scrape)
    requires scrape(0) == a && scrape(1) == b && !a.Malformed? && b.Sampled?
    ensures Totals(scrape, 2)
            == if a.Skipped? then Some(Sample(0.0 + b.sample.requests, 0.0 + b.sample.errors))
               else Some(Sample(0.0 + a.sample.requests + b.sample.requests, 0.0 + a.sample.errors + b.sample.errors))
  {
    assert Totals(scrape, 0) == Some(Sample(0.0, 0.0));
    assert Totals(scrape, 1) == if a.Skipped? then Some(Sample(0.0, 0.0)) else Some(Sample(0.0 + a.sample.requests, 0.0 + a.sample.errors));
  }

  /** Two ticks over two targets, the first of which does not answer the second time: the
      policy is shown an error rate of minus one half. */
  lemma NegativeRateIsObserved(settings: Settings) returns (g: Setup, first: Input, second: Input)
    ensures var o := Observed(g, After(g, [first]), second); o.Some? && o.value.errorRate == -0.5
  {
    g := Setup(settings, 2, 10.0);
    var a, b, later := Sampled(Sample(8.0, 5.0)), Sampled(Sample(2.0, 0.0)), Sampled(Sample(20.0, 0.0));
    first := Input(0, n => if n == 0 then a else b, false);
    second := Input(10, n => if n == 0 then Skipped else later, false);
    TwoTotals(a, b, first.scrape);
    TwoTotals(Skipped, later, second.scrape);
    PrevIsLast(g, [first]);
    assert After(g, [first]).prev == Some(Sample(10.0, 5.0));
    RateCanBeNegative();
  }
}
