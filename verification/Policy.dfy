/** The scaling policy: streaks, cooldown and replica bounds. */
module Policy {
  import opened Options
  import opened Windows

  datatype Settings = Settings(
    scaleUpRps: real, scaleDownRps: real, errorRateThreshold: real,
    sustainUp: int, sustainDown: int, cooldown: int,
    minReplicas: int, maxReplicas: int)

  datatype Action = Hold | ScaleUp | ScaleDown

  datatype Obs = Obs(now: int, replicas: int, rps: real, errorRate: real)

  /** The fields of a `PolicyState`. */
  datatype Streaks = Streaks(up: nat, down: nat, lastActionAt: int)

  predicate Hot(s: Settings, o: Obs) {
    o.rps > s.scaleUpRps || o.errorRate > s.errorRateThreshold
  }

  function Decide(s: Settings, st: Streaks, o: Obs): (Streaks, Action) {
    if s.cooldown - (o.now - st.lastActionAt) > 0 then (st, Hold)
    else if Hot(s, o) then
      if o.replicas >= s.maxReplicas then (st.(up := 0, down := 0), Hold)
      else if st.up + 1 >= s.sustainUp then (Streaks(0, 0, o.now), ScaleUp)
      else (st.(up := st.up + 1, down := 0), Hold)
    else if o.rps < s.scaleDownRps then
      if o.replicas <= s.minReplicas then (st.(up := 0, down := 0), Hold)
      else if st.down + 1 >= s.sustainDown then (Streaks(0, 0, o.now), ScaleDown)
      else (st.(down := st.down + 1, up := 0), Hold)
    else (st.(up := 0, down := 0), Hold)
  }

  class PolicyState {
    var upStreak: nat
    var downStreak: nat
    var lastActionAt: int

    function Value(): Streaks
      reads this
    {
      Streaks(upStreak, downStreak, lastActionAt)
    }

    constructor ()
      ensures Value() == Streaks(0, 0, 0)
    {
      upStreak, downStreak, lastActionAt := 0, 0, 0;
    }

    method Reset()
      modifies this
      ensures Value() == old(Value()).(up := 0, down := 0)
    {
      upStreak := 0;
      downStreak := 0;
    }

    method DecideOn(s: Settings, o: Obs) returns (action: Action)
      modifies this
      ensures (Value(), action) == Decide(s, old(Value()), o)
    {
      var cooldownLeft := s.cooldown - (o.now - lastActionAt);
      if cooldownLeft > 0 {
        return Hold;
      }
      if o.rps > s.scaleUpRps || o.errorRate > s.errorRateThreshold {
        downStreak := 0;
        if o.replicas >= s.maxReplicas {
          upStreak := 0;
          return Hold;
        }
        upStreak := upStreak + 1;
        if upStreak >= s.sustainUp {
          upStreak := 0;
          lastActionAt := o.now;
          return ScaleUp;
        }
        return Hold;
      }
      if o.rps < s.scaleDownRps {
        upStreak := 0;
        if o.replicas <= s.minReplicas {
          downStreak := 0;
          return Hold;
        }
        downStreak := downStreak + 1;
        if downStreak >= s.sustainDown {
          downStreak := 0;
          lastActionAt := o.now;
          return ScaleDown;
        }
        return Hold;
      }
      Reset();
      return Hold;
    }
  }

  // ---------------------------------------------------------------- runs of the policy

  function StateAfter(s: Settings, obs: seq<Obs>): Streaks {
    if obs == [] then Streaks(0, 0, 0)
    else Decide(s, StateAfter(s, obs[..|obs| - 1]), obs[|obs| - 1]).0
  }

  function ActionAt(s: Settings, obs: seq<Obs>, k: nat): Action
    requires k < |obs|
  {
    Decide(s, StateAfter(s, obs[..k]), obs[k]).1
  }

  ghost predicate Clocked(obs: seq<Obs>) {
    forall i, j :: 0 <= i <= j < |obs| ==> obs[i].now <= obs[j].now
  }

  // ---------------------------------------------------------------- reading the state off the observations

  /** A history pairs what was observed with what was decided. */
  datatype Tick = Tick(obs: Obs, action: Action)

  function Ticks(s: Settings, obs: seq<Obs>): (r: seq<Tick>)
    ensures |r| == |obs|
  {
    if obs == [] then []
    else Ticks(s, obs[..|obs| - 1]) + [Tick(obs[|obs| - 1], ActionAt(s, obs, |obs| - 1))]
  }

  function LastAction(h: seq<Tick>): int {
    if h == [] then 0
    else if h[|h| - 1].action != Hold then h[|h| - 1].obs.now
    else LastAction(h[..|h| - 1])
  }

  predicate Cooling(s: Settings, h: seq<Tick>, now: int) {
    now - LastAction(h) < s.cooldown
  }

  predicate HotBelowMax(s: Settings, o: Obs) {
    (o.rps > s.scaleUpRps || o.errorRate > s.errorRateThreshold) && o.replicas < s.maxReplicas
  }

  predicate IdleAboveMin(s: Settings, o: Obs) {
    o.rps <= s.scaleUpRps && o.errorRate <= s.errorRateThreshold && o.rps < s.scaleDownRps && o.replicas > s.minReplicas
  }

  /** Length of the trailing run of hot samples below the maximum since the last action,
      outside the cooldown. */
  function HotRun(s: Settings, h: seq<Tick>): nat {
    if h == [] then 0
    else
      var last, before := h[|h| - 1], h[..|h| - 1];
      if last.action == Hold && HotBelowMax(s, last.obs) && !Cooling(s, before, last.obs.now) then HotRun(s, before) + 1 else 0
  }

  function IdleRun(s: Settings, h: seq<Tick>): nat {
    if h == [] then 0
    else
      var last, before := h[|h| - 1], h[..|h| - 1];
      if last.action == Hold && IdleAboveMin(s, last.obs) && !Cooling(s, before, last.obs.now) then IdleRun(s, before) + 1 else 0
  }

  lemma TicksExtend(s: Settings, obs: seq<Obs>)
    requires obs != []
    ensures var before := obs[..|obs| - 1];
            && Ticks(s, obs)[..|obs| - 1] == Ticks(s, before)
            && Ticks(s, obs)[|obs| - 1] == Tick(obs[|obs| - 1], Decide(s, StateAfter(s, before), obs[|obs| - 1]).1)
  {
  }

  /** The fields of the policy state are the run lengths of the history; they are both zero
      while a cooldown lasts and never both nonzero. */
  lemma {:induction false} StateRefinesHistory(s: Settings, obs: seq<Obs>)
    requires Clocked(obs)
    ensures var st, h := StateAfter(s, obs), Ticks(s, obs);
            && st.lastActionAt == LastAction(h)
            && st.up == HotRun(s, h)
            && st.down == IdleRun(s, h)
            && (st.up == 0 || st.down == 0)
            && (forall now :: Cooling(s, h, now) && (obs != [] ==> obs[|obs| - 1].now <= now) ==> st.up == 0 && st.down == 0)
  {
    if obs != [] {
      StateRefinesHistory(s, obs[..|obs| - 1]);
      TicksExtend(s, obs);
    }
  }

  /** An action fires exactly when its run of samples reaches the sustain count. */
  lemma ActionsFireOnSustainedRuns(s: Settings, obs: seq<Obs>, k: nat)
    requires Clocked(obs) && k < |obs|
    ensures var h, o := Ticks(s, obs[..k]), obs[k];
            && (ActionAt(s, obs, k) == ScaleUp <==>
                  !Cooling(s, h, o.now) && HotBelowMax(s, o) && HotRun(s, h) + 1 >= s.sustainUp)
            && (ActionAt(s, obs, k) == ScaleDown <==>
                  !Cooling(s, h, o.now) && IdleAboveMin(s, o) && IdleRun(s, h) + 1 >= s.sustainDown)
  {
    StateRefinesHistory(s, obs[..k]);
  }

  /** With the cooldown over, replicas below the maximum and the run complete, one more sample
      scales up if and only if its request rate or its error rate is too high, whichever; an
      idle one scales down if and only if neither is and the request rate is low. */
  lemma EitherExcessScalesUp(s: Settings, obs: seq<Obs>, k: nat)
    requires Clocked(obs) && k < |obs|
    ensures var h, o := Ticks(s, obs[..k]), obs[k];
            o.now - LastAction(h) >= s.cooldown ==>
              && (o.replicas < s.maxReplicas && HotRun(s, h) + 1 >= s.sustainUp ==>
                    (ActionAt(s, obs, k) == ScaleUp <==> o.rps > s.scaleUpRps || o.errorRate > s.errorRateThreshold))
              && (o.replicas > s.minReplicas && IdleRun(s, h) + 1 >= s.sustainDown ==>
                    (ActionAt(s, obs, k) == ScaleDown <==>
                       o.rps <= s.scaleUpRps && o.errorRate <= s.errorRateThreshold && o.rps < s.scaleDownRps))
  {
    ActionsFireOnSustainedRuns(s, obs, k);
  }

  // ---------------------------------------------------------------- spacing of actions

  function ActionTimes(h: seq<Tick>): seq<int> {
    if h == [] then []
    else ActionTimes(h[..|h| - 1]) + if h[|h| - 1].action != Hold then [h[|h| - 1].obs.now] else []
  }

  lemma {:induction false} ActionsAreSpaced(s: Settings, obs: seq<Obs>)
    requires Clocked(obs)
    ensures var times := ActionTimes(Ticks(s, obs));
            && (times != [] ==> times[|times| - 1] == LastAction(Ticks(s, obs)))
            && (obs != [] ==> forall i :: 0 <= i < |times| ==> times[i] <= obs[|obs| - 1].now)
            && (forall i, j :: 0 <= i < j < |times| ==> times[i] <= times[j])
            && (forall i :: 0 <= i < |times| - 1 ==> times[i] + s.cooldown <= times[i + 1])
  {
    if obs != [] {
      var before := obs[..|obs| - 1];
      ActionsAreSpaced(s, before);
      StateRefinesHistory(s, before);
      TicksExtend(s, obs);
    }
  }

  lemma {:induction false} SpacedSpan(times: seq<int>, cooldown: nat, i: nat, j: nat)
    requires forall k :: 0 <= k < |times| - 1 ==> times[k] + cooldown <= times[k + 1]
    requires i <= j < |times|
    ensures (j - i) * cooldown <= times[j] - times[i]
    decreases j
  {
    if i < j {
      SpacedSpan(times, cooldown, i, j - 1);
      assert (j - i) * cooldown == (j - 1 - i) * cooldown + cooldown;
    }
  }

  /** A window of T seconds holds at most T / cooldown + 1 actions. */
  lemma ActionsInWindow(s: Settings, obs: seq<Obs>, from: int, span: nat)
    requires Clocked(obs) && s.cooldown > 0
    ensures CountIn(ActionTimes(Ticks(s, obs)), from, from + span) <= span / s.cooldown + 1
  {
    var times := ActionTimes(Ticks(s, obs));
    ActionsAreSpaced(s, obs);
    if CountIn(times, from, from + span) > 0 {
      var i, j := CountedStretch(times, from, from + span, times[|times| - 1]);
      SpacedSpan(times, s.cooldown, i, j);
      Quotient(j - i, s.cooldown, span);
    } else {
      Quotient(0, s.cooldown, span);
    }
  }
}
