/** Requests and background probes in flight at the same time.  Each waits for its reply
    while others record theirs; the pool is refreshed only while nothing is in flight. */
module InFlight {
  import opened Options
  import opened Balancer
  import Traffic
  import opened HealthHistory

  /** A request waits for the last upstream it tried, with `left` attempts to go. */
  datatype Phase = Idle | Waiting(tried: seq<Url>, left: nat)

  /** The probe loop is at a position of the pool, and may wait for a reply there. */
  datatype Prober = Prober(at: nat, waiting: bool)

  datatype Flight = Flight(pool: Pool, requests: seq<Phase>, prober: Prober)

  datatype Step =
    | Begin(r: nat, now: nat -> int)
    | Answered(r: nat, reply: Reply, at: int, now: nat -> int)
    | Look
    | ProbeAnswered(reply: Reply, at: int)
    | Refresh(urls: seq<Url>)

  ghost predicate Valid(f: Flight) {
    && Wf(f.pool)
    && (forall r :: 0 <= r < |f.requests| && f.requests[r].Waiting? ==>
          f.requests[r].tried != [] && f.requests[r].tried[|f.requests[r].tried| - 1] in f.pool.states)
    && f.prober.at <= |f.pool.urls| && (f.prober.waiting ==> f.prober.at < |f.pool.urls|)
  }

  predicate Quiet(f: Flight) {
    f.prober == Prober(0, false) && forall r :: 0 <= r < |f.requests| ==> f.requests[r].Idle?
  }

  predicate Enabled(f: Flight, step: Step) {
    match step
    case Begin(r, now) => r < |f.requests| && f.requests[r].Idle?
    case Answered(r, reply, at, now) => r < |f.requests| && f.requests[r].Waiting?
    case Look => !f.prober.waiting
    case ProbeAnswered(reply, at) => f.prober.waiting
    case Refresh(urls) => Quiet(f)
  }

  /** The loop of a request up to its next wait, or to its end. */
  function Scanned(p: Pool, c: Config, tried: seq<Url>, left: nat, now: nat -> int): (r: (Pool, Phase))
    requires InRange(p)
    ensures InRange(r.0) && r.0.urls == p.urls && r.0.states == p.states
    ensures r.1.Waiting? ==> r.1.tried != [] && r.1.tried[|r.1.tried| - 1] in p.states
  {
    if left == 0 then (p, Idle)
    else
      var (next, q) := Next(p, now, c);
      if next.None? || next.value in tried then (q, Idle)
      else (q, Waiting(tried + [next.value], left - 1))
  }

  function Current(f: Flight, r: nat): Url
    requires r < |f.requests| && f.requests[r].Waiting? && f.requests[r].tried != []
  {
    f.requests[r].tried[|f.requests[r].tried| - 1]
  }

  function UnderProbe(f: Flight): Url
    requires f.prober.at < |f.pool.urls|
  {
    f.pool.urls[f.prober.at]
  }

  ghost function Do(f: Flight, c: Config, step: Step): (g: Flight)
    requires Valid(f) && Enabled(f, step)
    ensures Valid(g)
  {
    match step
    case Begin(r, now) =>
      var (q, phase) := Scanned(f.pool, c, [], |f.pool.urls|, now);
      f.(pool := q, requests := f.requests[r := phase])
    case Answered(r, reply, at, now) =>
      var u := Current(f, r);
      if Good(reply) then f.(pool := Recorded(f.pool, u, FRESH), requests := f.requests[r := Idle])
      else
        var p := Recorded(f.pool, u, AfterFailure(f.pool.states[u], at, c));
        var (q, phase) := Scanned(p, c, f.requests[r].tried, f.requests[r].left, now);
        f.(pool := q, requests := f.requests[r := phase])
    case Look =>
      if f.prober.at == |f.pool.urls| then f.(prober := Prober(0, false))
      else if f.pool.states[UnderProbe(f)].healthy then f.(prober := Prober(f.prober.at + 1, false))
      else f.(prober := Prober(f.prober.at, true))
    case ProbeAnswered(reply, at) =>
      var u := UnderProbe(f);
      var h := f.pool.states[u];
      var h' := match reply
        case Status(code) => if code < 500 then FRESH else h
        case TransportError => h.(downSince := Some(at));
      Flight(Recorded(f.pool, u, h'), f.requests, Prober(f.prober.at + 1, false))
    case Refresh(urls) => f.(pool := Refreshed(f.pool, urls))
  }

  /** What a step records. */
  ghost function EventOf(f: Flight, step: Step): seq<PoolEvent>
    requires Valid(f) && Enabled(f, step)
  {
    match step
    case Begin(_, _) => []
    case Answered(r, reply, at, _) => [Note(Current(f, r), AttemptEvent(reply, at))]
    case Look => []
    case ProbeAnswered(reply, at) =>
      if reply.Status? && reply.code < 500 then [Note(UnderProbe(f), Succeeded)]
      else if reply.TransportError? then [Note(UnderProbe(f), ProbeLost(at))] else []
    case Refresh(urls) => [Renew(urls)]
  }

  ghost function Take(f: Flight, c: Config, step: Step): (g: Flight)
    requires Valid(f)
    ensures Valid(g)
  {
    if Enabled(f, step) then Do(f, c, step) else f
  }

  /** Any schedule; a step that is not enabled is not taken. */
  ghost function After(f: Flight, c: Config, steps: seq<Step>): (g: Flight)
    requires Valid(f)
    ensures Valid(g)
  {
    if steps == [] then f else Take(After(f, c, steps[..|steps| - 1]), c, steps[|steps| - 1])
  }

  ghost function LogAfter(f: Flight, c: Config, steps: seq<Step>): seq<PoolEvent>
    requires Valid(f)
  {
    if steps == [] then []
    else
      var g := After(f, c, steps[..|steps| - 1]);
      LogAfter(f, c, steps[..|steps| - 1])
      + if Enabled(g, steps[|steps| - 1]) then EventOf(g, steps[|steps| - 1]) else []
  }

  // ---------------------------------------------------------------- records under interleaving

  lemma CursorIsNotLogged(start: Pool, log: seq<PoolEvent>, c: Config, p: Pool, q: Pool)
    requires Wf(start) && Logged(start, log, c, p) && q.urls == p.urls && q.states == p.states
    ensures Logged(start, log, c, q)
  {
  }

  lemma StepIsLogged(start: Pool, log: seq<PoolEvent>, c: Config, f: Flight, step: Step, log': seq<PoolEvent>, g: Flight)
    requires Wf(start) && Valid(f) && Enabled(f, step) && Logged(start, log, c, f.pool)
    requires g == Do(f, c, step) && log' == log + EventOf(f, step)
    ensures Logged(start, log', c, g.pool)
  {
    assert log + [] == log;
    match step
    case Begin(r, now) => CursorIsNotLogged(start, log, c, f.pool, g.pool);
    case Answered(r, reply, at, now) =>
      var u := Current(f, r);
      var e := if Good(reply) then Succeeded else FailedAt(at);
      var p := Recorded(f.pool, u, Apply(f.pool.states[u], e, c));
      NoteIsLogged(start, log, c, f.pool, u, e);
      CursorIsNotLogged(start, log', c, p, g.pool);
    case Look =>
    case ProbeAnswered(reply, at) =>
      var u := UnderProbe(f);
      if Good(reply) {
        NoteIsLogged(start, log, c, f.pool, u, Succeeded);
      } else if reply.TransportError? {
        NoteIsLogged(start, log, c, f.pool, u, ProbeLost(at));
      } else {
        assert f.pool.states[u := f.pool.states[u]] == f.pool.states;
      }
    case Refresh(urls) => assert log'[..|log|] == log;
  }

  lemma {:induction false} FlightIsLogged(f: Flight, c: Config, steps: seq<Step>, log: seq<PoolEvent>, g: Flight)
    requires Valid(f) && log == LogAfter(f, c, steps) && g == After(f, c, steps)
    ensures Logged(f.pool, log, c, g.pool)
  {
    if steps != [] {
      var before, last := steps[..|steps| - 1], steps[|steps| - 1];
      var log0, g0 := LogAfter(f, c, before), After(f, c, before);
      FlightIsLogged(f, c, before, log0, g0);
      if Enabled(g0, last) {
        StepIsLogged(f.pool, log0, c, g0, last, log, g);
      } else {
        assert log == log0;
      }
    }
  }

  ghost predicate Fresh(f: Flight) {
    Valid(f) && AllFresh(f.pool) && Quiet(f)
  }

  /** However replies of requests and probes are interleaved, a pooled url's record is the
      summary of what was recorded for it since it joined: `fails` counts the failures since
      its last success, it is healthy exactly below the threshold, and unhealthy implies a
      down time. */
  lemma HealthInFlight(f: Flight, c: Config, steps: seq<Step>, u: Url)
    requires Fresh(f) && u in After(f, c, steps).pool.urls
    ensures var p, events := After(f, c, steps).pool, SinceJoining(f.pool, LogAfter(f, c, steps), c, u);
            && u in p.states && p.states[u] == Play(events, c)
            && p.states[u].fails == FailsSince(events)
            && (p.states[u].healthy <==> FailsSince(events) < Traffic.Threshold(c))
            && (!p.states[u].healthy ==> p.states[u].downSince.Some?)
  {
    var log, g := LogAfter(f, c, steps), After(f, c, steps);
    FlightIsLogged(f, c, steps, log, g);
    PoolRefinesHistory(f.pool, log, c, u);
    HealthRefinesHistory(SinceJoining(f.pool, log, c, u), c);
  }

  // ---------------------------------------------------------------- the race of a probe and a success

  /** The step records a success for the url. */
  ghost predicate Heals(f: Flight, step: Step, u: Url)
    requires Valid(f)
  {
    Enabled(f, step) && EventOf(f, step) == [Note(u, Succeeded)]
  }

  /** A probe's lost connection is recorded for a url that is healthy by now. */
  ghost predicate Races(f: Flight, step: Step, u: Url)
    requires Valid(f)
  {
    && Enabled(f, step) && step.ProbeAnswered? && step.reply.TransportError?
    && UnderProbe(f) == u && f.pool.states[u].healthy
  }

  ghost predicate HealthyButDown(f: Flight, u: Url) {
    u in f.pool.states && f.pool.states[u].healthy && f.pool.states[u].downSince.Some?
  }

  /** The step neither heals the url nor takes it out of the pool. */
  ghost predicate Leaves(f: Flight, c: Config, step: Step, u: Url)
    requires Valid(f)
  {
    !Heals(f, step, u) && (Enabled(f, step) ==> u in Do(f, c, step).pool.states)
  }

  /** There was a race, and since then the url was neither healed nor taken out of the pool. */
  ghost predicate Raced(f: Flight, c: Config, steps: seq<Step>, u: Url)
    requires Valid(f)
    decreases |steps|
  {
    steps != [] &&
    var before, last := steps[..|steps| - 1], steps[|steps| - 1];
    Races(After(f, c, before), last, u) || (Raced(f, c, before, u) && Leaves(After(f, c, before), c, last, u))
  }

  /** What one step does to the down time of a healthy record. */
  lemma StepDown(f: Flight, c: Config, step: Step, u: Url)
    requires Valid(f) && Enabled(f, step) && (u in f.pool.states && !f.pool.states[u].healthy ==> f.pool.states[u].downSince.Some?)
    ensures var g := Do(f, c, step);
            && (HealthyButDown(g, u) <==>
                  u in g.pool.states && g.pool.states[u].healthy
                  && (Races(f, step, u) || (HealthyButDown(f, u) && Leaves(f, c, step, u))))
            && (u in g.pool.states && !g.pool.states[u].healthy ==> g.pool.states[u].downSince.Some?)
            && (u in g.pool.states && g.pool.states[u].healthy && !Heals(f, step, u) && u in f.pool.states ==> f.pool.states[u].healthy)
  {
  }

  lemma {:induction false} RacedStays(f: Flight, c: Config, steps: seq<Step>, u: Url)
    requires Valid(f) && Raced(f, c, steps, u)
    ensures u in After(f, c, steps).pool.states
    decreases |steps|
  {
    var before, last := steps[..|steps| - 1], steps[|steps| - 1];
    if !Races(After(f, c, before), last, u) {
      RacedStays(f, c, before, u);
    }
  }

  /** A healthy record has a down time exactly when a lost probe was recorded for it while it
      was healthy, and the url was neither healed nor taken out of the pool since. */
  lemma {:induction false} DownTimeMeansRace(f: Flight, c: Config, steps: seq<Step>, u: Url)
    requires Fresh(f)
    ensures var p := After(f, c, steps).pool;
            && (HealthyButDown(After(f, c, steps), u) <==> u in p.states && p.states[u].healthy && Raced(f, c, steps, u))
            && (u in p.states && !p.states[u].healthy ==> p.states[u].downSince.Some?)
    decreases |steps|
  {
    if steps != [] {
      var before, last := steps[..|steps| - 1], steps[|steps| - 1];
      var g := After(f, c, before);
      DownTimeMeansRace(f, c, before, u);
      if Raced(f, c, before, u) {
        RacedStays(f, c, before, u);
      }
      if Enabled(g, last) {
        StepDown(g, c, last, u);
      }
    }
  }

  /** A success for the url under probe was recorded while this probe has been waiting. */
  ghost predicate HealedMeanwhile(f: Flight, c: Config, steps: seq<Step>)
    requires Valid(f)
    decreases |steps|
  {
    steps != [] &&
    var before, last := steps[..|steps| - 1], steps[|steps| - 1];
    var g := After(f, c, before);
    && g.prober.waiting && After(f, c, steps).prober.waiting
    && (Heals(g, last, UnderProbe(g)) || HealedMeanwhile(f, c, before))
  }

  /** A probe is sent to an upstream that is down, so one that waits for a healthy upstream
      has been overtaken by a success. */
  lemma {:induction false} ProbesAreOvertaken(f: Flight, c: Config, steps: seq<Step>)
    requires Fresh(f)
    ensures var g := After(f, c, steps);
            g.prober.waiting && g.pool.states[UnderProbe(g)].healthy ==> HealedMeanwhile(f, c, steps)
    decreases |steps|
  {
    if steps != [] {
      var before, last := steps[..|steps| - 1], steps[|steps| - 1];
      ProbesAreOvertaken(f, c, before);
      var g := After(f, c, before);
      if Enabled(g, last) && g.prober.waiting {
        StillProbing(g, c, last);
      }
    }
  }

  /** While a probe waits the pool stays, and its url turns healthy only by a success. */
  lemma StillProbing(g: Flight, c: Config, step: Step)
    requires Valid(g) && Enabled(g, step) && g.prober.waiting
    ensures var h := Do(g, c, step);
            h.prober.waiting ==>
              && UnderProbe(h) == UnderProbe(g)
              && (h.pool.states[UnderProbe(h)].healthy ==> g.pool.states[UnderProbe(g)].healthy || Heals(g, step, UnderProbe(g)))
  {
  }

  lemma RaceNeedsSuccess(f: Flight, c: Config, steps: seq<Step>, step: Step, u: Url)
    requires Fresh(f) && Races(After(f, c, steps), step, u)
    ensures HealedMeanwhile(f, c, steps)
  {
    ProbesAreOvertaken(f, c, steps);
  }

  lemma Extend(f: Flight, c: Config, steps: seq<Step>, step: Step)
    requires Valid(f)
    ensures After(f, c, steps + [step]) == Take(After(f, c, steps), c, step)
  {
    assert (steps + [step])[..|steps|] == steps;
  }

  lemma OneUrlScan(p: Pool, c: Config, u: Url, now: nat -> int)
    requires p.urls == [u] && p.rr == 0 && Up(p.states, u, now(0), c)
    ensures Scanned(p, c, [], 1, now) == (p, Waiting([u], 0))
  {
    ScanIs(Order(p), p.states, now, c, 0);
    assert p.(rr := Slot(p.rr + 0 + 1, 1)) == p;
    assert [] + [u] == [u];
  }

  /** One upstream, up or down, with a request and a probe that wait for it or not. */
  function Racing(u: Url, down: bool, requested: bool, probing: bool): Flight {
    Flight(Pool([u], map[u := if down then Health(false, 1, Some(0)) else FRESH], 0),
           [if requested then Waiting([u], 0) else Idle], Prober(0, probing))
  }

  const RACE := Config(1, 30)

  lemma RequestSent(u: Url, down: bool, probing: bool, now: nat -> int)
    requires down ==> now(0) >= 30
    ensures Take(Racing(u, down, false, probing), RACE, Begin(0, now)) == Racing(u, down, true, probing)
  {
    OneUrlScan(Racing(u, down, false, probing).pool, RACE, u, now);
  }

  lemma RequestFails(u: Url, now: nat -> int)
    ensures Take(Racing(u, false, true, false), RACE, Answered(0, TransportError, 0, now)) == Racing(u, true, false, false)
  {
  }

  lemma ProbeSent(u: Url)
    ensures Take(Racing(u, true, false, false), RACE, Look) == Racing(u, true, false, true)
  {
  }

  lemma RequestHeals(u: Url, now: nat -> int)
    ensures Take(Racing(u, true, true, true), RACE, Answered(0, Status(200), 30, now)) == Racing(u, false, false, true)
  {
  }

  lemma ProbeIsLost(u: Url)
    ensures HealthyButDown(Take(Racing(u, false, false, true), RACE, ProbeAnswered(TransportError, 31)), u)
  {
  }

  /** One more step of a schedule that has led to `m`. */
  lemma LeadsTo(f: Flight, c: Config, steps: seq<Step>, step: Step, m: Flight, n: Flight)
    requires Valid(f) && After(f, c, steps) == m && Take(m, c, step) == n
    ensures After(f, c, steps + [step]) == n
  {
    Extend(f, c, steps, step);
  }

  /** A request takes the upstream down and a probe is sent. */
  lemma GoesDown(u: Url) returns (steps: seq<Step>)
    ensures After(Racing(u, false, false, false), RACE, steps) == Racing(u, true, false, true)
  {
    var f, early: nat -> int := Racing(u, false, false, false), _ => 0;
    steps := [];
    RequestSent(u, false, false, early);
    LeadsTo(f, RACE, steps, Begin(0, early), f, Racing(u, false, true, false));
    steps := steps + [Begin(0, early)];
    RequestFails(u, early);
    LeadsTo(f, RACE, steps, Answered(0, TransportError, 0, early), Racing(u, false, true, false), Racing(u, true, false, false));
    steps := steps + [Answered(0, TransportError, 0, early)];
    ProbeSent(u);
    LeadsTo(f, RACE, steps, Look, Racing(u, true, false, false), Racing(u, true, false, true));
    steps := steps + [Look];
  }

  /** A request heals it while the probe waits. */
  lemma IsOvertaken(u: Url) returns (steps: seq<Step>)
    ensures After(Racing(u, false, false, false), RACE, steps) == Racing(u, false, false, true)
  {
    var f, late: nat -> int := Racing(u, false, false, false), _ => 30;
    steps := GoesDown(u);
    RequestSent(u, true, true, late);
    LeadsTo(f, RACE, steps, Begin(0, late), Racing(u, true, false, true), Racing(u, true, true, true));
    steps := steps + [Begin(0, late)];
    RequestHeals(u, late);
    LeadsTo(f, RACE, steps, Answered(0, Status(200), 30, late), Racing(u, true, true, true), Racing(u, false, false, true));
    steps := steps + [Answered(0, Status(200), 30, late)];
  }

  /** "Healthy implies no down time" fails in a reachable state: a probe of an upstream that is
      down loses its connection after a request has healed the upstream. */
  lemma HealthyCanHaveDownTime(u: Url) returns (f: Flight, c: Config, steps: seq<Step>)
    ensures Fresh(f) && HealthyButDown(After(f, c, steps), u)
  {
    var step := ProbeAnswered(TransportError, 31);
    f, c := Racing(u, false, false, false), RACE;
    steps := IsOvertaken(u);
    ProbeIsLost(u);
    LeadsTo(f, c, steps, step, Racing(u, false, false, true), Take(Racing(u, false, false, true), c, step));
    steps := steps + [step];
  }

  // ---------------------------------------------------------------- operations as schedules

  /** What a request that waits for its last upstream comes to. */
  function Rest(p: Pool, c: Config, tried: seq<Url>, left: nat, t: Times, answer: Url -> Reply): Outcome
    requires InRange(p) && tried != [] && tried[|tried| - 1] in p.states
  {
    var u := tried[|tried| - 1];
    if Good(answer(u)) then Outcome(Recorded(p, u, FRESH), tried, Some(u))
    else Failover(Recorded(p, u, AfterFailure(p.states[u], t.reply(|tried| - 1), c)), c, tried, left, t, answer)
  }

  lemma RestOf(q: Pool, c: Config, tried: seq<Url>, u: Url, left: nat, t: Times, answer: Url -> Reply, out: Outcome)
    requires InRange(q) && u in q.states
    requires out == if Good(answer(u)) then Outcome(Recorded(q, u, FRESH), tried + [u], Some(u))
                    else Failover(Recorded(q, u, AfterFailure(q.states[u], t.reply(|tried|), c)), c, tried + [u], left, t, answer)
    ensures out == Rest(q, c, tried + [u], left, t, answer)
  {
    var more := tried + [u];
    assert more[|more| - 1] == u && |more| - 1 == |tried|;
  }

  lemma FailoverScans(p: Pool, c: Config, tried: seq<Url>, left: nat, t: Times, answer: Url -> Reply, out: Outcome)
    requires InRange(p) && out == Failover(p, c, tried, left, t, answer)
    ensures var (q, phase) := Scanned(p, c, tried, left, t.scan(|tried|));
            && (phase.Idle? ==> out.pool == q)
            && (phase.Waiting? ==> out == Rest(q, c, phase.tried, phase.left, t, answer))
  {
    if left > 0 {
      var (next, q) := Next(p, t.scan(|tried|), c);
      if next.Some? && next.value !in tried {
        var less: nat := left - 1;
        FailoverStep(p, c, tried, left, less, t, answer, next.value, q, out);
        RestOf(q, c, tried, next.value, less, t, answer, out);
      }
    }
  }

  lemma {:induction false} WaitingIsASchedule(f: Flight, c: Config, before: seq<Step>, m: Flight, r: nat, tried: seq<Url>, left: nat,
                                              t: Times, answer: Url -> Reply, out: Pool)
    returns (steps: seq<Step>)
    requires Valid(f) && After(f, c, before) == m && r < |m.requests| && m.requests[r] == Waiting(tried, left)
    requires tried != [] && tried[|tried| - 1] in m.pool.states && InRange(m.pool)
    requires out == Rest(m.pool, c, tried, left, t, answer).pool
    ensures After(f, c, steps) == m.(pool := out, requests := m.requests[r := Idle])
    decreases left
  {
    var u := tried[|tried| - 1];
    var step := Answered(r, answer(u), t.reply(|tried| - 1), t.scan(|tried|));
    var g := Take(m, c, step);
    LeadsTo(f, c, before, step, m, g);
    steps := before + [step];
    if !Good(answer(u)) {
      var p := Recorded(m.pool, u, AfterFailure(m.pool.states[u], t.reply(|tried| - 1), c));
      FailoverScans(p, c, tried, left, t, answer, Failover(p, c, tried, left, t, answer));
      if g.requests[r].Waiting? {
        steps := WaitingIsASchedule(f, c, steps, g, r, g.requests[r].tried, g.requests[r].left, t, answer, out);
        assert g.requests[r := Idle] == m.requests[r := Idle];
      }
    }
  }

  /** A request that nothing comes between is one schedule of these steps. */
  lemma RequestIsASchedule(f: Flight, c: Config, r: nat, t: Times, answer: Url -> Reply) returns (steps: seq<Step>)
    requires Valid(f) && r < |f.requests| && f.requests[r].Idle?
    ensures After(f, c, steps) == f.(pool := Requested(f.pool, c, t, answer).pool)
  {
    var step, out := Begin(r, t.scan(0)), Requested(f.pool, c, t, answer);
    var g := Take(f, c, step);
    LeadsTo(f, c, [], step, f, g);
    steps := [] + [step];
    FailoverScans(f.pool, c, [], |f.pool.urls|, t, answer, out);
    assert f.requests[r := Idle] == f.requests && g.requests[r := Idle] == f.requests;
    if g.requests[r].Waiting? {
      steps := WaitingIsASchedule(f, c, steps, g, r, g.requests[r].tried, g.requests[r].left, t, answer, out.pool);
    }
  }

  lemma ProbeIsASchedule(f: Flight, c: Config, before: seq<Step>, m: Flight, at: int, answer: Url -> Reply)
    returns (steps: seq<Step>, n: Flight)
    requires Valid(f) && After(f, c, before) == m && !m.prober.waiting && m.prober.at < |m.pool.urls|
    requires UnderProbe(m) in m.pool.states
    ensures After(f, c, steps) == n
    ensures var u := UnderProbe(m);
            n == m.(pool := Recorded(m.pool, u, AfterProbe(m.pool.states[u], answer(u), at)), prober := Prober(m.prober.at + 1, false))
  {
    var u := UnderProbe(m);
    LeadsTo(f, c, before, Look, m, Take(m, c, Look));
    steps, n := before + [Look], Take(m, c, Look);
    if m.pool.states[u].healthy {
      assert m.pool.states[u := m.pool.states[u]] == m.pool.states;
    } else {
      var step := ProbeAnswered(answer(u), at);
      LeadsTo(f, c, steps, step, n, Take(n, c, step));
      steps, n := steps + [step], Take(n, c, step);
    }
  }

  lemma {:induction false} ProbesFrom(f: Flight, c: Config, before: seq<Step>, m: Flight, at: nat -> int, answer: Url -> Reply, out: Pool)
    returns (steps: seq<Step>)
    requires Valid(f) && Wf(m.pool) && After(f, c, before) == m && !m.prober.waiting && out == Balancer.Probed(m.pool, m.prober.at, at, answer)
    ensures After(f, c, steps) == m.(pool := out, prober := Prober(0, false))
    decreases |m.pool.urls| - m.prober.at
  {
    var i := m.prober.at;
    if i == |m.pool.urls| {
      LeadsTo(f, c, before, Look, m, Take(m, c, Look));
      steps := before + [Look];
    } else {
      var more, n := ProbeIsASchedule(f, c, before, m, at(i), answer);
      steps := ProbesFrom(f, c, more, n, at, answer, out);
    }
  }

  /** So is a round of probes. */
  lemma ProbesAreASchedule(f: Flight, c: Config, at: nat -> int, answer: Url -> Reply, out: Pool) returns (steps: seq<Step>)
    requires Valid(f) && !f.prober.waiting && out == Balancer.Probed(f.pool, f.prober.at, at, answer)
    ensures After(f, c, steps) == f.(pool := out, prober := Prober(0, false))
  {
    steps := ProbesFrom(f, c, [], f, at, answer, out);
  }
}
