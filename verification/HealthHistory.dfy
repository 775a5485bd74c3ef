/** Health records as a summary of what happened to each url.  Replies and probe results
    may be recorded in any interleaving; the pool is refreshed in between. */
module HealthHistory {
  import opened Options
  import opened Balancer
  import opened Traffic
  import opened Windows

  /** A recorded success, a recorded failure, or a probe that found no connection and
      wrote its time into the record it had looked at. */
  datatype Event = Succeeded | FailedAt(at: int) | ProbeLost(at: int)

  function Apply(h: Health, e: Event, c: Config): Health {
    match e
    case Succeeded => FRESH
    case FailedAt(at) => AfterFailure(h, at, c)
    case ProbeLost(at) => h.(downSince := Some(at))
  }

  function Play(events: seq<Event>, c: Config): Health {
    if events == [] then FRESH else Apply(Play(events[..|events| - 1], c), events[|events| - 1], c)
  }

  /** Failures since the last success. */
  function FailsSince(events: seq<Event>): nat {
    if events == [] || events[|events| - 1].Succeeded? then 0
    else FailsSince(events[..|events| - 1]) + if events[|events| - 1].FailedAt? then 1 else 0
  }

  predicate ProbeLostSince(events: seq<Event>) {
    events != [] && !events[|events| - 1].Succeeded?
    && (events[|events| - 1].ProbeLost? || ProbeLostSince(events[..|events| - 1]))
  }

  /** The last time since the last success at which a failure met the threshold or a probe was
      lost. */
  function DownTime(events: seq<Event>, c: Config): Option<int> {
    if events == [] then None
    else match events[|events| - 1]
      case Succeeded => None
      case ProbeLost(at) => Some(at)
      case FailedAt(at) =>
        if FailsSince(events) >= c.failThreshold then Some(at) else DownTime(events[..|events| - 1], c)
  }

  /** The record is determined by the run of failures since the last success; a healthy
      record has a down time exactly when a lost probe was recorded during that run. */
  lemma {:induction false} HealthRefinesHistory(events: seq<Event>, c: Config)
    ensures var h := Play(events, c);
            && h.fails == FailsSince(events)
            && (h.healthy <==> h.fails < Threshold(c))
            && (!h.healthy ==> h.downSince.Some?)
            && h.downSince == DownTime(events, c)
            && (h.healthy ==> (h.downSince.Some? <==> ProbeLostSince(events)))
  {
    if events != [] {
      HealthRefinesHistory(events[..|events| - 1], c);
    }
  }

  ghost predicate Past(e: Event, now: int) {
    e.Succeeded? || e.at <= now
  }

  ghost predicate RecordedBy(events: seq<Event>, now: int) {
    forall e :: e in events ==> Past(e, now)
  }

  /** Every record that past replies can leave may start a run without success. */
  lemma {:induction false} AnyRecordMayStart(events: seq<Event>, c: Config, now: int)
    requires RecordedBy(events, now)
    ensures Dead(Play(events, c), [], now, c)
    ensures Play(events, c).downSince.Some? ==> Play(events, c).downSince.value <= now
  {
    HealthRefinesHistory(events, c);
    if events != [] {
      assert events[|events| - 1] in events;
      AnyRecordMayStart(events[..|events| - 1], c, now);
    }
  }

  // ---------------------------------------------------------------- the whole pool

  datatype PoolEvent = Note(url: Url, event: Event) | Renew(urls: seq<Url>)

  ghost function PoolAfter(start: Pool, log: seq<PoolEvent>, c: Config): (r: Pool)
    requires Wf(start)
    ensures Wf(r)
  {
    if log == [] then start
    else
      var p := PoolAfter(start, log[..|log| - 1], c);
      match log[|log| - 1]
      case Note(u, e) => if u in p.states then Recorded(p, u, Apply(p.states[u], e, c)) else p
      case Renew(urls) => Refreshed(p, urls)
  }

  /** What was recorded for `u` since it joined the pool. */
  ghost function SinceJoining(start: Pool, log: seq<PoolEvent>, c: Config, u: Url): seq<Event>
    requires Wf(start)
  {
    if log == [] then []
    else
      var before := log[..|log| - 1];
      match log[|log| - 1]
      case Note(v, e) => SinceJoining(start, before, c, u) + if v == u then [e] else []
      case Renew(urls) => if u in PoolAfter(start, before, c).urls then SinceJoining(start, before, c, u) else []
  }

  /** Every pooled url is as healthy as its own history since it joined says. */
  lemma {:induction false} PoolRefinesHistory(start: Pool, log: seq<PoolEvent>, c: Config, u: Url)
    requires Wf(start) && forall v :: v in start.states ==> start.states[v] == FRESH
    requires u in PoolAfter(start, log, c).urls
    ensures var p := PoolAfter(start, log, c);
            u in p.states && p.states[u] == Play(SinceJoining(start, log, c, u), c)
  {
    if log != [] {
      var before, last := log[..|log| - 1], log[|log| - 1];
      if u in PoolAfter(start, before, c).urls {
        PoolRefinesHistory(start, before, c, u);
        if last.Note? && last.url == u {
          var events := SinceJoining(start, before, c, u);
          assert (events + [last.event])[..|events|] == events;
        } else if last.Note? {
          assert SinceJoining(start, log, c, u) == SinceJoining(start, before, c, u);
        }
      }
    }
  }

  // ---------------------------------------------------------------- requests, probes and refreshes as logs

  /** What a reply found by a probe leads to, if anything is recorded. */
  function Probing(h: Health, r: Reply, at: int): Option<Event> {
    if h.healthy || (r.Status? && r.code >= 500) then None
    else if r.Status? then Some(Succeeded) else Some(ProbeLost(at))
  }

  ghost predicate Logged(start: Pool, log: seq<PoolEvent>, c: Config, p: Pool)
    requires Wf(start)
  {
    p == PoolAfter(start, log, c).(rr := p.rr)
  }

  lemma NoteIsLogged(start: Pool, log: seq<PoolEvent>, c: Config, p: Pool, u: Url, e: Event)
    requires Wf(start) && Logged(start, log, c, p) && u in p.states
    ensures Logged(start, log + [Note(u, e)], c, Recorded(p, u, Apply(p.states[u], e, c)))
  {
    assert (log + [Note(u, e)])[..|log|] == log;
  }

  /** A status below 500 counts as a success, all else as a failure. */
  function AttemptEvent(r: Reply, at: int): Event {
    if r.Status? && r.code < 500 then Succeeded else FailedAt(at)
  }

  /** The events of the attempts from number `a` on. */
  function Attempts(tried: seq<Url>, a: nat, t: Times, answer: Url -> Reply): seq<PoolEvent>
    decreases |tried| - a
  {
    if a >= |tried| then []
    else [Note(tried[a], AttemptEvent(answer(tried[a]), t.reply(a)))] + Attempts(tried, a + 1, t, answer)
  }

  lemma AttemptsJoin(log: seq<PoolEvent>, tried: seq<Url>, a: nat, t: Times, answer: Url -> Reply, e: PoolEvent)
    requires a < |tried| && e == Note(tried[a], AttemptEvent(answer(tried[a]), t.reply(a)))
    ensures log + Attempts(tried, a, t, answer) == log + [e] + Attempts(tried, a + 1, t, answer)
  {
  }

  lemma TriedGoesOn(p: Pool, c: Config, tried: seq<Url>, u: Url, left: nat, t: Times, answer: Url -> Reply)
    requires InRange(p)
    ensures var r := Failover(p, c, tried + [u], left, t, answer); |r.tried| > |tried| && r.tried[|tried|] == u
  {
    var j, i := FailoverEffect(p, c, tried + [u], left, t, answer, u, Failover(p, c, tried + [u], left, t, answer));
    var r := Failover(p, c, tried + [u], left, t, answer);
    assert r.tried[|tried|] == (tried + [u])[|tried|];
  }

  lemma AttemptIsLogged(start: Pool, log: seq<PoolEvent>, c: Config, tried: seq<Url>, a: nat, t: Times, answer: Url -> Reply, e: PoolEvent, p: Pool)
    requires Wf(start) && a < |tried|
    requires e == Note(tried[a], AttemptEvent(answer(tried[a]), t.reply(a)))
    requires Logged(start, log + [e] + Attempts(tried, a + 1, t, answer), c, p)
    ensures Logged(start, log + Attempts(tried, a, t, answer), c, p)
  {
    AttemptsJoin(log, tried, a, t, answer, e);
  }

  lemma NoAttemptIsLogged(start: Pool, log: seq<PoolEvent>, c: Config, tried: seq<Url>, t: Times, answer: Url -> Reply, p: Pool)
    requires Wf(start) && Logged(start, log, c, p)
    ensures Logged(start, log + Attempts(tried, |tried|, t, answer), c, p)
  {
    assert log + [] == log;
  }

  lemma FailureIsLogged(start: Pool, log: seq<PoolEvent>, p: Pool, u: Url, c: Config, tried: seq<Url>, left: nat, t: Times, answer: Url -> Reply, r: Outcome)
    requires Wf(start) && InRange(p) && !Good(answer(u)) && r == Failover(p, c, tried + [u], left, t, answer)
    requires Logged(start, log + [Note(u, FailedAt(t.reply(|tried|)))] + Attempts(r.tried, |tried| + 1, t, answer), c, r.pool)
    ensures Logged(start, log + Attempts(r.tried, |tried|, t, answer), c, r.pool)
  {
    TriedGoesOn(p, c, tried, u, left, t, answer);
    AttemptIsLogged(start, log, c, r.tried, |tried|, t, answer, Note(u, FailedAt(t.reply(|tried|))), r.pool);
  }

  /** A request records one success or failure per attempt, in order, and nothing else. */
  lemma {:induction false} RequestIsLogged(start: Pool, log: seq<PoolEvent>, p: Pool, c: Config, tried: seq<Url>, left: nat, t: Times, answer: Url -> Reply)
    requires Wf(start) && InRange(p) && Logged(start, log, c, p)
    ensures var r := Failover(p, c, tried, left, t, answer);
            Logged(start, log + Attempts(r.tried, |tried|, t, answer), c, r.pool)
    decreases left, 1
  {
    var (next, q) := Next(p, t.scan(|tried|), c);
    if left == 0 || next.None? || next.value in tried {
      NoAttemptIsLogged(start, log, c, tried, t, answer, Failover(p, c, tried, left, t, answer).pool);
    } else {
      FailoverStep(p, c, tried, left, left - 1, t, answer, next.value, q, Failover(p, c, tried, left, t, answer));
      NextIsLogged(start, log, q, next.value, c, tried, left, t, answer);
    }
  }

  lemma AnswerIsLogged(start: Pool, log: seq<PoolEvent>, q: Pool, u: Url, c: Config, tried: seq<Url>, t: Times, answer: Url -> Reply, p: Pool)
    requires Wf(start) && Logged(start, log, c, q) && u in q.states && Good(answer(u)) && p == Recorded(q, u, FRESH)
    ensures Logged(start, log + Attempts(tried + [u], |tried|, t, answer), c, p)
  {
    var e := Note(u, Succeeded);
    NoteIsLogged(start, log, c, q, u, Succeeded);
    NoAttemptIsLogged(start, log + [e], c, tried + [u], t, answer, p);
    AttemptIsLogged(start, log, c, tried + [u], |tried|, t, answer, e, p);
  }

  lemma {:induction false} NextIsLogged(start: Pool, log: seq<PoolEvent>, q: Pool, u: Url, c: Config, tried: seq<Url>, left: nat, t: Times, answer: Url -> Reply)
    requires Wf(start) && InRange(q) && Logged(start, log, c, q) && u in q.states && left > 0
    ensures var r := if Good(answer(u)) then Outcome(Recorded(q, u, FRESH), tried + [u], Some(u))
                     else Failover(Recorded(q, u, AfterFailure(q.states[u], t.reply(|tried|), c)), c, tried + [u], left - 1, t, answer);
            Logged(start, log + Attempts(r.tried, |tried|, t, answer), c, r.pool)
    decreases left, 0
  {
    if Good(answer(u)) {
      AnswerIsLogged(start, log, q, u, c, tried, t, answer, Recorded(q, u, FRESH));
    } else {
      var failed := FailedAt(t.reply(|tried|));
      var p' := Recorded(q, u, AfterFailure(q.states[u], t.reply(|tried|), c));
      NoteIsLogged(start, log, c, q, u, failed);
      RequestIsLogged(start, log + [Note(u, failed)], p', c, tried + [u], left - 1, t, answer);
      assert |tried + [u]| == |tried| + 1;
      FailureIsLogged(start, log, p', u, c, tried, left - 1, t, answer, Failover(p', c, tried + [u], left - 1, t, answer));
    }
  }

  function Found(u: Url, h: Health, r: Reply, at: int): seq<PoolEvent> {
    var e := Probing(h, r, at);
    if e.Some? then [Note(u, e.value)] else []
  }

  /** What a round of probes records from position `i` on. */
  ghost function ProbeLog(p: Pool, i: nat, at: nat -> int, answer: Url -> Reply): seq<PoolEvent>
    requires Wf(p)
    decreases |p.urls| - i
  {
    if i >= |p.urls| then []
    else
      var u := p.urls[i];
      Found(u, p.states[u], answer(u), at(i))
      + ProbeLog(Recorded(p, u, AfterProbe(p.states[u], answer(u), at(i))), i + 1, at, answer)
  }

  lemma ProbeIsLogged(start: Pool, log: seq<PoolEvent>, p: Pool, c: Config, u: Url, r: Reply, at: int)
    requires Wf(start) && Wf(p) && Logged(start, log, c, p) && u in p.states
    ensures Logged(start, log + Found(u, p.states[u], r, at), c, Recorded(p, u, AfterProbe(p.states[u], r, at)))
  {
    var e, h := Probing(p.states[u], r, at), AfterProbe(p.states[u], r, at);
    if e.Some? {
      NoteIsLogged(start, log, c, p, u, e.value);
    } else {
      assert p.states[u := h] == p.states && log + [] == log;
    }
  }

  lemma LogsJoin(log: seq<PoolEvent>, first: seq<PoolEvent>, rest: seq<PoolEvent>)
    ensures log + first + rest == log + (first + rest)
  {
  }

  /** A round of probes records what it found about unhealthy urls, and nothing else. */
  lemma {:induction false} ProbesAreLogged(start: Pool, log: seq<PoolEvent>, p: Pool, c: Config, i: nat, at: nat -> int, answer: Url -> Reply,
                                           log': seq<PoolEvent>)
    requires Wf(start) && Wf(p) && Logged(start, log, c, p) && log' == log + ProbeLog(p, i, at, answer)
    ensures Logged(start, log', c, Probed(p, i, at, answer))
    decreases |p.urls| - i
  {
    if i < |p.urls| {
      var u := p.urls[i];
      var first := Found(u, p.states[u], answer(u), at(i));
      var p' := Recorded(p, u, AfterProbe(p.states[u], answer(u), at(i)));
      ProbeIsLogged(start, log, p, c, u, answer(u), at(i));
      LogsJoin(log, first, ProbeLog(p', i + 1, at, answer));
      ProbesAreLogged(start, log + first, p', c, i + 1, at, answer, log');
    } else {
      assert log' == log;
    }
  }

  // ---------------------------------------------------------------- whole runs

  /** What an operation records: one event per attempt, per probe that found something out,
      or per refresh. */
  ghost function LogOf(p: Pool, c: Config, op: Op): seq<PoolEvent>
    requires Wf(p)
  {
    match op
    case Request(t, answer) => Attempts(Requested(p, c, t, answer).tried, 0, t, answer)
    case Probe(at, answer) => ProbeLog(p, 0, at, answer)
    case Refresh(urls) => [Renew(urls)]
  }

  /** What operations one after another record. */
  ghost function RunLog(p: Pool, c: Config, ops: seq<Op>): seq<PoolEvent>
    requires Wf(p)
    decreases |ops|
  {
    if ops == [] then [] else LogOf(p, c, ops[0]) + RunLog(Performed(p, c, ops[0]), c, ops[1..])
  }

  lemma OpIsLogged(start: Pool, log: seq<PoolEvent>, p: Pool, c: Config, op: Op, log': seq<PoolEvent>, q: Pool)
    requires Wf(start) && Wf(p) && Logged(start, log, c, p)
    requires log' == log + LogOf(p, c, op) && q == Performed(p, c, op)
    ensures Logged(start, log', c, q)
  {
    match op
    case Request(t, answer) => RequestIsLogged(start, log, p, c, [], |p.urls|, t, answer);
    case Probe(at, answer) => ProbesAreLogged(start, log, p, c, 0, at, answer, log');
    case Refresh(urls) => assert (log + [Renew(urls)])[..|log|] == log;
  }

  /** In any run of requests, probes and refreshes the records are the summary of the log of
      that run's own replies. */
  lemma {:induction false} RunsAreLogged(start: Pool, log: seq<PoolEvent>, p: Pool, c: Config, ops: seq<Op>, log': seq<PoolEvent>)
    requires Wf(start) && Wf(p) && Logged(start, log, c, p) && log' == log + RunLog(p, c, ops)
    ensures Logged(start, log', c, After(p, c, ops))
    decreases |ops|
  {
    if ops == [] {
      assert log' == log;
    } else {
      var q, first := Performed(p, c, ops[0]), LogOf(p, c, ops[0]);
      OpIsLogged(start, log, p, c, ops[0], log + first, q);
      LogsJoin(log, first, RunLog(q, c, ops[1..]));
      RunsAreLogged(start, log + first, q, c, ops[1..], log');
    }
  }

  ghost predicate AllFresh(p: Pool) {
    Wf(p) && forall u :: u in p.states ==> p.states[u] == FRESH
  }

  /** A record without a down time while it is healthy. */
  predicate Settled(h: Health) {
    h.healthy ==> h.downSince.None?
  }

  lemma {:induction false} ProbeKeepsSettled(p: Pool, i: nat, at: nat -> int, answer: Url -> Reply)
    requires Wf(p) && forall u :: u in p.states ==> Settled(p.states[u])
    ensures forall u :: u in Probed(p, i, at, answer).states ==> Settled(Probed(p, i, at, answer).states[u])
    decreases |p.urls| - i
  {
    if i < |p.urls| {
      var u := p.urls[i];
      ProbeKeepsSettled(Recorded(p, u, AfterProbe(p.states[u], answer(u), at(i))), i + 1, at, answer);
    }
  }

  lemma OpKeepsSettled(p: Pool, c: Config, op: Op)
    requires Wf(p) && forall u :: u in p.states ==> Settled(p.states[u])
    ensures forall u :: u in Performed(p, c, op).states ==> Settled(Performed(p, c, op).states[u])
  {
    match op
    case Request(t, answer) =>
      var q := Performed(p, c, op);
      forall u | u in q.states ensures Settled(q.states[u]) {
        var j, i := FailoverEffect(p, c, [], |p.urls|, t, answer, u, Requested(p, c, t, answer));
        assert Look(q.states, u) == Some(q.states[u]);
      }
    case Probe(at, answer) => ProbeKeepsSettled(p, 0, at, answer);
    case Refresh(urls) =>
  }

  lemma {:induction false} RunKeepsSettled(p: Pool, c: Config, ops: seq<Op>)
    requires Wf(p) && forall u :: u in p.states ==> Settled(p.states[u])
    ensures forall u :: u in After(p, c, ops).states ==> Settled(After(p, c, ops).states[u])
    decreases |ops|
  {
    if ops != [] {
      OpKeepsSettled(p, c, ops[0]);
      RunKeepsSettled(Performed(p, c, ops[0]), c, ops[1..]);
    }
  }

  /** Operations one after another: a pooled url's record is the summary of what was recorded
      for it since it joined, `fails` counts the failures since its last success, it is healthy
      exactly below the threshold, and it has a down time exactly when it is unhealthy.  So it
      is taken exactly while its failures are below the threshold or a cooldown has passed
      since the last failure that met it, or the last probe lost since. */
  lemma HealthOverRuns(p: Pool, c: Config, ops: seq<Op>, u: Url)
    requires AllFresh(p) && u in After(p, c, ops).urls
    ensures var q, events := After(p, c, ops), SinceJoining(p, RunLog(p, c, ops), c, u);
            && u in q.states && q.states[u] == Play(events, c)
            && q.states[u].fails == FailsSince(events)
            && (q.states[u].healthy <==> FailsSince(events) < Threshold(c))
            && (q.states[u].healthy <==> q.states[u].downSince.None?)
            && (forall now :: Up(q.states, u, now, c) <==>
                  || FailsSince(events) == 0 || FailsSince(events) < c.failThreshold
                  || (DownTime(events, c).Some? && now - DownTime(events, c).value >= c.cooldown))
  {
    var log := RunLog(p, c, ops);
    assert log == [] + log;
    RunsAreLogged(p, [], p, c, ops, log);
    PoolRefinesHistory(p, log, c, u);
    HealthRefinesHistory(SinceJoining(p, log, c, u), c);
    RunKeepsSettled(p, c, ops);
  }

  // ---------------------------------------------------------------- traffic from any state on

  /** The operation has recorded everything by `now`. */
  ghost predicate OpPast(op: Op, now: int) {
    match op
    case Request(t, answer) => forall j: nat :: t.reply(j) <= now
    case Probe(at, answer) => forall j: nat :: at(j) <= now
    case Refresh(urls) => true
  }

  ghost predicate LogPast(log: seq<PoolEvent>, now: int) {
    forall e :: e in log && e.Note? ==> Past(e.event, now)
  }

  lemma {:induction false} AttemptsPast(tried: seq<Url>, a: nat, t: Times, answer: Url -> Reply, now: int)
    requires forall j: nat :: t.reply(j) <= now
    ensures LogPast(Attempts(tried, a, t, answer), now)
    decreases |tried| - a
  {
    if a < |tried| {
      AttemptsPast(tried, a + 1, t, answer, now);
    }
  }

  lemma {:induction false} ProbeLogPast(p: Pool, i: nat, at: nat -> int, answer: Url -> Reply, now: int)
    requires Wf(p) && forall j: nat :: at(j) <= now
    ensures LogPast(ProbeLog(p, i, at, answer), now)
    decreases |p.urls| - i
  {
    if i < |p.urls| {
      var u := p.urls[i];
      ProbeLogPast(Recorded(p, u, AfterProbe(p.states[u], answer(u), at(i))), i + 1, at, answer, now);
    }
  }

  lemma LogOfPast(p: Pool, c: Config, op: Op, now: int)
    requires Wf(p) && OpPast(op, now)
    ensures LogPast(LogOf(p, c, op), now)
  {
    match op
    case Request(t, answer) => AttemptsPast(Requested(p, c, t, answer).tried, 0, t, answer, now);
    case Probe(at, answer) => ProbeLogPast(p, 0, at, answer, now);
    case Refresh(urls) =>
  }

  lemma {:induction false} RunLogPast(p: Pool, c: Config, ops: seq<Op>, now: int)
    requires Wf(p) && forall op :: op in ops ==> OpPast(op, now)
    ensures LogPast(RunLog(p, c, ops), now)
    decreases |ops|
  {
    if ops != [] {
      LogOfPast(p, c, ops[0], now);
      RunLogPast(Performed(p, c, ops[0]), c, ops[1..], now);
    }
  }

  lemma {:induction false} SinceJoiningPast(start: Pool, log: seq<PoolEvent>, c: Config, u: Url, now: int)
    requires Wf(start) && LogPast(log, now)
    ensures RecordedBy(SinceJoining(start, log, c, u), now)
  {
    if log != [] {
      var n := |log| - 1;
      assert log[n] in log;
      SinceJoiningPast(start, log[..n], c, u, now);
    }
  }

  /** The bound on traffic to a dead upstream applies from any reachable state on: whatever
      operations came before, from the last success on an upstream that stays in the pool is
      sent at most threshold + T / cooldown requests in any window of T seconds. */
  lemma DeadUpstreamTrafficFromAnyState(p: Pool, c: Config, before: seq<Op>, ops: seq<Op>, clock: seq<int>, u: Url, from: int, span: nat)
    requires c.cooldown > 0 && AllFresh(p) && IsDoomedRun(ops, clock, u)
    requires (forall op :: op in before ==> OpPast(op, clock[0])) && u in After(p, c, before).urls
    ensures CountIn(Sends(After(p, c, before), c, ops, u), from, from + span) <= Threshold(c) + span / c.cooldown
  {
    var q, log := After(p, c, before), RunLog(p, c, before);
    var events := SinceJoining(p, log, c, u);
    RunLogPast(p, c, before, clock[0]);
    SinceJoiningPast(p, log, c, u, clock[0]);
    HealthOverRuns(p, c, before, u);
    AnyRecordMayStart(events, c, clock[0]);
    assert Look(q.states, u) == Some(Play(events, c));
    DeadUpstreamTraffic(q, c, ops, clock, u, from, span);
  }
}
