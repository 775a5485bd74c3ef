/** The client-side load balancer: round robin over available upstreams, failure counting,
    cooldown with half-open retry, failover, probing and pool refresh.  A synchronous
    section reads the clock once per url it looks at and once per record it writes. */
module Balancer {
  import opened Options

  datatype Health = Health(healthy: bool, fails: nat, downSince: Option<int>)

  const FRESH := Health(true, 0, None)

  datatype Config = Config(failThreshold: int, cooldown: int)

  datatype Pool = Pool(urls: seq<Url>, states: map<Url, Health>, rr: nat)

  /** What an upstream answers: a status, or an error of the transport. */
  datatype Reply = Status(code: int) | TransportError

  predicate Good(r: Reply) {
    r.Status? && r.code < 500
  }

  predicate Available(h: Health, now: int, c: Config) {
    h.healthy || (h.downSince.Some? && now - h.downSince.value >= c.cooldown)
  }

  function AfterFailure(h: Health, now: int, c: Config): Health {
    if h.fails + 1 >= c.failThreshold then Health(false, h.fails + 1, Some(now))
    else h.(fails := h.fails + 1)
  }

  function AfterProbe(h: Health, r: Reply, now: int): Health {
    if h.healthy then h
    else match r
      case Status(code) => if code < 500 then FRESH else h
      case TransportError => h.(downSince := Some(now))
  }

  /** The cursor is a position of the pool. */
  predicate InRange(p: Pool) {
    p.rr < |p.urls| || (p.rr == 0 && p.urls == [])
  }

  /** Every pooled url has a record, and no other has one. */
  ghost predicate Wf(p: Pool) {
    InRange(p) && forall u :: u in p.states <==> u in p.urls
  }

  /** The urls in the order the cursor will meet them. */
  function Order(p: Pool): seq<Url>
    requires p.rr <= |p.urls|
  {
    p.urls[p.rr..] + p.urls[..p.rr]
  }

  /** A cursor that ran past the end of the pool once. */
  function Slot(x: nat, n: nat): nat {
    if x < n then x else x - n
  }

  function Look(states: map<Url, Health>, u: Url): Option<Health> {
    if u in states then Some(states[u]) else None
  }

  predicate Up(states: map<Url, Health>, u: Url, now: int, c: Config) {
    u in states && Available(states[u], now, c)
  }

  /** The first position from `i` on that is available at its own clock reading, or the length. */
  function ScanFrom(order: seq<Url>, i: nat, states: map<Url, Health>, now: nat -> int, c: Config): (k: nat)
    requires i <= |order|
    ensures i <= k <= |order|
    decreases |order| - i
  {
    if i == |order| || Up(states, order[i], now(i), c) then i else ScanFrom(order, i + 1, states, now, c)
  }

  /** A scan of the whole order; `now(i)` is the clock read for position `i`. */
  function Scan(order: seq<Url>, states: map<Url, Health>, now: nat -> int, c: Config): (k: nat)
    ensures k <= |order|
  {
    ScanFrom(order, 0, states, now, c)
  }

  lemma {:induction false} ScanFromFinds(order: seq<Url>, i: nat, states: map<Url, Health>, now: nat -> int, c: Config)
    requires i <= |order|
    ensures var k := ScanFrom(order, i, states, now, c);
            && (forall j :: i <= j < k ==> !Up(states, order[j], now(j), c))
            && (k < |order| ==> Up(states, order[k], now(k), c))
    decreases |order| - i
  {
    if i < |order| && !Up(states, order[i], now(i), c) {
      ScanFromFinds(order, i + 1, states, now, c);
    }
  }

  lemma ScanFinds(order: seq<Url>, states: map<Url, Health>, now: nat -> int, c: Config)
    ensures var k := Scan(order, states, now, c);
            && (forall j :: 0 <= j < k ==> !Up(states, order[j], now(j), c))
            && (k < |order| ==> Up(states, order[k], now(k), c))
  {
    ScanFromFinds(order, 0, states, now, c);
  }

  /** Whatever is first found available is where the scan stops. */
  lemma ScanIs(order: seq<Url>, states: map<Url, Health>, now: nat -> int, c: Config, k: nat)
    requires k <= |order| && forall j :: 0 <= j < k ==> !Up(states, order[j], now(j), c)
    requires k < |order| ==> Up(states, order[k], now(k), c)
    ensures Scan(order, states, now, c) == k
  {
    ScanFinds(order, states, now, c);
  }

  /** The next upstream and the pool with the cursor behind it; nothing if none is available. */
  function Next(p: Pool, now: nat -> int, c: Config): (r: (Option<Url>, Pool))
    requires InRange(p)
    ensures InRange(r.1) && r.1.urls == p.urls && r.1.states == p.states
    ensures r.0.Some? ==> r.0.value in p.states
  {
    ScanFinds(Order(p), p.states, now, c);
    var k := Scan(Order(p), p.states, now, c);
    if k == |p.urls| then (None, p)
    else (Some(Order(p)[k]), p.(rr := Slot(p.rr + k + 1, |p.urls|)))
  }

  function Recorded(p: Pool, u: Url, h: Health): Pool {
    p.(states := p.states[u := h])
  }

  /** Attempt `j` of a request reads the clock for each position its scan looks at, sends
      the request, and reads the clock when its reply is recorded. */
  datatype Times = Times(scan: nat -> nat -> int, sent: nat -> int, reply: nat -> int)

  ghost predicate Ordered(t: Times) {
    && (forall j: nat, i: nat, k: nat :: i <= k ==> t.scan(j)(i) <= t.scan(j)(k))
    && (forall j: nat, i: nat :: t.scan(j)(i) <= t.sent(j))
    && (forall j: nat :: t.sent(j) <= t.reply(j))
    && (forall j: nat, k: nat, i: nat :: j < k ==> t.reply(j) <= t.scan(k)(i))
  }

  /** A request: the pool it leaves, the upstreams it tried, and the one that answered. */
  datatype Outcome = Outcome(pool: Pool, tried: seq<Url>, upstream: Option<Url>)

  function Failover(p: Pool, c: Config, tried: seq<Url>, left: nat, t: Times, answer: Url -> Reply): (r: Outcome)
    requires InRange(p)
    ensures InRange(r.pool) && r.pool.urls == p.urls
    decreases left
  {
    if left == 0 then Outcome(p, tried, None)
    else
      var (next, q) := Next(p, t.scan(|tried|), c);
      if next.None? then Outcome(p, tried, None)
      else
        var u := next.value;
        if u in tried then Outcome(q, tried, None)
        else if Good(answer(u)) then Outcome(Recorded(q, u, FRESH), tried + [u], Some(u))
        else Failover(Recorded(q, u, AfterFailure(q.states[u], t.reply(|tried|), c)), c, tried + [u], left - 1, t, answer)
  }

  /** One attempt of a request that ends in `r`: `u` is the upstream it takes. */
  lemma FailoverStep(p: Pool, c: Config, tried: seq<Url>, left: nat, left': nat, t: Times, answer: Url -> Reply, u: Url, q: Pool, r: Outcome)
    requires InRange(p) && u !in tried && left == left' + 1
    requires Next(p, t.scan(|tried|), c) == (Some(u), q)
    requires r == Failover(p, c, tried, left, t, answer)
    ensures u in p.states
    ensures r == if Good(answer(u)) then Outcome(Recorded(q, u, FRESH), tried + [u], Some(u))
                 else Failover(Recorded(q, u, AfterFailure(p.states[u], t.reply(|tried|), c)), c, tried + [u], left', t, answer)
  {
  }

  function Requested(p: Pool, c: Config, t: Times, answer: Url -> Reply): Outcome
    requires InRange(p)
  {
    Failover(p, c, [], |p.urls|, t, answer)
  }

  /** The pool after probing the urls from position `i` on. */
  ghost function Probed(p: Pool, i: nat, at: nat -> int, answer: Url -> Reply): (r: Pool)
    requires Wf(p)
    ensures Wf(r) && r.urls == p.urls
    decreases |p.urls| - i
  {
    if i >= |p.urls| then p
    else
      var u := p.urls[i];
      Probed(Recorded(p, u, AfterProbe(p.states[u], answer(u), at(i))), i + 1, at, answer)
  }

  /** First occurrences, in order. */
  function Dedup(s: seq<Url>): (r: seq<Url>)
    ensures forall u :: u in r <==> u in s
    ensures Distinct(r)
    ensures s != [] ==> r != []
  {
    if s == [] then []
    else
      var d := Dedup(s[..|s| - 1]);
      if s[|s| - 1] in d then d else d + [s[|s| - 1]]
  }

  ghost function Refreshed(p: Pool, urls: seq<Url>): (r: Pool)
    requires Wf(p)
    ensures Wf(r)
  {
    if urls == [] then p
    else
      var d := Dedup(urls);
      Pool(d, map u | u in d :: if u in p.states then p.states[u] else FRESH, 0)
  }

  class UpstreamBalancer {
    var urls: seq<Url>
    var states: map<Url, Health>
    var rr: nat
    const config: Config

    ghost function State(): Pool
      reads this
    {
      Pool(urls, states, rr)
    }

    ghost predicate Valid()
      reads this
    {
      Wf(State())
    }

    constructor (urls: seq<Url>, failThreshold: int, cooldown: int)
      ensures Valid() && config == Config(failThreshold, cooldown)
      ensures this.urls == urls && rr == 0 && forall u :: u in urls ==> states[u] == FRESH
    {
      this.urls := urls;
      states := map u | u in urls :: FRESH;
      rr := 0;
      config := Config(failThreshold, cooldown);
    }

    method Refresh(urls: seq<Url>)
      requires Valid()
      modifies this
      ensures Valid() && State() == Refreshed(old(State()), urls)
    {
      if urls == [] {
        return;
      }
      var distinct: seq<Url> := [];
      for i := 0 to |urls|
        invariant distinct == Dedup(urls[..i])
      {
        assert urls[..i + 1][..i] == urls[..i];
        if urls[i] !in distinct {
          distinct := distinct + [urls[i]];
        }
      }
      assert urls[..|urls|] == urls;
      var next: map<Url, Health> := map[];
      for i := 0 to |distinct|
        invariant forall u :: u in next <==> u in distinct[..i]
        invariant forall u :: u in next ==> next[u] == if u in states then states[u] else FRESH
      {
        var u := distinct[i];
        if u in states {
          next := next[u := states[u]];
        } else {
          next := next[u := FRESH];
        }
      }
      assert distinct[..|distinct|] == distinct;
      states := next;
      this.urls := distinct;
      rr := 0;
      assert states == Refreshed(old(State()), urls).states;
    }

    method NextUrl(now: nat -> int) returns (r: Option<Url>)
      requires Valid()
      modifies this`rr
      ensures r.Some? ==> r.value in states
      ensures Valid() && (r, State()) == Next(old(State()), now, config)
    {
      ghost var p := State();
      var n := |urls|;
      for k := 0 to n
        invariant n == |urls| && State() == p.(rr := rr)
        invariant rr == if k < n then Slot(p.rr + k, n) else p.rr
        invariant forall j :: 0 <= j < k ==> !Up(states, Order(p)[j], now(j), config)
      {
        var url := urls[rr];
        assert url == Order(p)[k];
        rr := if rr + 1 == n then 0 else rr + 1;
        if Available(states[url], now(k), config) {
          ScanIs(Order(p), states, now, config, k);
          return Some(url);
        }
      }
      ScanIs(Order(p), states, now, config, n);
      return None;
    }

    method RecordSuccess(url: Url)
      requires url in states
      modifies this`states
      ensures State() == Recorded(old(State()), url, FRESH)
    {
      states := states[url := states[url].(healthy := true, fails := 0, downSince := None)];
    }

    method RecordFailure(url: Url, now: int)
      requires url in states
      modifies this`states
      ensures State() == Recorded(old(State()), url, AfterFailure(old(states)[url], now, config))
    {
      states := states[url := states[url].(fails := states[url].fails + 1)];
      if states[url].fails >= config.failThreshold {
        states := states[url := states[url].(healthy := false, downSince := Some(now))];
      }
      assert states == old(states)[url := AfterFailure(old(states)[url], now, config)];
    }

    /** `sent` are the upstreams that were sent the request, in order; no upstream in the
        result means that the request raised. */
    method Request(t: Times, answer: Url -> Reply) returns (upstream: Option<Url>, sent: seq<Url>)
      requires Valid()
      modifies this`states, this`rr
      ensures Valid() && Outcome(State(), sent, upstream) == Requested(old(State()), config, t, answer)
    {
      sent := [];
      var n := |urls|;
      ghost var goal := Requested(State(), config, t, answer);
      for attempt := 0 to n
        invariant Valid() && n == |urls| && |sent| == attempt
        invariant Failover(State(), config, sent, n - attempt, t, answer) == goal
      {
        ghost var p, tried := State(), sent;
        var next := NextUrl(t.scan(|sent|));
        if next.None? {
          return None, sent;
        }
        var url := next.value;
        if url in sent {
          break;
        }
        sent := sent + [url];
        var reply := answer(url);
        FailoverStep(p, config, tried, n - attempt, n - attempt - 1, t, answer, url, State(), goal);
        match reply
        case Status(code) =>
          if code >= 500 {
            RecordFailure(url, t.reply(attempt));
            continue;
          }
          RecordSuccess(url);
          return Some(url), sent;
        case TransportError =>
          RecordFailure(url, t.reply(attempt));
      }
      return None, sent;
    }

    method ProbeAll(at: nat -> int, answer: Url -> Reply)
      requires Valid()
      modifies this`states
      ensures Valid() && State() == Probed(old(State()), 0, at, answer)
    {
      for i := 0 to |urls|
        invariant Valid()
        invariant Probed(State(), i, at, answer) == Probed(old(State()), 0, at, answer)
      {
        var url := urls[i];
        ghost var before := State();
        if states[url].healthy {
          assert before.states[url := states[url]] == before.states;
          continue;
        }
        var reply := answer(url);
        match reply
        case Status(code) =>
          if code < 500 {
            RecordSuccess(url);
          } else {
            assert before.states[url := states[url]] == before.states;
          }
        case TransportError =>
          states := states[url := states[url].(downSince := Some(at(i)))];
      }
    }
  }
}
