/** How much traffic a dead upstream gets, in runs where requests, probes and refreshes
    follow one another. */
module Traffic {
  import opened Options
  import opened Balancer
  import opened Windows
  import FailoverProofs

  // ---------------------------------------------------------------- effect of one operation on one url

  /** A request sends to a url at most once, only while it is available, and records the
      reply; a url that is not tried keeps its record. */
  lemma {:induction false} FailoverEffect(p: Pool, c: Config, tried: seq<Url>, left: nat, t: Times, answer: Url -> Reply, u: Url, r: Outcome)
    returns (j: nat, i: nat)
    requires InRange(p) && r == Failover(p, c, tried, left, t, answer)
    ensures tried <= r.tried
    ensures u in tried || u !in r.tried ==> Look(r.pool.states, u) == Look(p.states, u)
    ensures u !in tried && u in r.tried ==>
              && |tried| <= j < |r.tried| && r.tried[j] == u
              && Up(p.states, u, t.scan(j)(i), c)
              && Look(r.pool.states, u) == Some(if Good(answer(u)) then FRESH else AfterFailure(p.states[u], t.reply(j), c))
    decreases left
  {
    j, i := |tried|, Scan(Order(p), p.states, t.scan(|tried|), c);
    if left > 0 {
      var (next, q) := Next(p, t.scan(|tried|), c);
      ScanFinds(Order(p), p.states, t.scan(|tried|), c);
      if next.Some? && next.value !in tried {
        var v, left' := next.value, left - 1;
        FailoverStep(p, c, tried, left, left', t, answer, v, q, r);
        if !Good(answer(v)) {
          var p' := Recorded(q, v, AfterFailure(q.states[v], t.reply(|tried|), c));
          var k, l := FailoverEffect(p', c, tried + [v], left', t, answer, u, r);
          assert r.tried[|tried|] == v;
          if u != v {
            j, i := k, l;
          }
        }
      }
    }
  }

  /** A probe that does not succeed never heals, and can only push the cooldown back. */
  lemma {:induction false} ProbeEffect(p: Pool, i: nat, at: nat -> int, answer: Url -> Reply, u: Url, from: int, to: int)
    requires Wf(p) && u in p.states && !Good(answer(u))
    requires forall k: nat :: from <= at(k) <= to
    ensures var h, h' := p.states[u], Look(Probed(p, i, at, answer).states, u);
            && h'.Some? && h'.value.healthy == h.healthy && h'.value.fails == h.fails
            && (h'.value != h ==> !h.healthy && h'.value.downSince.Some? && from <= h'.value.downSince.value <= to)
    decreases |p.urls| - i
  {
    if i < |p.urls| {
      var v := p.urls[i];
      ProbeEffect(Recorded(p, v, AfterProbe(p.states[v], answer(v), at(i))), i + 1, at, answer, u, from, to);
    }
  }

  // ---------------------------------------------------------------- spacing of the sends

  function Threshold(c: Config): nat {
    if c.failThreshold < 1 then 1 else c.failThreshold
  }

  /** The time that `n` sends to a dead upstream must at least span. */
  function Span(n: int, c: Config): int {
    (n - Threshold(c)) * c.cooldown
  }

  lemma SpanFacts(n: int, c: Config)
    requires c.cooldown >= 0
    ensures Span(n + 1, c) == Span(n, c) + c.cooldown
    ensures n <= Threshold(c) ==> Span(n, c) <= 0
  {
    var d := n - Threshold(c);
    assert (d + 1) * c.cooldown == d * c.cooldown + c.cooldown;
    if d <= 0 {
      assert d * c.cooldown <= 0 by { NonPositive(d, c.cooldown); }
    }
  }

  lemma NonPositive(d: int, x: int)
    requires d <= 0 <= x
    ensures d * x <= 0
  {
  }

  /** Any stretch of sends spans at least its due. */
  ghost predicate Spread(sends: seq<int>, c: Config) {
    forall i, j :: 0 <= i <= j < |sends| ==> Span(j - i + 1, c) <= sends[j] - sends[i]
  }

  /** The record of a url that had no success since `sends` began. */
  ghost predicate Dead(h: Health, sends: seq<int>, now: int, c: Config) {
    && Sorted(sends, now) && Spread(sends, c)
    && (h.healthy <==> h.fails < Threshold(c))
    && (h.healthy ==> |sends| <= h.fails)
    && (!h.healthy ==>
          && h.downSince.Some? && h.downSince.value <= now
          && forall i :: 0 <= i < |sends| ==> Span(|sends| - i, c) <= h.downSince.value - sends[i])
  }

  lemma OneMoreSend(h: Health, sends: seq<int>, now: int, c: Config, seen: int, sent: int, replied: int, later: int)
    requires c.cooldown >= 0 && Dead(h, sends, now, c) && now <= seen <= sent <= replied <= later && Available(h, seen, c)
    ensures Dead(AfterFailure(h, replied, c), sends + [sent], later, c)
  {
    var h', n, s := AfterFailure(h, replied, c), |sends|, sends + [sent];
    forall i | 0 <= i <= n ensures Span(n - i + 1, c) <= sent - s[i] {
      SpanFacts(n - i, c);
      SpanFacts(n - i + 1, c);
      if i == n {
        SpanFacts(1, c);
      }
    }
    forall i, j | 0 <= i <= j < |s| ensures Span(j - i + 1, c) <= s[j] - s[i] {
      if j < n {
        assert s[j] == sends[j] && s[i] == sends[i];
      }
    }
  }

  // ---------------------------------------------------------------- runs

  datatype Op =
    | Request(t: Times, answer: Url -> Reply)
    | Probe(at: nat -> int, probe: Url -> Reply)
    | Refresh(urls: seq<Url>)

  lemma RequestKeepsWf(p: Pool, c: Config, t: Times, answer: Url -> Reply)
    requires Wf(p)
    ensures Wf(Requested(p, c, t, answer).pool)
  {
    var r := Requested(p, c, t, answer);
    forall u ensures u in r.pool.states <==> u in r.pool.urls {
      var j, i := FailoverEffect(p, c, [], |p.urls|, t, answer, u, Requested(p, c, t, answer));
    }
  }

  ghost function Performed(p: Pool, c: Config, op: Op): (r: Pool)
    requires Wf(p)
    ensures Wf(r)
  {
    match op
    case Request(t, answer) =>
      RequestKeepsWf(p, c, t, answer);
      Requested(p, c, t, answer).pool
    case Probe(at, answer) => Probed(p, 0, at, answer)
    case Refresh(urls) => Refreshed(p, urls)
  }

  /** The pool after operations one after another. */
  ghost function After(p: Pool, c: Config, ops: seq<Op>): (r: Pool)
    requires Wf(p)
    ensures Wf(r)
    decreases |ops|
  {
    if ops == [] then p else After(Performed(p, c, ops[0]), c, ops[1..])
  }

  ghost predicate Within(op: Op, from: int, to: int) {
    match op
    case Request(t, answer) =>
      && (forall j: nat, i: nat :: from <= t.scan(j)(i) <= t.sent(j))
      && (forall j: nat :: t.sent(j) <= t.reply(j) <= to)
    case Probe(at, answer) => forall j: nat :: from <= at(j) <= to
    case Refresh(urls) => true
  }

  /** The url stays pooled and never answers below 500. */
  ghost predicate Doomed(op: Op, u: Url) {
    match op
    case Request(t, answer) => !Good(answer(u))
    case Probe(at, answer) => !Good(answer(u))
    case Refresh(urls) => urls == [] || u in urls
  }

  /** When this operation sends the url a request, if it does. */
  ghost function SendsOf(p: Pool, c: Config, op: Op, u: Url): seq<int>
    requires Wf(p)
  {
    if op.Request? then
      var tried := Requested(p, c, op.t, op.answer).tried;
      if u in tried then [op.t.sent(FirstOf(tried, u))] else []
    else []
  }

  /** Operations one after another, none of which is a success for the url. */
  ghost predicate IsDoomedRun(ops: seq<Op>, clock: seq<int>, u: Url) {
    && |clock| == |ops| + 1
    && forall k :: 0 <= k < |ops| ==>
         clock[k] <= clock[k + 1] && Within(ops[k], clock[k], clock[k + 1]) && Doomed(ops[k], u)
  }

  /** When the url is sent a request during the operations. */
  ghost function Sends(p: Pool, c: Config, ops: seq<Op>, u: Url): seq<int>
    requires Wf(p)
    decreases |ops|
  {
    if ops == [] then [] else SendsOf(p, c, ops[0], u) + Sends(Performed(p, c, ops[0]), c, ops[1..], u)
  }

  /** The url is pooled, and its record fits the sends so far. */
  ghost predicate DeadIn(p: Pool, u: Url, sends: seq<int>, now: int, c: Config) {
    exists h :: Look(p.states, u) == Some(h) && Dead(h, sends, now, c)
  }

  lemma OpKeepsDead(p: Pool, c: Config, op: Op, u: Url, sends: seq<int>, from: int, to: int)
    requires c.cooldown >= 0 && Wf(p) && DeadIn(p, u, sends, from, c)
    requires Within(op, from, to) && from <= to && Doomed(op, u)
    ensures DeadIn(Performed(p, c, op), u, sends + SendsOf(p, c, op, u), to, c)
  {
    match op
    case Request(t, answer) =>
      var tried := Requested(p, c, t, answer).tried;
      var j, i := FailoverEffect(p, c, [], |p.urls|, t, answer, u, Requested(p, c, t, answer));
      if u in tried {
        FailoverProofs.EachTriedOnce(p, c, [], |p.urls|, t, answer);
        assert j == FirstOf(tried, u);
        OneMoreSend(p.states[u], sends, from, c, t.scan(j)(i), t.sent(j), t.reply(j), to);
      } else {
        assert sends + [] == sends;
      }
    case Probe(at, answer) =>
      ProbeEffect(p, 0, at, answer, u, from, to);
      assert sends + [] == sends;
    case Refresh(urls) =>
      assert sends + [] == sends;
  }

  lemma DoomedRest(ops: seq<Op>, clock: seq<int>, u: Url)
    requires IsDoomedRun(ops, clock, u) && ops != []
    ensures clock[0] <= clock[1] && Within(ops[0], clock[0], clock[1]) && Doomed(ops[0], u)
    ensures IsDoomedRun(ops[1..], clock[1..], u)
  {
  }

  lemma FirstKeepsDead(p: Pool, c: Config, ops: seq<Op>, clock: seq<int>, u: Url, sends: seq<int>) returns (q: Pool, sends': seq<int>)
    requires c.cooldown >= 0 && Wf(p) && IsDoomedRun(ops, clock, u) && ops != [] && DeadIn(p, u, sends, clock[0], c)
    ensures q == Performed(p, c, ops[0]) && sends' == sends + SendsOf(p, c, ops[0], u)
    ensures DeadIn(q, u, sends', clock[1..][0], c)
  {
    q, sends' := Performed(p, c, ops[0]), sends + SendsOf(p, c, ops[0], u);
    OpKeepsDead(p, c, ops[0], u, sends, clock[0], clock[1]);
  }

  lemma {:induction false} RunKeepsDead(p: Pool, c: Config, ops: seq<Op>, clock: seq<int>, u: Url, sends: seq<int>,
                                      sends': seq<int>, p': Pool)
    requires c.cooldown >= 0 && Wf(p) && IsDoomedRun(ops, clock, u) && DeadIn(p, u, sends, clock[0], c)
    requires sends' == sends + Sends(p, c, ops, u) && p' == After(p, c, ops)
    ensures exists now :: DeadIn(p', u, sends', now, c)
    decreases |ops|
  {
    if ops == [] {
      assert sends' == sends;
      assert DeadIn(p', u, sends', clock[0], c);
    } else {
      var q, more := FirstKeepsDead(p, c, ops, clock, u, sends);
      var last := SendsOf(p, c, ops[0], u);
      DoomedRest(ops, clock, u);
      SendsJoin(sends, last, Sends(q, c, ops[1..], u));
      RunKeepsDead(q, c, ops[1..], clock[1..], u, more, sends', p');
    }
  }

  lemma SendsJoin(a: seq<int>, b: seq<int>, rest: seq<int>)
    ensures a + b + rest == a + (b + rest)
  {
  }

  lemma BoundFromSpan(m: nat, n: nat, c: Config, span: nat)
    requires c.cooldown > 0 && m <= n && Span(n, c) <= span
    ensures m <= Threshold(c) + span / c.cooldown
  {
    Quotient(n - Threshold(c), c.cooldown, span);
  }

  lemma SpreadBound(sends: seq<int>, now: int, c: Config, from: int, span: nat)
    requires c.cooldown > 0 && Sorted(sends, now) && Spread(sends, c)
    ensures CountIn(sends, from, from + span) <= Threshold(c) + span / c.cooldown
  {
    if CountIn(sends, from, from + span) > 0 {
      var i, j := CountedStretch(sends, from, from + span, now);
      assert Span(j - i + 1, c) <= sends[j] - sends[i];
      BoundFromSpan(CountIn(sends, from, from + span), j - i + 1, c, span);
    } else {
      Quotient(0, c.cooldown, span);
    }
  }

  /** A dead upstream that stays in the pool is sent at most threshold + T / cooldown
      requests in any window of T seconds, failing probes or not. */
  lemma DeadUpstreamTraffic(p: Pool, c: Config, ops: seq<Op>, clock: seq<int>, u: Url, from: int, span: nat)
    requires c.cooldown > 0 && Wf(p) && IsDoomedRun(ops, clock, u)
    requires DeadIn(p, u, [], clock[0], c)
    ensures CountIn(Sends(p, c, ops, u), from, from + span) <= Threshold(c) + span / c.cooldown
  {
    var sends := Sends(p, c, ops, u);
    assert sends == [] + sends;
    RunKeepsDead(p, c, ops, clock, u, [], sends, After(p, c, ops));
    var now :| DeadIn(After(p, c, ops), u, sends, now, c);
    SpreadBound(sends, now, c, from, span);
  }
}
