/** A request over distinct urls gives up only after every upstream available at its start was
    tried once and failed; if it returns, so was every such upstream in front of the answering
    one in cyclic order. */
module FailoverProofs {
  import opened Options
  import opened Balancer
  import opened Rotation

  // ---------------------------------------------------------------- whatever the pool

  ghost predicate AllBad(tried: seq<Url>, answer: Url -> Reply) {
    forall u :: u in tried ==> !Good(answer(u))
  }

  /** The tried upstreams are distinct, and only the last one may have answered. */
  ghost predicate TriedOnce(r: Outcome, answer: Url -> Reply) {
    && Distinct(r.tried)
    && (r.upstream.None? ==> AllBad(r.tried, answer))
    && (r.upstream.Some? ==>
          && r.tried != [] && r.tried[|r.tried| - 1] == r.upstream.value && Good(answer(r.upstream.value))
          && forall u :: u in r.tried && u != r.upstream.value ==> !Good(answer(u)))
  }

  lemma TriedGrows(tried: seq<Url>, u: Url, answer: Url -> Reply)
    requires Distinct(tried) && AllBad(tried, answer) && u !in tried
    ensures Distinct(tried + [u]) && (forall v :: v in tried + [u] <==> v in tried || v == u)
    ensures !Good(answer(u)) ==> AllBad(tried + [u], answer)
    ensures forall p :: Good(answer(u)) ==> TriedOnce(Outcome(p, tried + [u], Some(u)), answer)
  {
  }

  lemma {:induction false} TriedStays(p: Pool, c: Config, tried: seq<Url>, left: nat, t: Times, answer: Url -> Reply, r: Outcome)
    requires InRange(p) && r == Failover(p, c, tried, left, t, answer)
    ensures tried <= r.tried && forall u :: u in tried ==> u in r.tried
    decreases left
  {
    if left > 0 {
      var (next, q) := Next(p, t.scan(|tried|), c);
      if next.Some? && next.value !in tried {
        var u, left' := next.value, left - 1;
        FailoverStep(p, c, tried, left, left', t, answer, u, q, r);
        if !Good(answer(u)) {
          TriedStays(Recorded(q, u, AfterFailure(q.states[u], t.reply(|tried|), c)), c, tried + [u], left', t, answer, r);
        }
      }
    }
  }

  lemma {:induction false} OnlyTheLastAnswers(p: Pool, c: Config, tried: seq<Url>, left: nat, t: Times, answer: Url -> Reply, r: Outcome)
    requires InRange(p) && Distinct(tried) && AllBad(tried, answer) && r == Failover(p, c, tried, left, t, answer)
    ensures TriedOnce(r, answer)
    decreases left
  {
    if left > 0 {
      var (next, q) := Next(p, t.scan(|tried|), c);
      if next.Some? && next.value !in tried {
        var u, left' := next.value, left - 1;
        FailoverStep(p, c, tried, left, left', t, answer, u, q, r);
        TriedGrows(tried, u, answer);
        if !Good(answer(u)) {
          OnlyTheLastAnswers(Recorded(q, u, AfterFailure(q.states[u], t.reply(|tried|), c)), c, tried + [u], left', t, answer, r);
        }
      }
    }
  }

  lemma EachTriedOnce(p: Pool, c: Config, tried: seq<Url>, left: nat, t: Times, answer: Url -> Reply)
    requires InRange(p) && Distinct(tried) && AllBad(tried, answer)
    ensures var r := Failover(p, c, tried, left, t, answer);
            TriedOnce(r, answer) && forall u :: u in tried ==> u in r.tried
  {
    var r := Failover(p, c, tried, left, t, answer);
    OnlyTheLastAnswers(p, c, tried, left, t, answer, r);
    TriedStays(p, c, tried, left, t, answer, r);
  }

  // ---------------------------------------------------------------- completeness

  /** Every url of the segment was tried, or was not available at the start. */
  ghost predicate Settled(segment: seq<Url>, states: map<Url, Health>, start: int, c: Config, tried: seq<Url>) {
    forall u :: u in segment && Up(states, u, start, c) ==> u in tried
  }

  /** All readings of a scan are at or after the start of the request. */
  ghost predicate From(start: int, now: nat -> int) {
    forall i: nat :: start <= now(i)
  }

  lemma StartIsFirst(t: Times, j: nat)
    requires Ordered(t)
    ensures From(t.scan(0)(0), t.scan(j))
  {
    forall i: nat ensures t.scan(0)(0) <= t.scan(j)(i) {
      assert j > 0 ==> t.reply(0) <= t.scan(j)(i);
      assert t.scan(0)(0) <= t.sent(0) <= t.reply(0);
    }
  }

  /** A request in progress: `pos` urls of the cyclic order are behind the cursor. */
  ghost predicate Midway(p0: Pool, c: Config, start: int, p: Pool, tried: seq<Url>, pos: nat)
    requires InRange(p0)
  {
    && InRange(p) && p.urls == p0.urls && |tried| <= pos <= |p0.urls|
    && Order(p) == Rotate(Order(p0), pos)
    && (forall u :: u in tried ==> u in Order(p0)[..pos])
    && Settled(Order(p0)[..pos], p0.states, start, c, tried)
    && (forall u :: u !in tried ==> Look(p.states, u) == Look(p0.states, u))
  }

  lemma RotateSplit(order: seq<Url>, pos: nat, k: nat)
    requires pos + k <= |order|
    ensures Rotate(order, pos)[..k] == order[pos..pos + k]
    ensures pos + k < |order| ==> Rotate(order, pos)[k] == order[pos + k]
  {
  }

  lemma RotateTwice(order: seq<Url>, pos: nat, k: nat)
    requires pos + k <= |order|
    ensures Rotate(Rotate(order, pos), k) == Rotate(order, pos + k)
  {
  }

  lemma DistinctSplit(order: seq<Url>, pos: nat)
    requires Distinct(order) && pos <= |order|
    ensures forall u :: u in order[pos..] ==> u !in order[..pos]
  {
  }

  lemma SettledOn(order: seq<Url>, pos: nat, k: nat, states: map<Url, Health>, start: int, c: Config, tried: seq<Url>)
    requires pos + k <= |order| && Settled(order[..pos], states, start, c, tried)
    requires forall u :: u in order[pos..pos + k] ==> !Up(states, u, start, c)
    ensures Settled(order[..pos + k], states, start, c, tried)
  {
    assert order[..pos + k] == order[..pos] + order[pos..pos + k];
  }

  /** What is unavailable to a later scan and untouched since was unavailable at the start. */
  lemma ScanFromStart(p0: Pool, c: Config, start: int, now: nat -> int, p: Pool, tried: seq<Url>, pos: nat, k: nat)
    requires InRange(p0) && Distinct(p0.urls) && From(start, now) && Midway(p0, c, start, p, tried, pos)
    requires pos + k <= |p0.urls| && k <= Scan(Order(p), p.states, now, c)
    ensures forall u :: u in Order(p0)[pos..pos + k] ==> u !in tried && !Up(p0.states, u, start, c)
    ensures Settled(Order(p0)[..pos + k], p0.states, start, c, tried)
  {
    var order := Order(p0);
    OrderHasPool(p0);
    RotateSplit(order, pos, k);
    DistinctSplit(order, pos);
    ScanFinds(Order(p), p.states, now, c);
    forall u | u in order[pos..pos + k] ensures u !in tried && !Up(p0.states, u, start, c) {
      var j :| 0 <= j < k && order[pos..pos + k][j] == u;
      assert u == order[pos..][j] == Order(p)[j];
      assert !Up(p.states, Order(p)[j], now(j), c) && start <= now(j);
      assert Look(p.states, u) == Look(p0.states, u);
    }
    SettledOn(order, pos, k, p0.states, start, c, tried);
  }

  lemma PrefixGrows(order: seq<Url>, pos: nat, k: nat, tried: seq<Url>)
    requires pos + k < |order| && forall u :: u in tried ==> u in order[..pos]
    ensures order[pos + k] in order[..pos + k + 1] && forall u :: u in tried ==> u in order[..pos + k + 1]
  {
  }

  lemma SettledByTrying(order: seq<Url>, k: nat, states: map<Url, Health>, start: int, c: Config, tried: seq<Url>)
    requires k < |order| && Settled(order[..k], states, start, c, tried)
    ensures Settled(order[..k + 1], states, start, c, tried + [order[k]])
  {
    assert order[..k + 1] == order[..k] + [order[k]];
  }

  lemma SettledAlso(segment: seq<Url>, states: map<Url, Health>, start: int, c: Config, tried: seq<Url>, u: Url)
    requires Settled(segment, states, start, c, tried)
    ensures Settled(segment, states, start, c, tried + [u])
  {
  }

  lemma NextTakes(p: Pool, now: nat -> int, c: Config, k: nat)
    requires InRange(p) && k == Scan(Order(p), p.states, now, c) < |p.urls|
    ensures Next(p, now, c) == (Some(Order(p)[k]), p.(rr := Slot(p.rr + k + 1, |p.urls|)))
    ensures Order(Next(p, now, c).1) == Rotate(Order(p), k + 1)
  {
    OrderAfter(p, k);
  }

  lemma NotTriedAhead(order: seq<Url>, pos: nat, k: nat, tried: seq<Url>)
    requires Distinct(order) && pos + k < |order| && forall u :: u in tried ==> u in order[..pos]
    ensures order[pos + k] !in tried
  {
    DistinctSplit(order, pos);
    assert order[pos + k] == order[pos..][k];
  }

  lemma NextInOrder(p0: Pool, c: Config, start: int, now: nat -> int, p: Pool, tried: seq<Url>, pos: nat, k: nat)
    requires InRange(p0) && Distinct(p0.urls) && From(start, now) && Midway(p0, c, start, p, tried, pos)
    requires k == Scan(Order(p), p.states, now, c) && pos + k < |p0.urls|
    ensures Next(p, now, c) == (Some(Order(p0)[pos + k]), p.(rr := Slot(p.rr + k + 1, |p.urls|)))
    ensures Order(Next(p, now, c).1) == Rotate(Order(p0), pos + k + 1)
    ensures Order(p0)[pos + k] !in tried
  {
    var order := Order(p0);
    NextTakes(p, now, c, k);
    RotateSplit(order, pos, k);
    assert Order(p)[k] == order[pos + k];
    RotateTwice(order, pos, k + 1);
    assert order[pos + k] !in tried by {
      OrderHasPool(p0);
      NotTriedAhead(order, pos, k, tried);
    }
  }

  /** One more attempt moves the cursor over the url tried. */
  lemma StepsOn(p0: Pool, c: Config, start: int, now: nat -> int, p: Pool, tried: seq<Url>, pos: nat, k: nat, h: Health)
    requires InRange(p0) && Distinct(p0.urls) && From(start, now) && Midway(p0, c, start, p, tried, pos)
    requires k == Scan(Order(p), p.states, now, c) && pos + k < |p0.urls|
    ensures Midway(p0, c, start, Recorded(Next(p, now, c).1, Order(p0)[pos + k], h), tried + [Order(p0)[pos + k]], pos + k + 1)
  {
    NextInOrder(p0, c, start, now, p, tried, pos, k);
    ScanFromStart(p0, c, start, now, p, tried, pos, k);
    PrefixGrows(Order(p0), pos, k, tried);
    SettledByTrying(Order(p0), pos + k, p0.states, start, c, tried);
    var q := Recorded(Next(p, now, c).1, Order(p0)[pos + k], h);
    assert Order(q) == Order(Next(p, now, c).1);
  }

  lemma NextInPool(p: Pool, now: nat -> int, c: Config)
    requires InRange(p)
    ensures Next(p, now, c).0.Some? ==> Next(p, now, c).0.value in p.urls
  {
    OrderHasPool(p);
  }

  lemma {:induction false} AnswererInPool(p: Pool, c: Config, tried: seq<Url>, left: nat, t: Times, answer: Url -> Reply, r: Outcome)
    requires InRange(p) && r == Failover(p, c, tried, left, t, answer)
    ensures r.upstream.Some? ==> r.upstream.value in p.urls
    decreases left
  {
    if left > 0 {
      var (next, q) := Next(p, t.scan(|tried|), c);
      if next.Some? && next.value !in tried {
        var u, left' := next.value, left - 1;
        NextInPool(p, t.scan(|tried|), c);
        FailoverStep(p, c, tried, left, left', t, answer, u, q, r);
        if !Good(answer(u)) {
          AnswererInPool(Recorded(q, u, AfterFailure(q.states[u], t.reply(|tried|), c)), c, tried + [u], left', t, answer, r);
        }
      }
    }
  }

  /** Nothing available at the start was missed: anywhere if nobody answered, and in front of
      the answering upstream, whose place is `m`; if the request went on past that place and
      came back to it, nothing was missed anywhere. */
  ghost predicate NothingMissed(p0: Pool, c: Config, start: int, r: Outcome, m: nat)
    requires InRange(p0)
  {
    var order := Order(p0);
    && (r.upstream.None? ==> Settled(order, p0.states, start, c, r.tried))
    && (r.upstream.Some? ==>
          && m < |order| && order[m] == r.upstream.value
          && Settled(order[..m], p0.states, start, c, r.tried)
          && (Settled(order, p0.states, start, c, r.tried) || Within(r.tried, order[..m + 1])))
  }

  ghost predicate Within(tried: seq<Url>, segment: seq<Url>) {
    forall u :: u in tried ==> u in segment
  }

  lemma SettledPrefix(segment: seq<Url>, m: nat, states: map<Url, Health>, start: int, c: Config, tried: seq<Url>)
    requires m <= |segment| && Settled(segment, states, start, c, tried)
    ensures Settled(segment[..m], states, start, c, tried)
  {
    assert forall u :: u in segment[..m] ==> u in segment;
  }

  lemma SettledStays(segment: seq<Url>, states: map<Url, Health>, start: int, c: Config, tried: seq<Url>, more: seq<Url>)
    requires Settled(segment, states, start, c, tried) && forall u :: u in tried ==> u in more
    ensures Settled(segment, states, start, c, more)
  {
  }

  /** Once everything is settled, nothing the request still does can miss anything. */
  lemma SettledMissesNothing(p0: Pool, c: Config, start: int, tried: seq<Url>, r: Outcome) returns (m: nat)
    requires InRange(p0) && Settled(Order(p0), p0.states, start, c, tried)
    requires forall u :: u in tried ==> u in r.tried
    requires r.upstream.Some? ==> r.upstream.value in p0.urls
    ensures NothingMissed(p0, c, start, r, m)
  {
    m := 0;
    SettledStays(Order(p0), p0.states, start, c, tried, r.tried);
    if r.upstream.Some? {
      OrderHasPool(p0);
      m :| 0 <= m < |Order(p0)| && Order(p0)[m] == r.upstream.value;
      SettledPrefix(Order(p0), m, p0.states, start, c, r.tried);
    }
  }

  lemma AnswerMissesNothing(p0: Pool, c: Config, start: int, now: nat -> int, p: Pool, tried: seq<Url>, pos: nat, k: nat, q: Pool)
    requires InRange(p0) && Distinct(p0.urls) && From(start, now) && Midway(p0, c, start, p, tried, pos)
    requires k == Scan(Order(p), p.states, now, c) && pos + k < |p0.urls|
    ensures NothingMissed(p0, c, start, Outcome(q, tried + [Order(p0)[pos + k]], Some(Order(p0)[pos + k])), pos + k)
  {
    ScanFromStart(p0, c, start, now, p, tried, pos, k);
    SettledAlso(Order(p0)[..pos + k], p0.states, start, c, tried, Order(p0)[pos + k]);
    PrefixGrows(Order(p0), pos, k, tried);
  }

  /** A request midway that will end in `r`. */
  ghost predicate Running(p0: Pool, c: Config, t: Times, answer: Url -> Reply, p: Pool, tried: seq<Url>, pos: nat, left: nat, r: Outcome)
    requires InRange(p0)
  {
    && Midway(p0, c, t.scan(0)(0), p, tried, pos) && Distinct(tried) && AllBad(tried, answer)
    && left == |p0.urls| - |tried| && r == Failover(p, c, tried, left, t, answer)
  }

  /** A request midway, unfolded once in terms of the cyclic order at its start. */
  lemma StepToUrl(p0: Pool, c: Config, t: Times, answer: Url -> Reply, p: Pool, tried: seq<Url>, pos: nat, left: nat, k: nat, r: Outcome)
    returns (q: Pool, left': nat)
    requires InRange(p0) && Distinct(p0.urls) && From(t.scan(0)(0), t.scan(|tried|)) && left > 0
    requires Running(p0, c, t, answer, p, tried, pos, left, r)
    requires k == Scan(Order(p), p.states, t.scan(|tried|), c) && pos + k < |p0.urls|
    ensures q == Next(p, t.scan(|tried|), c).1 && left == left' + 1
    ensures var u := Order(p0)[pos + k];
            && u in p.states && u !in tried
            && r == if Good(answer(u)) then Outcome(Recorded(q, u, FRESH), tried + [u], Some(u))
                    else Failover(Recorded(q, u, AfterFailure(p.states[u], t.reply(|tried|), c)), c, tried + [u], left', t, answer)
  {
    var now := t.scan(|tried|);
    q, left' := Next(p, now, c).1, left - 1;
    NextInOrder(p0, c, t.scan(0)(0), now, p, tried, pos, k);
    FailoverStep(p, c, tried, left, left', t, answer, Order(p0)[pos + k], q, r);
  }

  /** After a failed attempt the request is midway again, one attempt shorter. */
  lemma FailureMidway(p0: Pool, c: Config, t: Times, answer: Url -> Reply, p: Pool, tried: seq<Url>, pos: nat, left: nat, k: nat, r: Outcome)
    returns (p': Pool, tried': seq<Url>, left': nat)
    requires InRange(p0) && Distinct(p0.urls) && From(t.scan(0)(0), t.scan(|tried|)) && left > 0
    requires Running(p0, c, t, answer, p, tried, pos, left, r)
    requires k == Scan(Order(p), p.states, t.scan(|tried|), c) && pos + k < |p0.urls|
    requires !Good(answer(Order(p0)[pos + k]))
    ensures Running(p0, c, t, answer, p', tried', pos + k + 1, left', r) && left' < left
  {
    var u, now := Order(p0)[pos + k], t.scan(|tried|);
    var q, rest := StepToUrl(p0, c, t, answer, p, tried, pos, left, k, r);
    var h := AfterFailure(p.states[u], t.reply(|tried|), c);
    StepsOn(p0, c, t.scan(0)(0), now, p, tried, pos, k, h);
    TriedGrows(tried, u, answer);
    p', tried', left' := Recorded(q, u, h), tried + [u], rest;
  }

  /** Once the attempts are used up or the rest of the order is unavailable, all is settled. */
  lemma SettledAtEnd(p0: Pool, c: Config, start: int, now: nat -> int, p: Pool, tried: seq<Url>, pos: nat)
    requires InRange(p0) && Distinct(p0.urls) && From(start, now) && Midway(p0, c, start, p, tried, pos)
    requires |tried| == |p0.urls| || pos + Scan(Order(p), p.states, now, c) >= |p0.urls|
    ensures Settled(Order(p0), p0.states, start, c, tried)
  {
    if |tried| == |p0.urls| {
      assert Order(p0)[..pos] == Order(p0);
    } else {
      ScanFromStart(p0, c, start, now, p, tried, pos, |p0.urls| - pos);
      assert Order(p0)[..|p0.urls|] == Order(p0);
    }
  }

  lemma EndsWithin(p: Pool, c: Config, tried: seq<Url>, left: nat, t: Times, answer: Url -> Reply, r: Outcome)
    requires InRange(p) && r == Failover(p, c, tried, left, t, answer)
    ensures (forall u :: u in tried ==> u in r.tried) && (r.upstream.Some? ==> r.upstream.value in p.urls)
  {
    TriedStays(p, c, tried, left, t, answer, r);
    AnswererInPool(p, c, tried, left, t, answer, r);
  }

  lemma NothingLeft(p0: Pool, c: Config, t: Times, answer: Url -> Reply, p: Pool, tried: seq<Url>, pos: nat, left: nat, r: Outcome)
    returns (m: nat)
    requires InRange(p0) && Distinct(p0.urls) && From(t.scan(0)(0), t.scan(|tried|))
    requires Running(p0, c, t, answer, p, tried, pos, left, r)
    requires left == 0 || pos + Scan(Order(p), p.states, t.scan(|tried|), c) >= |p0.urls|
    ensures NothingMissed(p0, c, t.scan(0)(0), r, m)
  {
    SettledAtEnd(p0, c, t.scan(0)(0), t.scan(|tried|), p, tried, pos);
    EndsWithin(p, c, tried, left, t, answer, r);
    m := SettledMissesNothing(p0, c, t.scan(0)(0), tried, r);
  }

  lemma GoodAnswer(p0: Pool, c: Config, t: Times, answer: Url -> Reply, p: Pool, tried: seq<Url>, pos: nat, left: nat, k: nat, r: Outcome)
    requires InRange(p0) && Distinct(p0.urls) && From(t.scan(0)(0), t.scan(|tried|)) && left > 0
    requires Running(p0, c, t, answer, p, tried, pos, left, r)
    requires k == Scan(Order(p), p.states, t.scan(|tried|), c) && pos + k < |p0.urls|
    requires Good(answer(Order(p0)[pos + k]))
    ensures NothingMissed(p0, c, t.scan(0)(0), r, pos + k)
  {
    var q, rest := StepToUrl(p0, c, t, answer, p, tried, pos, left, k, r);
    AnswerMissesNothing(p0, c, t.scan(0)(0), t.scan(|tried|), p, tried, pos, k, r.pool);
  }

  lemma {:induction false} CompleteFrom(p0: Pool, c: Config, t: Times, answer: Url -> Reply, p: Pool, tried: seq<Url>, pos: nat, left: nat, r: Outcome)
    returns (m: nat)
    requires InRange(p0) && Ordered(t) && Distinct(p0.urls)
    requires Running(p0, c, t, answer, p, tried, pos, left, r)
    ensures NothingMissed(p0, c, t.scan(0)(0), r, m)
    decreases left
  {
    var now := t.scan(|tried|);
    assert From(t.scan(0)(0), now);
    var k := Scan(Order(p), p.states, now, c);
    if left == 0 || pos + k >= |p0.urls| {
      m := NothingLeft(p0, c, t, answer, p, tried, pos, left, r);
    } else if Good(answer(Order(p0)[pos + k])) {
      m := pos + k;
      GoodAnswer(p0, c, t, answer, p, tried, pos, left, k, r);
    } else {
      var p', tried', left' := FailureMidway(p0, c, t, answer, p, tried, pos, left, k, r);
      m := CompleteFrom(p0, c, t, answer, p', tried', pos + k + 1, left', r);
    }
  }

  /** A request over distinct urls: nobody is tried twice; when it raises, every upstream
      available at its start was tried and failed; when it returns, so were all those in
      front of the answering one in cyclic order, and if any url behind it was tried then all
      those available at the start were.  An answering upstream that was available at the
      start is thus the first of those that answers. */
  lemma FailoverIsComplete(p: Pool, c: Config, t: Times, answer: Url -> Reply) returns (m: nat)
    requires InRange(p) && Ordered(t) && Distinct(p.urls)
    ensures var r, order, start := Requested(p, c, t, answer), Order(p), t.scan(0)(0);
            && TriedOnce(r, answer)
            && (r.upstream.None? ==>
                  forall u :: u in p.urls && Up(p.states, u, start, c) ==> u in r.tried && !Good(answer(u)))
            && (r.upstream.Some? ==>
                  && m < |order| && order[m] == r.upstream.value && Good(answer(order[m]))
                  && (forall u :: u in order[..m] && Up(p.states, u, start, c) ==> u in r.tried && !Good(answer(u)))
                  && ((exists u :: u in order[m + 1..] && u in r.tried) ==>
                        forall u :: u in p.urls && Up(p.states, u, start, c) ==> u in r.tried))
  {
    EachTriedOnce(p, c, [], |p.urls|, t, answer);
    assert Order(p) == Rotate(Order(p), 0);
    var r, order := Requested(p, c, t, answer), Order(p);
    m := CompleteFrom(p, c, t, answer, p, [], 0, |p.urls|, r);
    OrderHasPool(p);
    if r.upstream.Some? {
      assert order[m] == order[m..][0];
      DistinctSplit(order, m);
      DistinctSplit(order, m + 1);
    }
  }

  /** If any upstream available at the start would answer, the request succeeds. */
  lemma SomeoneAnswers(p: Pool, c: Config, t: Times, answer: Url -> Reply, u: Url)
    requires InRange(p) && Ordered(t) && Distinct(p.urls)
    requires u in p.urls && Up(p.states, u, t.scan(0)(0), c)
    requires answer(u).Status? && answer(u).code < 500
    ensures Requested(p, c, t, answer).upstream.Some?
  {
    var m := FailoverIsComplete(p, c, t, answer);
  }
}
