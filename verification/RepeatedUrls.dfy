/** Failover over pools that list a url more than once: exactly when a request can give up
    on an upstream that was available at its start and would answer. */
module RepeatedUrls {
  import opened Options
  import opened Balancer
  import opened Rotation
  import opened FailoverProofs

  /** Available now, or after a cooldown if nothing else is recorded. */
  predicate Usable(states: map<Url, Health>, u: Url) {
    u in states && (states[u].healthy || states[u].downSince.Some?)
  }

  /** The url at `v` comes for the first time, after the one at `r` came for the second.  The
      first position is looked at when the request starts, the others possibly later. */
  ghost predicate LateAt(order: seq<Url>, states: map<Url, Health>, start: int, c: Config, b: nat, r: nat, v: nat) {
    && b < r < v < |order|
    && order[b] == order[r] && Usable(states, order[r]) && (b == 0 ==> Up(states, order[0], start, c))
    && Up(states, order[v], start, c) && order[v] !in order[..v]
  }

  ghost predicate LateUrl(p: Pool, c: Config, start: int)
    requires InRange(p)
  {
    exists b, r, v :: LateAt(Order(p), p.states, start, c, b, r, v)
  }

  ghost predicate Misses(p: Pool, c: Config, start: int, t: Times, answer: Url -> Reply, u: Url)
    requires InRange(p)
  {
    && Ordered(t) && t.scan(0)(0) == start
    && u in p.urls && Up(p.states, u, start, c)
    && answer(u).Status? && answer(u).code < 500
    && Requested(p, c, t, answer).upstream.None?
  }

  /** Some clock and some replies make the request give up on an upstream that would answer. */
  ghost predicate CanMiss(p: Pool, c: Config, start: int)
    requires InRange(p)
  {
    exists t, answer, u :: Misses(p, c, start, t, answer, u)
  }

  // ---------------------------------------------------------------- giving up needs a late url

  /** The url was taken at position `b`. */
  ghost predicate TakenAt(order: seq<Url>, states: map<Url, Health>, start: int, c: Config, u: Url, b: nat, pos: nat) {
    b < pos <= |order| && order[b] == u && Usable(states, u) && (b == 0 ==> Up(states, u, start, c))
  }

  ghost predicate TakenBefore(order: seq<Url>, states: map<Url, Health>, start: int, c: Config, u: Url, pos: nat) {
    exists b :: TakenAt(order, states, start, c, u, b, pos)
  }

  ghost predicate Taken(order: seq<Url>, states: map<Url, Health>, start: int, c: Config, tried: seq<Url>, pos: nat) {
    forall u :: u in tried ==> TakenBefore(order, states, start, c, u, pos)
  }

  /** A request that has not come to the url at `v`. */
  ghost predicate Heading(p0: Pool, c: Config, start: int, p: Pool, tried: seq<Url>, pos: nat, v: nat)
    requires InRange(p0)
  {
    var order := Order(p0);
    && |tried| <= pos <= v < |order|
    && InRange(p) && p.urls == p0.urls && Order(p) == Rotate(order, pos)
    && Taken(order, p0.states, start, c, tried, pos)
    && (forall u :: u !in tried ==> Look(p.states, u) == Look(p0.states, u))
    && order[v] !in tried && order[v] !in order[..v] && Up(p0.states, order[v], start, c)
  }

  lemma TakenMore(order: seq<Url>, states: map<Url, Health>, start: int, c: Config, tried: seq<Url>, pos: nat, q: nat)
    requires pos <= q < |order| && Taken(order, states, start, c, tried, pos)
    requires Usable(states, order[q]) && (q == 0 ==> Up(states, order[0], start, c))
    ensures Taken(order, states, start, c, tried + [order[q]], q + 1)
  {
    forall u | u in tried + [order[q]] ensures TakenBefore(order, states, start, c, u, q + 1) {
      if u in tried {
        var b :| TakenAt(order, states, start, c, u, b, pos);
        assert TakenAt(order, states, start, c, u, b, q + 1);
      } else {
        assert TakenAt(order, states, start, c, u, q, q + 1);
      }
    }
  }

  /** The scan does not pass an untouched url that was available at the start. */
  lemma ScanStopsBy(p0: Pool, c: Config, start: int, now: nat -> int, p: Pool, tried: seq<Url>, pos: nat, v: nat)
    requires InRange(p0) && From(start, now) && Heading(p0, c, start, p, tried, pos, v)
    ensures pos + Scan(Order(p), p.states, now, c) <= v
  {
    ScanFinds(Order(p), p.states, now, c);
    var u := Order(p0)[v];
    assert Order(p)[v - pos] == u;
    assert Look(p.states, u) == Look(p0.states, u);
    assert Up(p.states, u, now(v - pos), c) by { assert start <= now(v - pos); }
  }

  lemma RotatedAt(p0: Pool, p: Pool, pos: nat, k: nat)
    requires InRange(p0) && InRange(p) && p.urls == p0.urls && pos <= |p0.urls| && Order(p) == Rotate(Order(p0), pos)
    requires pos + k < |p0.urls|
    ensures Order(p)[k] == Order(p0)[pos + k]
    ensures Rotate(Order(p), k + 1) == Rotate(Order(p0), pos + k + 1)
  {
    RotateSplit(Order(p0), pos, k);
    RotateTwice(Order(p0), pos, k + 1);
  }

  /** The url a scan takes, in terms of the order at the start of the request. */
  lemma ScanTakes(p0: Pool, p: Pool, now: nat -> int, c: Config, pos: nat, k: nat) returns (next: Pool)
    requires InRange(p0) && InRange(p) && p.urls == p0.urls && pos <= |p0.urls| && Order(p) == Rotate(Order(p0), pos)
    requires k == Scan(Order(p), p.states, now, c) && pos + k < |p0.urls|
    ensures Next(p, now, c) == (Some(Order(p0)[pos + k]), next)
    ensures InRange(next) && next.urls == p0.urls && next.states == p.states && Order(next) == Rotate(Order(p0), pos + k + 1)
    ensures Up(p.states, Order(p0)[pos + k], now(k), c)
  {
    ScanFinds(Order(p), p.states, now, c);
    NextTakes(p, now, c, k);
    RotatedAt(p0, p, pos, k);
    next := Next(p, now, c).1;
  }

  /** What the next scan takes in front of `v`. */
  lemma HeadingTakes(p0: Pool, c: Config, start: int, now: nat -> int, p: Pool, tried: seq<Url>, pos: nat, v: nat)
    returns (q: nat, next: Pool)
    requires InRange(p0) && From(start, now) && Heading(p0, c, start, p, tried, pos, v)
    requires tried == [] ==> now(0) == start
    ensures pos <= q <= v && Next(p, now, c) == (Some(Order(p0)[q]), next)
    ensures InRange(next) && next.urls == p0.urls && next.states == p.states && Order(next) == Rotate(Order(p0), q + 1)
    ensures Order(p0)[q] in p.states
    ensures Order(p0)[q] !in tried ==>
              Usable(p0.states, Order(p0)[q]) && (q == 0 ==> Up(p0.states, Order(p0)[0], start, c))
  {
    var k := Scan(Order(p), p.states, now, c);
    ScanStopsBy(p0, c, start, now, p, tried, pos, v);
    q := pos + k;
    next := ScanTakes(p0, p, now, c, pos, k);
    var u := Order(p0)[q];
    assert u !in tried ==> Look(p.states, u) == Look(p0.states, u);
  }

  lemma HeadingOn(p0: Pool, c: Config, start: int, p: Pool, tried: seq<Url>, pos: nat, v: nat, q: nat, next: Pool, h: Health)
    requires InRange(p0) && Heading(p0, c, start, p, tried, pos, v) && pos <= q < v
    requires InRange(next) && next.urls == p0.urls && next.states == p.states && Order(next) == Rotate(Order(p0), q + 1)
    requires Usable(p0.states, Order(p0)[q]) && (q == 0 ==> Up(p0.states, Order(p0)[0], start, c))
    ensures Heading(p0, c, start, Recorded(next, Order(p0)[q], h), tried + [Order(p0)[q]], q + 1, v)
  {
    var order := Order(p0);
    TakenMore(order, p0.states, start, c, tried, pos, q);
    assert order[q] in order[..v];
    assert Order(Recorded(next, order[q], h)) == Order(next);
  }

  /** Breaking off at a url taken before leaves the url at `v` late. */
  lemma BreakIsLate(p0: Pool, c: Config, start: int, tried: seq<Url>, pos: nat, v: nat, q: nat)
    requires InRange(p0) && pos <= q < v < |p0.urls| && Order(p0)[q] in tried
    requires Taken(Order(p0), p0.states, start, c, tried, pos)
    requires Up(p0.states, Order(p0)[v], start, c) && Order(p0)[v] !in Order(p0)[..v]
    ensures LateUrl(p0, c, start)
  {
    var order := Order(p0);
    var b :| TakenAt(order, p0.states, start, c, order[q], b, pos);
    assert LateAt(order, p0.states, start, c, b, q, v);
  }

  /** A request, at `p` after trying `tried`, that will raise without trying the url at `v`. */
  ghost predicate Midst(p0: Pool, c: Config, t: Times, answer: Url -> Reply, p: Pool, tried: seq<Url>,
                        pos: nat, left: nat, v: nat, r: Outcome)
    requires InRange(p0)
  {
    && Heading(p0, c, t.scan(0)(0), p, tried, pos, v) && left == |p0.urls| - |tried|
    && r == Failover(p, c, tried, left, t, answer)
    && r.upstream.None? && Order(p0)[v] !in r.tried
  }

  ghost predicate Ongoing(p0: Pool, c: Config, t: Times, answer: Url -> Reply, left: nat, v: nat, r: Outcome)
    requires InRange(p0)
  {
    exists p, tried, pos :: Midst(p0, c, t, answer, p, tried, pos, left, v, r)
  }

  lemma MidstTakes(p0: Pool, c: Config, t: Times, answer: Url -> Reply, p: Pool, tried: seq<Url>,
                   pos: nat, left: nat, left': nat, v: nat, r: Outcome, q: nat, next: Pool)
    requires InRange(p0) && Midst(p0, c, t, answer, p, tried, pos, left, v, r) && left == left' + 1
    requires pos <= q <= v && Next(p, t.scan(|tried|), c) == (Some(Order(p0)[q]), next)
    requires InRange(next) && next.urls == p0.urls && next.states == p.states && Order(next) == Rotate(Order(p0), q + 1)
    requires Order(p0)[q] in p.states && Order(p0)[q] !in tried
    requires Usable(p0.states, Order(p0)[q]) && (q == 0 ==> Up(p0.states, Order(p0)[0], t.scan(0)(0), c))
    ensures Ongoing(p0, c, t, answer, left', v, r)
  {
    var u := Order(p0)[q];
    var h := AfterFailure(p.states[u], t.reply(|tried|), c);
    FailoverStep(p, c, tried, left, left', t, answer, u, next, r);
    var p', tried' := Recorded(next, u, h), tried + [u];
    if q == v {
      TriedStays(p', c, tried', left', t, answer, r);
      assert false;
    } else {
      HeadingOn(p0, c, t.scan(0)(0), p, tried, pos, v, q, next, h);
      assert Midst(p0, c, t, answer, p', tried', q + 1, left', v, r);
    }
  }

  lemma OngoingStep(p0: Pool, c: Config, t: Times, answer: Url -> Reply, left: nat, v: nat, r: Outcome) returns (left': nat)
    requires InRange(p0) && Ordered(t) && Ongoing(p0, c, t, answer, left, v, r)
    ensures LateUrl(p0, c, t.scan(0)(0)) || (Ongoing(p0, c, t, answer, left', v, r) && left' < left)
  {
    var p, tried, pos :| Midst(p0, c, t, answer, p, tried, pos, left, v, r);
    left' := left - 1;
    StartIsFirst(t, |tried|);
    var q, next := HeadingTakes(p0, c, t.scan(0)(0), t.scan(|tried|), p, tried, pos, v);
    if Order(p0)[q] in tried {
      BreakIsLate(p0, c, t.scan(0)(0), tried, pos, v, q);
    } else {
      MidstTakes(p0, c, t, answer, p, tried, pos, left, left', v, r, q, next);
    }
  }

  lemma {:induction false} UntriedIsLate(p0: Pool, c: Config, t: Times, answer: Url -> Reply, left: nat, v: nat, r: Outcome)
    requires InRange(p0) && Ordered(t) && Ongoing(p0, c, t, answer, left, v, r)
    ensures LateUrl(p0, c, t.scan(0)(0))
    decreases left
  {
    var left' := OngoingStep(p0, c, t, answer, left, v, r);
    if !LateUrl(p0, c, t.scan(0)(0)) {
      UntriedIsLate(p0, c, t, answer, left', v, r);
    }
  }

  /** Without a late url a request that raises has tried every upstream available at its
      start, and all of them failed. */
  lemma RaisesOnlyAfterAll(p: Pool, c: Config, t: Times, answer: Url -> Reply, u: Url)
    requires InRange(p) && Ordered(t) && !LateUrl(p, c, t.scan(0)(0))
    requires Requested(p, c, t, answer).upstream.None?
    requires u in p.urls && Up(p.states, u, t.scan(0)(0), c)
    ensures u in Requested(p, c, t, answer).tried && !Good(answer(u))
  {
    var r := Requested(p, c, t, answer);
    EachTriedOnce(p, c, [], |p.urls|, t, answer);
    if u !in r.tried {
      OrderHasPool(p);
      var v := FirstOf(Order(p), u);
      assert Order(p) == Rotate(Order(p), 0);
      assert Midst(p, c, t, answer, p, [], 0, |p.urls|, v, r);
      UntriedIsLate(p, c, t, answer, |p.urls|, v, r);
    }
  }

  // ---------------------------------------------------------------- a late url can be missed

  /** A time by which every usable url of the order is available, unless recorded again. */
  function Ready(order: seq<Url>, states: map<Url, Health>, start: int, c: Config): int {
    if order == [] then start + Max(0, c.cooldown)
    else
      var u, rest := order[0], Ready(order[1..], states, start, c);
      if u in states && states[u].downSince.Some? then Max(rest, states[u].downSince.value + c.cooldown) else rest
  }

  lemma {:induction false} ReadyThen(order: seq<Url>, states: map<Url, Health>, start: int, c: Config, u: Url, at: int)
    requires Ready(order, states, start, c) <= at
    ensures start + Max(0, c.cooldown) <= at
    ensures u in order && Usable(states, u) ==> Up(states, u, at, c)
  {
    if order != [] {
      ReadyThen(order[1..], states, start, c, u, at);
      assert u in order ==> u == order[0] || u in order[1..];
    }
  }

  /** Attempts far enough apart for every cooldown to end in between. */
  ghost predicate Slow(t: Times, start: int, ready: int, c: Config) {
    && Ordered(t) && t.scan(0)(0) == start && start + Max(0, c.cooldown) <= ready
    && (forall j: nat, i: nat :: j > 0 || i > 0 ==> ready <= t.scan(j)(i))
    && (forall j: nat, k: nat, i: nat :: j < k ==> t.reply(j) + Max(0, c.cooldown) <= t.scan(k)(i))
  }

  function Tick(ready: int, gap: nat, j: nat): int {
    if j == 0 then ready else Tick(ready, gap, j - 1) + gap
  }

  lemma {:induction false} TicksApart(ready: int, gap: nat, j: nat, k: nat)
    requires j < k
    ensures ready <= Tick(ready, gap, j) && Tick(ready, gap, j) + gap <= Tick(ready, gap, k)
  {
    if j < k - 1 {
      TicksApart(ready, gap, j, k - 1);
    } else if j > 0 {
      TicksApart(ready, gap, j - 1, j);
    }
  }

  function Reading(start: int, ready: int, gap: nat, j: nat, i: nat): int {
    if j == 0 && i == 0 then start else Tick(ready, gap, j)
  }

  lemma SlowIf(t: Times, start: int, ready: int, gap: nat, c: Config)
    requires gap == Max(0, c.cooldown) && start + gap <= ready
    requires forall j: nat, i: nat :: t.scan(j)(i) == Reading(start, ready, gap, j, i)
    requires forall j: nat :: t.sent(j) == t.reply(j) == Tick(ready, gap, j)
    ensures Slow(t, start, ready, c)
  {
    forall j: nat, k: nat | j < k ensures ready <= Tick(ready, gap, j) && Tick(ready, gap, j) + gap <= Tick(ready, gap, k) {
      TicksApart(ready, gap, j, k);
    }
    forall j: nat ensures ready <= Tick(ready, gap, j) {
      TicksApart(ready, gap, j, j + 1);
    }
  }

  lemma SlowTimes(start: int, ready: int, c: Config) returns (t: Times)
    requires start + Max(0, c.cooldown) <= ready
    ensures Slow(t, start, ready, c)
  {
    var gap: nat := Max(0, c.cooldown);
    t := Times((j: nat) => (i: nat) => Reading(start, ready, gap, j, i),
               (j: nat) => Tick(ready, gap, j), (j: nat) => Tick(ready, gap, j));
    SlowIf(t, start, ready, gap, c);
  }

  /** All usable urls are available from `at` on. */
  ghost predicate Ripe(order: seq<Url>, states0: map<Url, Health>, states: map<Url, Health>, at: int, c: Config) {
    forall u :: u in order && Usable(states0, u) ==> Up(states, u, at, c)
  }

  /** Every usable url behind the cursor has been tried; the first one if it was available. */
  ghost predicate Passed(order: seq<Url>, states0: map<Url, Health>, start: int, c: Config, tried: seq<Url>, pos: nat)
    requires pos <= |order|
  {
    forall i :: 0 <= i < pos && Usable(states0, order[i]) && (i == 0 ==> Up(states0, order[0], start, c)) ==> order[i] in tried
  }

  /** A slow request in which everything fails, on its way to the repeated url at `r`. */
  ghost predicate Coming(p0: Pool, c: Config, t: Times, p: Pool, tried: seq<Url>, pos: nat, at: int, r: nat, v: nat)
    requires InRange(p0)
  {
    var order := Order(p0);
    && |tried| <= pos <= r < v < |order| && (tried == [] ==> pos == 0 && p.states == p0.states)
    && InRange(p) && p.urls == p0.urls && Order(p) == Rotate(order, pos)
    && Passed(order, p0.states, t.scan(0)(0), c, tried, pos)
    && Ripe(order, p0.states, p.states, at, c)
    && (forall i: nat :: |tried| > 0 || i > 0 ==> at <= t.scan(|tried|)(i))
    && order[v] !in tried && order[v] !in order[..v]
  }

  lemma ReadyLater(states: map<Url, Health>, u: Url, at: int, later: int, c: Config)
    requires Up(states, u, at, c) && at <= later
    ensures Up(states, u, later, c)
  {
  }

  lemma ComingStopsBy(p0: Pool, c: Config, t: Times, p: Pool, tried: seq<Url>, pos: nat, at: int, r: nat, v: nat)
    requires InRange(p0) && Coming(p0, c, t, p, tried, pos, at, r, v) && r > 0 && Usable(p0.states, Order(p0)[r])
    ensures pos + Scan(Order(p), p.states, t.scan(|tried|), c) <= r
  {
    var now := t.scan(|tried|);
    ScanFinds(Order(p), p.states, now, c);
    var u := Order(p0)[r];
    assert Order(p)[r - pos] == u;
    assert at <= now(r - pos);
    ReadyLater(p.states, u, at, now(r - pos), c);
  }

  lemma ComingPasses(p0: Pool, c: Config, t: Times, p: Pool, tried: seq<Url>, pos: nat, at: int, r: nat, v: nat, q: nat)
    requires InRange(p0) && Coming(p0, c, t, p, tried, pos, at, r, v)
    requires pos <= q <= r && q - pos <= Scan(Order(p), p.states, t.scan(|tried|), c)
    ensures Passed(Order(p0), p0.states, t.scan(0)(0), c, tried, q)
  {
    var order, now := Order(p0), t.scan(|tried|);
    ScanFinds(Order(p), p.states, now, c);
    forall i | pos <= i < q ensures Usable(p0.states, order[i]) ==> i == 0 && !Up(p0.states, order[0], t.scan(0)(0), c) {
      assert Order(p)[i - pos] == order[i];
      assert !Up(p.states, order[i], now(i - pos), c);
      assert tried != [] || i > 0 ==> at <= now(i - pos);
    }
  }

  lemma AvailableAgain(h: Health, before: int, at: int, later: int, c: Config)
    requires Available(h, before, c) && before <= at && at + Max(0, c.cooldown) <= later
    ensures Available(AfterFailure(h, at, c), later, c)
  {
  }

  lemma RipeAgain(order: seq<Url>, states0: map<Url, Health>, states: map<Url, Health>, at: int, later: int, c: Config, u: Url, h: Health)
    requires Ripe(order, states0, states, at, c) && at <= later && Available(h, later, c)
    ensures Ripe(order, states0, states[u := h], later, c)
  {
  }

  lemma SlowNext(t: Times, start: int, ready: int, c: Config, j: nat, at: int)
    requires Slow(t, start, ready, c) && at <= t.scan(j)(1)
    ensures at <= t.reply(j) + Max(0, c.cooldown) && From(t.reply(j) + Max(0, c.cooldown), t.scan(j + 1))
  {
    assert t.scan(j)(1) <= t.sent(j) <= t.reply(j);
  }

  lemma ComingOn(p0: Pool, c: Config, t: Times, ready: int, p: Pool, tried: seq<Url>, pos: nat, at: int, r: nat, v: nat,
                 q: nat, next: Pool, h: Health)
    requires InRange(p0) && Coming(p0, c, t, p, tried, pos, at, r, v) && pos <= q < r
    requires Slow(t, t.scan(0)(0), ready, c) && Passed(Order(p0), p0.states, t.scan(0)(0), c, tried, q)
    requires InRange(next) && next.urls == p0.urls && next.states == p.states && Order(next) == Rotate(Order(p0), q + 1)
    requires Available(h, t.reply(|tried|) + Max(0, c.cooldown), c)
    ensures Coming(p0, c, t, Recorded(next, Order(p0)[q], h), tried + [Order(p0)[q]], q + 1,
                   t.reply(|tried|) + Max(0, c.cooldown), r, v)
  {
    var order, j := Order(p0), |tried|;
    var p', tried' := Recorded(next, order[q], h), tried + [order[q]];
    SlowNext(t, t.scan(0)(0), ready, c, j, at);
    RipeAgain(order, p0.states, p.states, at, t.reply(j) + Max(0, c.cooldown), c, order[q], h);
    assert Order(p') == Order(next);
    assert |tried'| == j + 1;
    assert order[q] in order[..v];
  }

  ghost predicate Returning(p0: Pool, c: Config, t: Times, answer: Url -> Reply, left: nat, r: nat, v: nat, out: Outcome)
    requires InRange(p0)
  {
    exists p, tried, pos, at :: Return(p0, c, t, answer, p, tried, pos, at, left, r, v, out)
  }

  ghost predicate Return(p0: Pool, c: Config, t: Times, answer: Url -> Reply, p: Pool, tried: seq<Url>,
                         pos: nat, at: int, left: nat, r: nat, v: nat, out: Outcome)
    requires InRange(p0)
  {
    && Coming(p0, c, t, p, tried, pos, at, r, v) && left == |p0.urls| - |tried|
    && out == Failover(p, c, tried, left, t, answer)
  }

  /** What the next scan takes if it stops at `r` or in front of it. */
  lemma TakesUpTo(p0: Pool, c: Config, now: nat -> int, p: Pool, pos: nat, r: nat)
    returns (q: nat, next: Pool)
    requires InRange(p0) && InRange(p) && p.urls == p0.urls && pos <= r < |p0.urls| && Order(p) == Rotate(Order(p0), pos)
    requires pos + Scan(Order(p), p.states, now, c) <= r
    ensures pos <= q <= r && q - pos == Scan(Order(p), p.states, now, c)
    ensures Next(p, now, c) == (Some(Order(p0)[q]), next)
    ensures InRange(next) && next.urls == p0.urls && next.states == p.states && Order(next) == Rotate(Order(p0), q + 1)
    ensures Up(p.states, Order(p0)[q], now(q - pos), c)
  {
    var k := Scan(Order(p), p.states, now, c);
    next := ScanTakes(p0, p, now, c, pos, k);
    q := pos + k;
  }

  lemma BreaksOff(p: Pool, c: Config, tried: seq<Url>, left: nat, t: Times, answer: Url -> Reply, u: Url, next: Pool, out: Outcome)
    requires InRange(p) && left > 0 && u in tried && Next(p, t.scan(|tried|), c) == (Some(u), next)
    requires out == Failover(p, c, tried, left, t, answer)
    ensures out.upstream.None?
  {
  }

  lemma ReturnTakes(p0: Pool, c: Config, t: Times, ready: int, answer: Url -> Reply, p: Pool, tried: seq<Url>, pos: nat, at: int,
                    left: nat, left': nat, r: nat, v: nat, out: Outcome, q: nat, next: Pool, before: int)
    requires InRange(p0) && Slow(t, t.scan(0)(0), ready, c) && left == left' + 1
    requires Return(p0, c, t, answer, p, tried, pos, at, left, r, v, out)
    requires pos <= q < r && Next(p, t.scan(|tried|), c) == (Some(Order(p0)[q]), next)
    requires InRange(next) && next.urls == p0.urls && next.states == p.states && Order(next) == Rotate(Order(p0), q + 1)
    requires Passed(Order(p0), p0.states, t.scan(0)(0), c, tried, q)
    requires Order(p0)[q] in p.states && Order(p0)[q] !in tried && !Good(answer(Order(p0)[q]))
    requires Available(p.states[Order(p0)[q]], before, c) && before <= t.reply(|tried|)
    ensures Returning(p0, c, t, answer, left', r, v, out)
  {
    var u, later := Order(p0)[q], t.reply(|tried|) + Max(0, c.cooldown);
    var h := AfterFailure(p.states[u], t.reply(|tried|), c);
    AvailableAgain(p.states[u], before, t.reply(|tried|), later, c);
    FailoverStep(p, c, tried, left, left', t, answer, u, next, out);
    ComingOn(p0, c, t, ready, p, tried, pos, at, r, v, q, next, h);
    assert Return(p0, c, t, answer, Recorded(next, u, h), tried + [u], q + 1, later, left', r, v, out);
  }

  /** Only the url at `v` would answer. */
  ghost predicate OnlyAnswers(answer: Url -> Reply, u: Url) {
    Good(answer(u)) && forall w :: w != u ==> !Good(answer(w))
  }

  lemma ReturnStep(p0: Pool, c: Config, t: Times, ready: int, answer: Url -> Reply, left: nat, b: nat, r: nat, v: nat, out: Outcome)
    returns (left': nat)
    requires InRange(p0) && Slow(t, t.scan(0)(0), ready, c) && LateAt(Order(p0), p0.states, t.scan(0)(0), c, b, r, v)
    requires OnlyAnswers(answer, Order(p0)[v])
    requires Returning(p0, c, t, answer, left, r, v, out)
    ensures out.upstream.None? || (Returning(p0, c, t, answer, left', r, v, out) && left' < left)
  {
    var order := Order(p0);
    var p, tried, pos, at :| Return(p0, c, t, answer, p, tried, pos, at, left, r, v, out);
    left' := left - 1;
    ComingStopsBy(p0, c, t, p, tried, pos, at, r, v);
    var q, next := TakesUpTo(p0, c, t.scan(|tried|), p, pos, r);
    ComingPasses(p0, c, t, p, tried, pos, at, r, v, q);
    var before := t.scan(|tried|)(q - pos);
    assert before <= t.sent(|tried|) <= t.reply(|tried|);
    if order[q] in tried {
      BreaksOff(p, c, tried, left, t, answer, order[q], next, out);
    } else {
      assert order[q] in order[..v];
      ReturnTakes(p0, c, t, ready, answer, p, tried, pos, at, left, left', r, v, out, q, next, before);
    }
  }

  lemma {:induction false} ReturnsAndBreaks(p0: Pool, c: Config, t: Times, ready: int, answer: Url -> Reply, left: nat,
                                            b: nat, r: nat, v: nat, out: Outcome)
    requires InRange(p0) && Slow(t, t.scan(0)(0), ready, c) && LateAt(Order(p0), p0.states, t.scan(0)(0), c, b, r, v)
    requires OnlyAnswers(answer, Order(p0)[v]) && Returning(p0, c, t, answer, left, r, v, out)
    ensures out.upstream.None?
    decreases left
  {
    var left' := ReturnStep(p0, c, t, ready, answer, left, b, r, v, out);
    if out.upstream.Some? {
      ReturnsAndBreaks(p0, c, t, ready, answer, left', b, r, v, out);
    }
  }

  lemma LateIsMissedThen(p: Pool, c: Config, b: nat, r: nat, v: nat, t: Times, answer: Url -> Reply, ready: int)
    requires InRange(p) && LateAt(Order(p), p.states, t.scan(0)(0), c, b, r, v)
    requires Slow(t, t.scan(0)(0), ready, c) && OnlyAnswers(answer, Order(p)[v])
    requires Ripe(Order(p), p.states, p.states, ready, c)
    ensures Misses(p, c, t.scan(0)(0), t, answer, Order(p)[v])
  {
    var out := Requested(p, c, t, answer);
    assert Order(p) == Rotate(Order(p), 0);
    assert Return(p, c, t, answer, p, [], 0, ready, |p.urls|, r, v, out);
    ReturnsAndBreaks(p, c, t, ready, answer, |p.urls|, b, r, v, out);
    OrderHasPool(p);
  }

  lemma LateIsMissed(p: Pool, c: Config, start: int, b: nat, r: nat, v: nat)
    requires InRange(p) && LateAt(Order(p), p.states, start, c, b, r, v)
    ensures CanMiss(p, c, start)
  {
    var order := Order(p);
    var ready := Ready(order, p.states, start, c);
    ReadyThen(order, p.states, start, c, order[0], ready);
    var t := SlowTimes(start, ready, c);
    var answer := u => if u == order[v] then Status(200) else TransportError;
    forall u | u in order && Usable(p.states, u) ensures Up(p.states, u, ready, c) {
      ReadyThen(order, p.states, start, c, u, ready);
    }
    LateIsMissedThen(p, c, b, r, v, t, answer, ready);
    assert Misses(p, c, start, t, answer, order[v]);
  }

  /** A request can give up on an upstream that was available at its start and would answer
      if and only if some such url is listed for the first time behind a repeated one. */
  lemma MissesExactlyLateUrls(p: Pool, c: Config, start: int)
    requires InRange(p)
    ensures CanMiss(p, c, start) <==> LateUrl(p, c, start)
  {
    if CanMiss(p, c, start) {
      var t, answer, u :| Misses(p, c, start, t, answer, u);
      if !LateUrl(p, c, start) {
        RaisesOnlyAfterAll(p, c, t, answer, u);
      }
    }
    if LateUrl(p, c, start) {
      var b, r, v :| LateAt(Order(p), p.states, start, c, b, r, v);
      LateIsMissed(p, c, start, b, r, v);
    }
  }

  // ---------------------------------------------------------------- pools as constructed

  /** A url comes for the first time behind one that came before. */
  ghost predicate NewBehindRepeat(order: seq<Url>) {
    exists b, r, v :: 0 <= b < r < v < |order| && order[b] == order[r] && order[v] !in order[..v]
  }

  /** For a pool of fresh records only the list of urls matters. */
  lemma FreshPoolMisses(p: Pool, c: Config, start: int)
    requires InRange(p) && forall u :: u in p.urls ==> u in p.states && p.states[u] == FRESH
    ensures CanMiss(p, c, start) <==> NewBehindRepeat(Order(p))
  {
    MissesExactlyLateUrls(p, c, start);
    OrderHasPool(p);
    if NewBehindRepeat(Order(p)) {
      var b, r, v :| 0 <= b < r < v < |Order(p)| && Order(p)[b] == Order(p)[r] && Order(p)[v] !in Order(p)[..v];
      assert LateAt(Order(p), p.states, start, c, b, r, v);
    }
  }

  lemma DistinctPoolIsComplete(p: Pool, c: Config, start: int)
    requires InRange(p) && Distinct(p.urls)
    ensures !CanMiss(p, c, start)
  {
    MissesExactlyLateUrls(p, c, start);
    OrderHasPool(p);
  }

  /** Two instances: a repeated url with another behind it, and one with none behind it. */
  lemma RepeatsThatMatter(a: Url, b: Url, c: Config, start: int)
    requires a != b
    ensures CanMiss(Pool([a, a, b], map[a := FRESH, b := FRESH], 0), c, start)
    ensures !CanMiss(Pool([a, a], map[a := FRESH], 0), c, start)
  {
    var p, q := Pool([a, a, b], map[a := FRESH, b := FRESH], 0), Pool([a, a], map[a := FRESH], 0);
    FreshPoolMisses(p, c, start);
    FreshPoolMisses(q, c, start);
    assert Order(p) == [a, a, b];
    assert Order(p)[0] == Order(p)[1] && Order(p)[2] !in Order(p)[..2];
  }
}
