/** Round robin is fair: while the available upstreams stay the same, successive choices
    run through exactly those, in cyclic order. */
module Rotation {
  import opened Options
  import opened Balancer

  /** The available urls of a sequence, in order. */
  function Live(order: seq<Url>, states: map<Url, Health>, now: int, c: Config): seq<Url> {
    if order == [] then []
    else (if Up(states, order[0], now, c) then [order[0]] else []) + Live(order[1..], states, now, c)
  }

  lemma {:induction false} LiveConcat(a: seq<Url>, b: seq<Url>, states: map<Url, Health>, now: int, c: Config)
    ensures Live(a + b, states, now, c) == Live(a, states, now, c) + Live(b, states, now, c)
  {
    if a == [] {
      assert a + b == b;
    } else {
      assert (a + b)[1..] == a[1..] + b;
      LiveConcat(a[1..], b, states, now, c);
    }
  }

  lemma {:induction false} LiveMembers(order: seq<Url>, states: map<Url, Health>, now: int, c: Config)
    requires Distinct(order)
    ensures Distinct(Live(order, states, now, c))
    ensures forall u :: u in Live(order, states, now, c) <==> u in order && Up(states, u, now, c)
  {
    if order != [] {
      LiveMembers(order[1..], states, now, c);
    }
  }

  lemma {:induction false} NothingLive(order: seq<Url>, states: map<Url, Health>, now: int, c: Config)
    requires forall j :: 0 <= j < |order| ==> !Up(states, order[j], now, c)
    ensures Live(order, states, now, c) == []
  {
    if order != [] {
      NothingLive(order[1..], states, now, c);
    }
  }

  lemma OrderAfter(p: Pool, k: nat)
    requires InRange(p) && k < |p.urls|
    ensures Order(p.(rr := Slot(p.rr + k + 1, |p.urls|))) == Order(p)[k + 1..] + Order(p)[..k + 1]
  {
  }

  /** Unavailable urls at the front do not count. */
  lemma LiveSkips(o: seq<Url>, k: nat, states: map<Url, Health>, now: int, c: Config)
    requires k <= |o| && forall j :: 0 <= j < k ==> !Up(states, o[j], now, c)
    ensures Live(o, states, now, c) == Live(o[k..], states, now, c)
    ensures Live(o[..k], states, now, c) == []
  {
    NothingLive(o[..k], states, now, c);
    assert o == o[..k] + o[k..];
    LiveConcat(o[..k], o[k..], states, now, c);
  }

  lemma LiveOne(u: Url, states: map<Url, Health>, now: int, c: Config)
    requires Up(states, u, now, c)
    ensures Live([u], states, now, c) == [u]
  {
    assert [u][1..] == [];
  }

  lemma LiveAround(o: seq<Url>, k: nat, states: map<Url, Health>, now: int, c: Config)
    requires k < |o| && Up(states, o[k], now, c)
    requires forall j :: 0 <= j < k ==> !Up(states, o[j], now, c)
    ensures Live(o, states, now, c) == [o[k]] + Live(o[k + 1..], states, now, c)
    ensures Live(o[..k + 1], states, now, c) == [o[k]]
  {
    LiveSkips(o, k, states, now, c);
    assert o[k..][0] == o[k] && o[k..][1..] == o[k + 1..];
    assert o[..k + 1] == o[..k] + [o[k]];
    LiveConcat(o[..k], [o[k]], states, now, c);
    LiveOne(o[k], states, now, c);
  }

  /** No cooldown ends between the reading `at` and the readings of the scan. */
  ghost predicate Agree(states: map<Url, Health>, now: nat -> int, at: int, c: Config) {
    forall u, i: nat :: Up(states, u, now(i), c) == Up(states, u, at, c)
  }

  /** A choice raises exactly when nothing is available; otherwise it takes the head of the
      available urls in cyclic order and sends it to the back. */
  lemma NextTakesTheHead(p: Pool, now: nat -> int, at: int, c: Config)
    requires InRange(p) && Agree(p.states, now, at, c)
    ensures var live := Live(Order(p), p.states, at, c);
            var (r, q) := Next(p, now, c);
            && (r.None? <==> live == [])
            && (r.None? ==> q == p)
            && (live != [] ==> r == Some(live[0]) && Live(Order(q), q.states, at, c) == live[1..] + [live[0]])
  {
    var o := Order(p);
    var k := Scan(o, p.states, now, c);
    ScanFinds(o, p.states, now, c);
    assert forall j :: 0 <= j < k ==> Up(p.states, o[j], now(j), c) == Up(p.states, o[j], at, c);
    if k < |o| {
      LiveAround(o, k, p.states, at, c);
      OrderAfter(p, k);
      LiveConcat(o[k + 1..], o[..k + 1], p.states, at, c);
    } else {
      NothingLive(o, p.states, at, c);
    }
  }

  /** `k` successive choices, and the pool they leave. */
  ghost function Picks(p: Pool, now: nat -> nat -> int, c: Config, k: nat): (r: (seq<Option<Url>>, Pool))
    requires InRange(p)
    ensures InRange(r.1) && r.1.urls == p.urls && r.1.states == p.states && |r.0| == k
  {
    if k == 0 then ([], p)
    else
      var (picks, q) := Picks(p, now, c, k - 1);
      var (u, q') := Next(q, now(k - 1), c);
      (picks + [u], q')
  }

  /** The clock moves on but no cooldown ends. */
  ghost predicate SameUp(states: map<Url, Health>, now: nat -> nat -> int, at: int, c: Config) {
    forall j: nat :: Agree(states, now(j), at, c)
  }

  function Rotate(s: seq<Url>, i: nat): seq<Url>
    requires i <= |s|
  {
    s[i..] + s[..i]
  }

  lemma DivModUnique(k: nat, m: nat, q: nat, r: nat)
    requires k == q * m + r && r < m
    ensures k / m == q && k % m == r
  {
    var d := q - k / m;
    assert d * m == k % m - r by {
      assert k == k / m * m + k % m;
      assert d * m == q * m - k / m * m;
    }
    assert d >= 1 ==> d * m >= m;
    assert d <= -1 ==> d * m + m <= 0;
  }

  lemma NextMod(k: nat, m: nat)
    requires m > 0
    ensures (k + 1) % m == (if k % m + 1 == m then 0 else k % m + 1)
    ensures (k + 1) / m == (if k % m + 1 == m then k / m + 1 else k / m)
  {
    var q, r := k / m, k % m;
    assert k == q * m + r;
    if r + 1 == m {
      assert k + 1 == (q + 1) * m + 0;
      DivModUnique(k + 1, m, q + 1, 0);
    } else {
      DivModUnique(k + 1, m, q, r + 1);
    }
  }

  lemma OrderHasPool(p: Pool)
    requires InRange(p)
    ensures forall u :: u in Order(p) <==> u in p.urls
    ensures Distinct(p.urls) ==> Distinct(Order(p))
  {
  }

  /** The `j`-th element of `live`, `live`, `live`, ... */
  function Cyclic(live: seq<Url>, j: nat): Url
    requires live != []
  {
    live[j % |live|]
  }

  lemma RotateOn(live: seq<Url>, k: nat)
    requires live != []
    ensures var r := Rotate(live, k % |live|); r[1..] + [r[0]] == Rotate(live, (k + 1) % |live|)
    ensures Rotate(live, k % |live|)[0] == live[k % |live|]
  {
    NextMod(k, |live|);
  }

  lemma PickOn(q: Pool, live: seq<Url>, now: nat -> int, at: int, c: Config, k: nat)
    requires InRange(q) && Agree(q.states, now, at, c)
    requires live != [] && Live(Order(q), q.states, at, c) == Rotate(live, k % |live|)
    ensures var (r, q') := Next(q, now, c);
            && r == Some(Cyclic(live, k))
            && Live(Order(q'), q.states, at, c) == Rotate(live, (k + 1) % |live|)
  {
    NextTakesTheHead(q, now, at, c);
    RotateOn(live, k);
  }

  lemma {:induction false} PicksLeave(p: Pool, now: nat -> nat -> int, at: int, c: Config, k: nat, live: seq<Url>)
    requires InRange(p) && SameUp(p.states, now, at, c)
    requires live == Live(Order(p), p.states, at, c) != []
    ensures Live(Order(Picks(p, now, c, k).1), p.states, at, c) == Rotate(live, k % |live|)
  {
    if k == 0 {
      DivModUnique(k, |live|, 0, 0);
      assert Rotate(live, 0) == live;
    } else {
      PicksLeave(p, now, at, c, k - 1, live);
      PickOn(Picks(p, now, c, k - 1).1, live, now(k - 1), at, c, k - 1);
    }
  }

  lemma LastPick(p: Pool, now: nat -> nat -> int, at: int, c: Config, k: nat, live: seq<Url>)
    requires InRange(p) && SameUp(p.states, now, at, c)
    requires live == Live(Order(p), p.states, at, c) != []
    ensures Picks(p, now, c, k + 1).0 == Picks(p, now, c, k).0 + [Some(Cyclic(live, k))]
  {
    PicksLeave(p, now, at, c, k, live);
    PickOn(Picks(p, now, c, k).1, live, now(k), at, c, k);
  }

  ghost predicate AreCyclic(picks: seq<Option<Url>>, live: seq<Url>)
    requires live != []
  {
    forall j :: 0 <= j < |picks| ==> picks[j] == Some(Cyclic(live, j))
  }

  lemma CyclicGrows(picks: seq<Option<Url>>, live: seq<Url>)
    requires live != [] && AreCyclic(picks, live)
    ensures AreCyclic(picks + [Some(Cyclic(live, |picks|))], live)
  {
  }

  lemma {:induction false} PicksRotate(p: Pool, now: nat -> nat -> int, at: int, c: Config, k: nat, live: seq<Url>)
    requires InRange(p) && SameUp(p.states, now, at, c)
    requires live == Live(Order(p), p.states, at, c) != []
    ensures AreCyclic(Picks(p, now, c, k).0, live)
  {
    if k > 0 {
      PicksRotate(p, now, at, c, k - 1, live);
      LastPick(p, now, at, c, k - 1, live);
      CyclicGrows(Picks(p, now, c, k - 1).0, live);
    }
  }

  lemma {:induction false} PicksRaise(p: Pool, now: nat -> nat -> int, at: int, c: Config, k: nat)
    requires InRange(p) && SameUp(p.states, now, at, c)
    requires Live(Order(p), p.states, at, c) == []
    ensures Picks(p, now, c, k).1 == p && forall j :: 0 <= j < k ==> Picks(p, now, c, k).0[j] == None
  {
    if k > 0 {
      PicksRaise(p, now, at, c, k - 1);
      NextTakesTheHead(p, now(k - 1), at, c);
    }
  }

  function Occurs(picks: seq<Option<Url>>, u: Url): nat {
    if picks == [] then 0
    else Occurs(picks[..|picks| - 1], u) + if picks[|picks| - 1] == Some(u) then 1 else 0
  }

  lemma {:induction false} CyclicShare(picks: seq<Option<Url>>, live: seq<Url>, i: nat)
    requires live != [] && Distinct(live) && i < |live|
    requires forall j :: 0 <= j < |picks| ==> picks[j] == Some(Cyclic(live, j))
    ensures Occurs(picks, live[i]) == |picks| / |live| + if i < |picks| % |live| then 1 else 0
  {
    if picks == [] {
      DivModUnique(0, |live|, 0, 0);
    } else {
      var k := |picks| - 1;
      CyclicShare(picks[..k], live, i);
      NextMod(k, |live|);
      assert picks[k] == Some(live[i]) <==> k % |live| == i;
    }
  }

  /** While the m available urls stay the same the j-th choice is the (j mod m)-th of them
      in cyclic order; k choices take each floor(k/m) or one more times; and they raise if
      and only if m is 0. */
  lemma FairRotation(p: Pool, now: nat -> nat -> int, at: int, c: Config, k: nat)
    requires InRange(p) && Distinct(p.urls) && SameUp(p.states, now, at, c)
    ensures var live := Live(Order(p), p.states, at, c);
            var picks := Picks(p, now, c, k).0;
            && Distinct(live) && (forall u :: u in live <==> u in p.urls && Up(p.states, u, at, c))
            && (live == [] ==> forall j :: 0 <= j < k ==> picks[j] == None)
            && (live != [] ==>
                  && (forall j :: 0 <= j < k ==> picks[j] == Some(Cyclic(live, j)))
                  && (forall i :: 0 <= i < |live| ==>
                        Occurs(picks, live[i]) == k / |live| + if i < k % |live| then 1 else 0))
  {
    var live := Live(Order(p), p.states, at, c);
    var picks := Picks(p, now, c, k).0;
    OrderHasPool(p);
    LiveMembers(Order(p), p.states, at, c);
    if live == [] {
      PicksRaise(p, now, at, c, k);
    } else {
      PicksRotate(p, now, at, c, k, live);
      forall i | 0 <= i < |live| ensures Occurs(picks, live[i]) == k / |live| + if i < k % |live| then 1 else 0 {
        CyclicShare(picks, live, i);
      }
    }
  }

  // ---------------------------------------------------------------- trials after a cooldown

  lemma {:induction false} LiveHas(order: seq<Url>, states: map<Url, Health>, now: int, c: Config, u: Url)
    ensures u in Live(order, states, now, c) <==> u in order && Up(states, u, now, c)
  {
    if order != [] {
      LiveHas(order[1..], states, now, c, u);
      assert u in order <==> u == order[0] || u in order[1..];
    }
  }

  lemma {:induction false} CyclicShareAtLeast(picks: seq<Option<Url>>, live: seq<Url>, i: nat)
    requires live != [] && i < |live| && AreCyclic(picks, live)
    ensures Occurs(picks, live[i]) >= |picks| / |live| + if i < |picks| % |live| then 1 else 0
  {
    if picks == [] {
      DivModUnique(0, |live|, 0, 0);
    } else {
      var k := |picks| - 1;
      CyclicShareAtLeast(picks[..k], live, i);
      NextMod(k, |live|);
      assert picks[k] == Some(live[k % |live|]);
    }
  }

  /** How often the first `k` choices took `u`. */
  ghost function Chosen(p: Pool, now: nat -> nat -> int, c: Config, u: Url, k: nat): nat
    requires InRange(p)
  {
    Occurs(Picks(p, now, c, k).0, u)
  }

  ghost predicate ChosenTimes(p: Pool, now: nat -> nat -> int, c: Config, u: Url, n: nat)
    requires InRange(p)
  {
    exists k: nat :: Chosen(p, now, c, u, k) >= n
  }

  lemma {:induction false} NeverChosen(p: Pool, now: nat -> nat -> int, at: int, c: Config, k: nat, u: Url)
    requires InRange(p) && SameUp(p.states, now, at, c) && !(u in p.urls && Up(p.states, u, at, c))
    ensures Chosen(p, now, c, u, k) == 0
  {
    if k > 0 {
      NeverChosen(p, now, at, c, k - 1, u);
      var q := Picks(p, now, c, k - 1).1;
      NextTakesTheHead(q, now(k - 1), at, c);
      LiveHas(Order(q), q.states, at, c, u);
      OrderHasPool(q);
    }
  }

  lemma ChosenOften(p: Pool, now: nat -> nat -> int, at: int, c: Config, n: nat, u: Url)
    requires InRange(p) && SameUp(p.states, now, at, c) && u in p.urls && Up(p.states, u, at, c)
    ensures ChosenTimes(p, now, c, u, n)
  {
    var live := Live(Order(p), p.states, at, c);
    OrderHasPool(p);
    LiveHas(Order(p), p.states, at, c, u);
    var k := n * |live|;
    PicksRotate(p, now, at, c, k, live);
    var i :| 0 <= i < |live| && live[i] == u;
    CyclicShareAtLeast(Picks(p, now, c, k).0, live, i);
    DivModUnique(k, |live|, n, 0);
    assert Chosen(p, now, c, u, k) >= n;
  }

  /** While no reply is recorded and no cooldown ends, scans choose an upstream any number of
      times, rather than once after its cooldown, exactly when it is available. */
  lemma TrialsAreUnlimited(p: Pool, now: nat -> nat -> int, at: int, c: Config, u: Url)
    requires InRange(p) && SameUp(p.states, now, at, c)
    ensures (forall n: nat :: ChosenTimes(p, now, c, u, n)) <==> u in p.urls && Up(p.states, u, at, c)
  {
    if u in p.urls && Up(p.states, u, at, c) {
      forall n: nat ensures ChosenTimes(p, now, c, u, n) {
        ChosenOften(p, now, at, c, n, u);
      }
    } else {
      forall k: nat ensures Chosen(p, now, c, u, k) == 0 {
        NeverChosen(p, now, at, c, k, u);
      }
      assert !ChosenTimes(p, now, c, u, 1);
    }
  }

  ghost predicate TriedAgain(p: Pool, now: nat -> nat -> int, c: Config, u: Url) {
    InRange(p) && u in p.states && !p.states[u].healthy && Chosen(p, now, c, u, 2) == 2
  }

  /** An upstream that is down and gets two trials in a row, with no reply in between. */
  lemma SecondTrial()
    ensures exists p: Pool, now: nat -> nat -> int, c: Config, u: Url :: TriedAgain(p, now, c, u)
  {
    var u := Url("a");
    var p := Pool([u], map[u := Health(false, 3, Some(0))], 0);
    var now: nat -> nat -> int := _ => _ => 30;
    var c := Config(3, 30);
    ScanIs(Order(p), p.states, now(0), c, 0);
    ScanIs(Order(p), p.states, now(1), c, 0);
    assert Next(p, now(0), c) == (Some(u), p) && Next(p, now(1), c) == (Some(u), p);
    assert Picks(p, now, c, 0) == ([], p);
    var one: seq<Option<Url>> := [Some(u)];
    assert Picks(p, now, c, 1).0 == [] + one == one;
    assert Picks(p, now, c, 1).1 == p;
    assert Picks(p, now, c, 2).0 == one + one;
    assert one[..0] == [] && (one + one)[..1] == one;
    assert Occurs(one + one, u) == Occurs(one, u) + 1;
    assert TriedAgain(p, now, c, u);
  }
}
