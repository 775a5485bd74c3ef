/** In-process publishing to handlers of any kind: with a store of their own, with a shared
    store, or with none because their consumer was built without one. */
module MixedHandlers {
  import opened Options
  import opened Outbox
  import opened RelayRuns
  import opened Events
  import opened LocalDelivery

  ghost predicate Subscribed(handlers: seq<Guarded>, name: string) {
    forall h :: 0 <= h < |handlers| ==> handlers[h].eventName == name
  }

  /** Some handler in front of `k` uses store `n`. */
  ghost predicate UsedInFront(handlers: seq<Guarded>, k: nat, n: nat)
    requires k <= |handlers|
  {
    exists g :: 0 <= g < k && handlers[g].store == Some(n)
  }

  /** The handler has no store, or its store has no entry for the event and nobody in front
      of it shares the store. */
  ghost predicate FirstUse(w: World, handlers: seq<Guarded>, name: string, h: nat, id: string)
    requires h < |handlers|
  {
    || handlers[h].store == None
    || (&& "evt:" + name + ":" + id !in Contents(w.stores, handlers[h].store.value)
        && !UsedInFront(handlers, h, handlers[h].store.value))
  }

  ghost function FirstUsers(w: World, handlers: seq<Guarded>, name: string, id: string): set<nat> {
    set h | 0 <= h < |handlers| && FirstUse(w, handlers, name, h, id)
  }

  /** The invocations of those in `users` among the first `k` handlers, in their order. */
  ghost function Invocations(users: set<nat>, k: nat, id: string, raising: set<nat>): seq<Call> {
    if k == 0 then []
    else Invocations(users, k - 1, id, raising) + if k - 1 in users then [Call(k - 1, id, k - 1 !in raising)] else []
  }

  /** What a store holds when the first `k` handlers have had their turn. */
  ghost predicate Marked(w: World, w': World, handlers: seq<Guarded>, name: string, k: nat, id: string)
    requires k <= |handlers|
  {
    var key := "evt:" + name + ":" + id;
    forall n :: Contents(w'.stores, n)
                == if UsedInFront(handlers, k, n) && key !in Contents(w.stores, n)
                   then Contents(w.stores, n)[key := "done"] else Contents(w.stores, n)
  }

  ghost predicate HadTheirTurn(w: World, w': World, handlers: seq<Guarded>, name: string, k: nat, id: string, raising: set<nat>)
    requires k <= |handlers|
  {
    && w'.calls == w.calls + Invocations(FirstUsers(w, handlers, name, id), k, id, raising)
    && Marked(w, w', handlers, name, k, id)
  }

  lemma UsedInFrontStep(handlers: seq<Guarded>, k: nat)
    requires k < |handlers|
    ensures forall n: nat :: UsedInFront(handlers, k + 1, n) <==> UsedInFront(handlers, k, n) || handlers[k].store == Some(n)
  {
    forall n: nat | UsedInFront(handlers, k, n) || handlers[k].store == Some(n) ensures UsedInFront(handlers, k + 1, n) {
      if UsedInFront(handlers, k, n) {
        var g :| 0 <= g < k && handlers[g].store == Some(n);
        assert 0 <= g < k + 1 && handlers[g].store == Some(n);
      }
    }
  }

  lemma OneTurn(w: World, w': World, handlers: seq<Guarded>, name: string, k: nat, id: string, raising: set<nat>, w'': World, ok: bool)
    requires Subscribed(handlers, name) && k < |handlers|
    requires HadTheirTurn(w, w', handlers, name, k, id, raising)
    requires (w'', ok) == Handle(w', k, handlers[k], id, k in raising)
    ensures HadTheirTurn(w, w'', handlers, name, k + 1, id, raising)
    ensures !ok <==> k in raising && FirstUse(w, handlers, name, k, id)
  {
    UsedInFrontStep(handlers, k);
    var g := handlers[k];
    assert EventKey(name, id) == "evt:" + name + ":" + id;
    if g.store.Some? {
      assert Owned(w', g, EventKey(name, id)) <==> EventKey(name, id) in Contents(w'.stores, g.store.value);
      assert Owned(w', g, EventKey(name, id)) <==> !FirstUse(w, handlers, name, k, id);
    }
  }

  lemma {:induction false} TurnsFrom(w: World, w': World, handlers: seq<Guarded>, name: string, k: nat, id: string, raising: set<nat>)
    returns (r: nat)
    requires Subscribed(handlers, name) && k <= |handlers|
    requires HadTheirTurn(w, w', handlers, name, k, id, raising)
    ensures var (end, ok) := PublishFrom(w', handlers, k, id, raising);
            && k <= r <= |handlers| && (ok <==> r == |handlers|)
            && (r < |handlers| ==> r in raising && FirstUse(w, handlers, name, r, id))
            && (forall h :: k <= h < r && FirstUse(w, handlers, name, h, id) ==> h !in raising)
            && HadTheirTurn(w, end, handlers, name, if ok then r else r + 1, id, raising)
    decreases |handlers| - k
  {
    r := k;
    if k < |handlers| {
      var (w'', ok) := Handle(w', k, handlers[k], id, k in raising);
      OneTurn(w, w', handlers, name, k, id, raising, w'', ok);
      if ok {
        r := TurnsFrom(w, w'', handlers, name, k + 1, id, raising);
      }
    }
  }

  lemma InvocationsStep(users: set<nat>, k: nat, id: string, raising: set<nat>, calls: seq<Call>, before: seq<Call>, calls': seq<Call>)
    requires k > 0 && before == calls + Invocations(users, k - 1, id, raising) && calls' == calls + Invocations(users, k, id, raising)
    ensures calls' == if k - 1 in users then before + [Call(k - 1, id, k - 1 !in raising)] else before
  {
  }

  lemma {:induction false} InvocationsOf(users: set<nat>, k: nat, id: string, raising: set<nat>, calls: seq<Call>, calls': seq<Call>,
                                         h: nat, other: string)
    requires calls' == calls + Invocations(users, k, id, raising)
    ensures var once := h < k && other == id && h in users;
            && CallsTo(calls', h, other) == CallsTo(calls, h, other) + (if once then 1 else 0)
            && Completions(calls', h, other) == Completions(calls, h, other) + if once && h !in raising then 1 else 0
  {
    if k == 0 {
      assert calls' == calls;
    } else {
      var before := calls + Invocations(users, k - 1, id, raising);
      InvocationsOf(users, k - 1, id, raising, calls, before, h, other);
      InvocationsStep(users, k, id, raising, calls, before, calls');
      OneMoreCall(before, Call(k - 1, id, k - 1 !in raising), h, other);
    }
  }

  lemma OneMoreCall(calls: seq<Call>, c: Call, h: nat, id: string)
    ensures CallsTo(calls + [c], h, id) == CallsTo(calls, h, id) + if c.handler == h && c.eventId == id then 1 else 0
    ensures Completions(calls + [c], h, id) == Completions(calls, h, id) + if c == Call(h, id, true) then 1 else 0
  {
    assert (calls + [c])[..|calls|] == calls;
  }

  /** What one publish does, whatever stores the handlers have.  `r` is the first raising
      handler whose turn comes with its key free, or the number of handlers: up to and
      including it each handler with its key free is invoked once, in order, nobody behind it
      is, and the stores of the invoked ones say "done". */
  lemma PublishMix(w: World, handlers: seq<Guarded>, name: string, id: string, raising: set<nat>) returns (r: nat)
    requires Subscribed(handlers, name)
    ensures var (w', ok) := PublishFrom(w, handlers, 0, id, raising);
            var turns := if r < |handlers| then r + 1 else r;
            && r <= |handlers| && (ok <==> r == |handlers|)
            && (r < |handlers| ==> r in raising && FirstUse(w, handlers, name, r, id))
            && (forall h :: 0 <= h < r && FirstUse(w, handlers, name, h, id) ==> h !in raising)
            && HadTheirTurn(w, w', handlers, name, turns, id, raising)
            && forall h: nat, other ::
                 var once := h < turns && other == id && FirstUse(w, handlers, name, h, id);
                 && CallsTo(w'.calls, h, other) == CallsTo(w.calls, h, other) + (if once then 1 else 0)
                 && Completions(w'.calls, h, other) == Completions(w.calls, h, other) + if once && h !in raising then 1 else 0
  {
    assert w.calls + [] == w.calls;
    r := TurnsFrom(w, w, handlers, name, 0, id, raising);
    var turns := if r < |handlers| then r + 1 else r;
    forall h: nat, other
      ensures var w' := PublishFrom(w, handlers, 0, id, raising).0;
              var once := h < turns && other == id && FirstUse(w, handlers, name, h, id);
              && CallsTo(w'.calls, h, other) == CallsTo(w.calls, h, other) + (if once then 1 else 0)
              && Completions(w'.calls, h, other) == Completions(w.calls, h, other) + if once && h !in raising then 1 else 0
    {
      InvocationsOf(FirstUsers(w, handlers, name, id), turns, id, raising, w.calls, PublishFrom(w, handlers, 0, id, raising).0.calls, h, other);
    }
  }

  /** A handler without a store is invoked by every publish that reaches it, also for an event
      it has seen: by a successful publish once, to completion; by a failing one unless it is
      behind the handler that raised. */
  lemma StorelessAlwaysInvoked(w: World, handlers: seq<Guarded>, name: string, id: string, raising: set<nat>, h: nat) returns (r: nat)
    requires Subscribed(handlers, name) && h < |handlers| && handlers[h].store == None
    ensures var (w', ok) := PublishFrom(w, handlers, 0, id, raising);
            && r <= |handlers| && (ok <==> r == |handlers|) && (r < |handlers| ==> r in raising)
            && CallsTo(w'.calls, h, id) == CallsTo(w.calls, h, id) + (if h <= r then 1 else 0)
            && Completions(w'.calls, h, id) == Completions(w.calls, h, id) + (if h < r then 1 else 0)
  {
    r := PublishMix(w, handlers, name, id, raising);
  }

  /** When an event has been published successfully, publishing it again invokes exactly the
      handlers without a store, up to the first of them that raises. */
  lemma SecondPublish(w: World, handlers: seq<Guarded>, name: string, id: string, first: set<nat>, second: set<nat>) returns (r: nat)
    requires Subscribed(handlers, name) && PublishFrom(w, handlers, 0, id, first).1
    ensures var w1 := PublishFrom(w, handlers, 0, id, first).0;
            var (w2, ok) := PublishFrom(w1, handlers, 0, id, second);
            && r <= |handlers| && (ok <==> r == |handlers|)
            && (r < |handlers| ==> r in second && handlers[r].store == None)
            && (forall h :: 0 <= h < r && handlers[h].store == None ==> h !in second)
            && (forall n :: Contents(w2.stores, n) == Contents(w1.stores, n))
            && forall h :: 0 <= h < |handlers| ==>
                 CallsTo(w2.calls, h, id) == CallsTo(w1.calls, h, id) + if handlers[h].store == None && h <= r then 1 else 0
  {
    var w1 := PublishFrom(w, handlers, 0, id, first).0;
    var all := PublishMix(w, handlers, name, id, first);
    KeysAreTaken(w, w1, handlers, name, id);
    r := PublishMix(w1, handlers, name, id, second);
  }

  lemma KeysAreTaken(w: World, w1: World, handlers: seq<Guarded>, name: string, id: string)
    requires Marked(w, w1, handlers, name, |handlers|, id)
    ensures forall h :: 0 <= h < |handlers| ==> (FirstUse(w1, handlers, name, h, id) <==> handlers[h].store == None)
    ensures forall n :: UsedInFront(handlers, |handlers|, n) ==> "evt:" + name + ":" + id in Contents(w1.stores, n)
  {
    forall h | 0 <= h < |handlers| && handlers[h].store != None ensures !FirstUse(w1, handlers, name, h, id) {
      assert UsedInFront(handlers, |handlers|, handlers[h].store.value);
    }
  }

  // ---------------------------------------------------------------- relays and handlers without a store

  /** Completed invocations are at least the successful copies of the message, invocations at
      most all its copies. */
  ghost predicate Bounded(db: Db, calls: seq<Call>, h: nat, i: nat)
    requires i < |db.table|
  {
    var id := db.table[i].id;
    && Count(db.bus, i, true) <= Completions(calls, h, id)
    && CallsTo(calls, h, id) <= Count(db.bus, i, true) + Count(db.bus, i, false)
  }

  ghost predicate StorelessInv(name: string, h: nat, s: Local) {
    && Inv(s.db)
    && (forall i: nat :: i < |s.db.table| && s.db.table[i].eventName == name ==> Bounded(s.db, s.world.calls, h, i))
    && forall id: string :: Stranger(s.db, id) ==> CallsTo(s.world.calls, h, id) == 0
  }

  lemma CountOneMore(bus: seq<Publish>, p: Publish, i: nat, ok: bool)
    ensures Count(bus + [p], i, ok) == Count(bus, i, ok) + if p.row == i && p.ok == ok then 1 else 0
  {
    assert (bus + [p])[..|bus|] == bus;
  }

  /** One publish of `id`, for the handler: at most one invocation, completed if it succeeds. */
  ghost predicate OneDelivery(calls: seq<Call>, calls': seq<Call>, h: nat, id: string, ok: bool) {
    && CallsTo(calls', h, id) <= CallsTo(calls, h, id) + 1
    && Completions(calls', h, id) >= Completions(calls, h, id) + (if ok then 1 else 0)
    && forall other :: other != id ==>
         CallsTo(calls', h, other) == CallsTo(calls, h, other) && Completions(calls', h, other) == Completions(calls, h, other)
  }

  lemma PublishDelivers(w: World, handlers: seq<Guarded>, name: string, id: string, raising: set<nat>, h: nat, w': World, ok: bool)
    requires Subscribed(handlers, name) && h < |handlers| && handlers[h].store == None
    requires (w', ok) == PublishFrom(w, handlers, 0, id, raising)
    ensures OneDelivery(w.calls, w'.calls, h, id, ok)
  {
    var r := PublishMix(w, handlers, name, id, raising);
  }

  lemma DeliveryKeepsBound(db: Db, db': Db, p: Publish, calls: seq<Call>, calls': seq<Call>, h: nat, i: nat)
    requires i < |db.table| && Bounded(db, calls, h, i) && p.row < |db.table| && DistinctIds(db.table)
    requires OneDelivery(calls, calls', h, db.table[p.row].id, p.ok)
    requires db'.table == db.table && db'.bus == db.bus + [p]
    ensures Bounded(db', calls', h, i)
  {
    CountOneMore(db.bus, p, i, true);
    CountOneMore(db.bus, p, i, false);
    if i < p.row {
      assert db.table[i].id != db.table[p.row].id;
    } else if p.row < i {
      assert db.table[p.row].id != db.table[i].id;
    }
  }

  /** A delivery through the handlers. */
  lemma DeliveryKeepsBounds(handlers: seq<Guarded>, name: string, h: nat, s: Local, m: Move, s': Local)
    requires Subscribed(handlers, name) && h < |handlers| && handlers[h].store == None
    requires StorelessInv(name, h, s) && LocalNext(handlers, name, s, m, s') && Delivers(name, s.db, m.step)
    ensures StorelessInv(name, h, s')
  {
    var row := RowInHand(s.db, m.step.relay);
    var p := PublishOf(s.db, s.db.live[m.step.relay].value, m.step.ok, m.step.at);
    StepKeepsInv(s.db, m.step);
    PublishDelivers(s.world, handlers, name, s.db.table[row].id, m.raising, h, s'.world, m.step.ok);
    forall i: nat | i < |s.db.table| && s.db.table[i].eventName == name ensures Bounded(s'.db, s'.world.calls, h, i) {
      DeliveryKeepsBound(s.db, s'.db, p, s.world.calls, s'.world.calls, h, i);
    }
    forall id: string | Stranger(s'.db, id) ensures CallsTo(s'.world.calls, h, id) == 0 {
      assert Stranger(s.db, id) && s.db.table[row].id != id;
    }
  }

  /** Any other step. */
  lemma OtherStepKeepsBounds(handlers: seq<Guarded>, name: string, h: nat, s: Local, m: Move, s': Local)
    requires StorelessInv(name, h, s) && LocalNext(handlers, name, s, m, s') && !Delivers(name, s.db, m.step)
    ensures StorelessInv(name, h, s')
  {
    StepKeepsInv(s.db, m.step);
    TableGrowsByInserts(s.db, m.step);
    forall i: nat | i < |s'.db.table| && s'.db.table[i].eventName == name ensures Bounded(s'.db, s'.world.calls, h, i) {
      if i < |s.db.table| {
        StepKeepsIdentity(s.db, m.step, i);
        assert Bounded(s.db, s.world.calls, h, i);
        if m.step.Deliver? {
          var p := PublishOf(s.db, s.db.live[m.step.relay].value, m.step.ok, m.step.at);
          CountOneMore(s.db.bus, p, i, true);
          CountOneMore(s.db.bus, p, i, false);
        }
      } else {
        assert Stranger(s.db, s'.db.table[i].id);
        NeverPublished(s.db, i);
      }
    }
    forall id: string | Stranger(s'.db, id) ensures CallsTo(s'.world.calls, h, id) == 0 {
      StrangerBefore(s.db, m.step, id);
    }
  }

  lemma NeverPublished(db: Db, i: nat)
    requires InTable(db.bus, |db.table|) && i >= |db.table|
    ensures Count(db.bus, i, true) == 0 && Count(db.bus, i, false) == 0
  {
    OfAbsent(db.bus, i);
  }

  lemma {:induction false} StorelessRun(handlers: seq<Guarded>, name: string, relays: nat, states: seq<Local>, moves: seq<Move>, h: nat, k: nat)
    requires Subscribed(handlers, name) && h < |handlers| && handlers[h].store == None
    requires IsLocalRun(handlers, name, relays, states, moves) && k < |states|
    ensures StorelessInv(name, h, states[k])
  {
    if k == 0 {
      InitInv(relays);
    } else {
      StorelessRun(handlers, name, relays, states, moves, h, k - 1);
      if Delivers(name, states[k - 1].db, moves[k - 1].step) {
        DeliveryKeepsBounds(handlers, name, h, states[k - 1], moves[k - 1], states[k]);
      } else {
        OtherStepKeepsBounds(handlers, name, h, states[k - 1], moves[k - 1], states[k]);
      }
    }
  }

  /** For a handler without a store at-least-once delivery holds: over every run of the relays
      it has completed a sent message at least once, at least as often as the message was
      published successfully, and it was never invoked more often than it was published. */
  lemma StorelessAtLeastOnce(handlers: seq<Guarded>, name: string, relays: nat, states: seq<Local>, moves: seq<Move>, h: nat, k: nat, i: nat)
    requires Subscribed(handlers, name) && h < |handlers| && handlers[h].store == None
    requires IsLocalRun(handlers, name, relays, states, moves) && k < |states|
    requires i < |states[k].db.table| && states[k].db.table[i].eventName == name
    ensures var db, calls, id := states[k].db, states[k].world.calls, states[k].db.table[i].id;
            && Count(db.bus, i, true) <= Completions(calls, h, id) <= CallsTo(calls, h, id)
            && CallsTo(calls, h, id) <= Count(db.bus, i, true) + Count(db.bus, i, false)
            && (db.table[i].status == Sent ==> Completions(calls, h, id) >= 1)
  {
    StorelessRun(handlers, name, relays, states, moves, h, k);
    var db := states[k].db;
    assert Bounded(db, states[k].world.calls, h, i);
    CompletionsAreCalls(states[k].world.calls, h, db.table[i].id);
    SentWasPublished(db, i);
  }

  lemma SentWasPublished(db: Db, i: nat)
    requires Inv(db) && i < |db.table|
    ensures db.table[i].status == Sent ==> Count(db.bus, i, true) >= 1
  {
    assert Matches(db.table[i], Of(db.committed, i));
    CountOfMatching(db.committed, i, db.table[i]);
  }
}
