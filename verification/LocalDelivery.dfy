/** Relays publishing to an in-process bus whose handlers for one event are all guarded,
    each with a store of its own.  The stores live as long as the run: a transaction may
    be lost, the process is not restarted. */
module LocalDelivery {
  import opened Options
  import opened Outbox
  import opened RelayRuns
  import opened Events

  function CallsTo(calls: seq<Call>, h: nat, eventId: string): nat {
    if calls == [] then 0
    else
      var last := calls[|calls| - 1];
      CallsTo(calls[..|calls| - 1], h, eventId) + if last.handler == h && last.eventId == eventId then 1 else 0
  }

  /** Invocations of a handler for an event that ended without raising. */
  function Completions(calls: seq<Call>, h: nat, eventId: string): nat {
    if calls == [] then 0
    else Completions(calls[..|calls| - 1], h, eventId) + if calls[|calls| - 1] == Call(h, eventId, true) then 1 else 0
  }

  ghost predicate OwnStores(handlers: seq<Guarded>, name: string) {
    && (forall h :: 0 <= h < |handlers| ==> handlers[h].store.Some? && handlers[h].eventName == name)
    && (forall g, h :: 0 <= g < h < |handlers| ==> handlers[g].store != handlers[h].store)
  }

  function Used(w: World, handlers: seq<Guarded>, key: string): nat {
    if handlers == [] then 0
    else Used(w, handlers[..|handlers| - 1], key) + if Owned(w, handlers[|handlers| - 1], key) then 1 else 0
  }

  // ---------------------------------------------------------------- one publish

  lemma HandleEffect(w: World, i: nat, g: Guarded, id: string, raises: bool, h: nat, f: Guarded)
    requires g.store.Some? && f.store.Some? && f.eventName == g.eventName
    requires h == i ==> f == g
    requires h != i ==> f.store != g.store
    ensures var (w', _) := Handle(w, i, g, id, raises);
            var key := EventKey(g.eventName, id);
            && (h != i ==> Owned(w', f, key) == Owned(w, f, key) && SameCalls(w, w', h, id))
            && (h == i ==> Owned(w', f, key))
            && (h == i && Owned(w, f, key) ==> SameCalls(w, w', h, id))
            && (h == i && !Owned(w, f, key) ==>
                  && CallsTo(w'.calls, h, id) == CallsTo(w.calls, h, id) + 1
                  && Completions(w'.calls, h, id) == Completions(w.calls, h, id) + if raises then 0 else 1)
  {
    var w' := Handle(w, i, g, id, raises).0;
    assert w'.calls == w.calls || (w'.calls == w.calls + [Call(i, id, !raises)] && w'.calls[..|w.calls|] == w.calls);
  }

  ghost predicate SameCalls(w: World, w': World, h: nat, id: string) {
    CallsTo(w'.calls, h, id) == CallsTo(w.calls, h, id) && Completions(w'.calls, h, id) == Completions(w.calls, h, id)
  }

  /** What a publish does to one handler: its key is used up by an invocation, once, which
      completes unless the handler raises. */
  lemma {:induction false} PublishEffect(w: World, handlers: seq<Guarded>, name: string, i: nat, id: string, raising: set<nat>, h: nat)
    requires OwnStores(handlers, name) && i <= |handlers| && h < |handlers|
    ensures var (w', ok) := PublishFrom(w, handlers, i, id, raising);
            var key := EventKey(name, id);
            && (Owned(w, handlers[h], key) ==> Owned(w', handlers[h], key))
            && CallsTo(w'.calls, h, id)
               == CallsTo(w.calls, h, id) + (if Owned(w', handlers[h], key) && !Owned(w, handlers[h], key) then 1 else 0)
            && Completions(w'.calls, h, id)
               == Completions(w.calls, h, id)
                  + (if Owned(w', handlers[h], key) && !Owned(w, handlers[h], key) && h !in raising then 1 else 0)
            && (ok && i <= h ==> Owned(w', handlers[h], key))
    decreases |handlers| - i
  {
    if i < |handlers| {
      HandleEffect(w, i, handlers[i], id, i in raising, h, handlers[h]);
      var (w1, ok) := Handle(w, i, handlers[i], id, i in raising);
      if ok {
        PublishEffect(w1, handlers, name, i + 1, id, raising, h);
      }
    }
  }

  lemma HandleFrame(w: World, h: nat, g: Guarded, id: string, raises: bool, f: Guarded, other: string, otherKey: string)
    requires other != id && otherKey != EventKey(g.eventName, id)
    ensures var w' := Handle(w, h, g, id, raises).0;
            && Owned(w', f, otherKey) == Owned(w, f, otherKey)
            && forall j :: SameCalls(w, w', j, other)
  {
    var w' := Handle(w, h, g, id, raises).0;
    assert w'.calls == w.calls || (w'.calls == w.calls + [Call(h, id, !raises)] && w'.calls[..|w.calls|] == w.calls);
  }

  /** Other events are not touched. */
  lemma {:induction false} PublishFrame(w: World, handlers: seq<Guarded>, name: string, i: nat, id: string, raising: set<nat>,
                                        h: nat, other: string, otherKey: string)
    requires OwnStores(handlers, name) && i <= |handlers| && h < |handlers|
    requires other != id && otherKey != EventKey(name, id)
    ensures var (w', _) := PublishFrom(w, handlers, i, id, raising);
            && Owned(w', handlers[h], otherKey) == Owned(w, handlers[h], otherKey)
            && SameCalls(w, w', h, other)
    decreases |handlers| - i
  {
    if i < |handlers| {
      HandleFrame(w, i, handlers[i], id, i in raising, handlers[h], other, otherKey);
      var (w1, ok) := Handle(w, i, handlers[i], id, i in raising);
      if ok {
        PublishFrame(w1, handlers, name, i + 1, id, raising, h, other, otherKey);
      }
    }
  }

  lemma KeysDiffer(name: string, a: string, b: string)
    requires a != b
    ensures EventKey(name, a) != EventKey(name, b)
  {
    if EventKey(name, a) == EventKey(name, b) {
      EventKeyInjective(name, a, b);
    }
  }

  /** A publish that fails was stopped by a handler that had not used its key. */
  lemma {:induction false} FailureUsesAKey(w: World, handlers: seq<Guarded>, name: string, i: nat, id: string, raising: set<nat>)
    returns (g: nat)
    requires OwnStores(handlers, name) && i <= |handlers|
    requires !PublishFrom(w, handlers, i, id, raising).1
    ensures i <= g < |handlers| && g in raising && !Owned(w, handlers[g], EventKey(name, id))
    ensures Owned(PublishFrom(w, handlers, i, id, raising).0, handlers[g], EventKey(name, id))
    decreases |handlers| - i
  {
    var (w1, ok) := Handle(w, i, handlers[i], id, i in raising);
    if ok {
      g := FailureUsesAKey(w1, handlers, name, i + 1, id, raising);
      assert handlers[g].store != handlers[i].store;
    } else {
      g := i;
    }
  }

  lemma {:induction false} UsedGrows(w: World, w': World, handlers: seq<Guarded>, key: string)
    requires forall h :: 0 <= h < |handlers| && Owned(w, handlers[h], key) ==> Owned(w', handlers[h], key)
    ensures Used(w, handlers, key) <= Used(w', handlers, key) <= |handlers|
    ensures (exists h :: 0 <= h < |handlers| && !Owned(w, handlers[h], key) && Owned(w', handlers[h], key)) ==>
              Used(w, handlers, key) < Used(w', handlers, key)
    ensures (forall h :: 0 <= h < |handlers| ==> Owned(w', handlers[h], key)) <==> Used(w', handlers, key) == |handlers|
  {
    if handlers != [] {
      UsedGrows(w, w', handlers[..|handlers| - 1], key);
    }
  }

  lemma {:induction false} UsedSame(w: World, w': World, handlers: seq<Guarded>, key: string)
    requires forall h :: 0 <= h < |handlers| ==> Owned(w, handlers[h], key) == Owned(w', handlers[h], key)
    ensures Used(w, handlers, key) == Used(w', handlers, key)
  {
    if handlers != [] {
      UsedSame(w, w', handlers[..|handlers| - 1], key);
    }
  }

  /** Handlers that share a store share the key: after the first of them nobody else is
      invoked for the event, by this publish or by any later one. */
  lemma {:induction false} SharedStoreSilencesTheRest(w: World, handlers: seq<Guarded>, i: nat, id: string, raising: set<nat>, n: nat, key: string)
    requires i <= |handlers|
    requires key in Contents(w.stores, n)
    requires forall h :: i <= h < |handlers| ==>
               handlers[h].store == Some(n) && EventKey(handlers[h].eventName, id) == key
    ensures PublishFrom(w, handlers, i, id, raising) == (w, true)
    decreases |handlers| - i
  {
    if i < |handlers| {
      SharedStoreSilencesTheRest(w, handlers, i + 1, id, raising, n, key);
    }
  }

  // ---------------------------------------------------------------- whole runs

  datatype Local = Local(db: Db, world: World)

  /** A relay step, with the handlers that would raise if this step invoked them. */
  datatype Move = Move(step: Step, raising: set<nat>)

  ghost predicate Delivers(name: string, db: Db, step: Step) {
    && step.Deliver? && Enabled(db, step)
    && var t := db.live[step.relay].value; db.table[t.sel[|t.log|]].eventName == name
  }

  function RowInHand(db: Db, r: nat): nat
    requires Busy(db, r) && |db.live[r].value.log| < |db.live[r].value.sel|
  {
    db.live[r].value.sel[|db.live[r].value.log|]
  }

  /** Publishing an event called `name` goes through the handlers; the publisher's outcome
      for other events is not fixed. */
  ghost predicate LocalNext(handlers: seq<Guarded>, name: string, s: Local, m: Move, s': Local) {
    && Enabled(s.db, m.step)
    && s'.db == Do(s.db, m.step)
    && if Delivers(name, s.db, m.step)
       then (s'.world, m.step.ok) == PublishFrom(s.world, handlers, 0, s.db.table[RowInHand(s.db, m.step.relay)].id, m.raising)
       else s'.world == s.world
  }

  ghost predicate IsLocalRun(handlers: seq<Guarded>, name: string, relays: nat, states: seq<Local>, moves: seq<Move>) {
    && |states| == |moves| + 1
    && states[0] == Local(Init(relays), World(map[], []))
    && forall k :: 0 <= k < |moves| ==> LocalNext(handlers, name, states[k], moves[k], states[k + 1])
  }

  ghost predicate Accounted(handlers: seq<Guarded>, name: string, db: Db, w: World, i: nat)
    requires i < |db.table|
  {
    var id := db.table[i].id;
    && Count(db.bus, i, false) <= Used(w, handlers, EventKey(name, id))
    && (Count(db.bus, i, true) > 0 ==> Used(w, handlers, EventKey(name, id)) == |handlers|)
    && forall h :: 0 <= h < |handlers| ==>
         CallsTo(w.calls, h, id) == if Owned(w, handlers[h], EventKey(name, id)) then 1 else 0
  }

  /** Keys and invocations belong to events that have been staged. */
  ghost predicate NoStrangers(handlers: seq<Guarded>, name: string, db: Db, w: World) {
    forall id: string, h :: 0 <= h < |handlers| && Stranger(db, id) ==>
      Untouched(handlers[h], name, w, id, h)
  }

  ghost predicate Untouched(g: Guarded, name: string, w: World, id: string, h: nat) {
    !Owned(w, g, EventKey(name, id)) && CallsTo(w.calls, h, id) == 0
  }

  ghost predicate LocalInv(handlers: seq<Guarded>, name: string, s: Local) {
    && Inv(s.db)
    && NoStrangers(handlers, name, s.db, s.world)
    && forall i: nat :: i < |s.db.table| && s.db.table[i].eventName == name ==> Accounted(handlers, name, s.db, s.world, i)
  }

  lemma {:induction false} UnusedKey(w: World, handlers: seq<Guarded>, key: string)
    requires forall h :: 0 <= h < |handlers| ==> !Owned(w, handlers[h], key)
    ensures Used(w, handlers, key) == 0
  {
    if handlers != [] {
      UnusedKey(w, handlers[..|handlers| - 1], key);
    }
  }

  lemma StepKeepsIdentity(db: Db, step: Step, i: nat)
    requires Inv(db) && Enabled(db, step) && i < |db.table|
    ensures |Do(db, step).table| >= |db.table|
    ensures Do(db, step).table[i].id == db.table[i].id && Do(db, step).table[i].eventName == db.table[i].eventName
    ensures !step.Insert? ==> |Do(db, step).table| == |db.table|
  {
    if step.Commit? {
      LogTouchesOnce(db.table, db.live[step.relay].value);
      EnvelopeIsStable(db.table, db.live[step.relay].value.log, i);
    }
  }

  lemma PublishAccounts(handlers: seq<Guarded>, name: string, s: Local, m: Move, s': Local, i: nat)
    requires OwnStores(handlers, name) && LocalInv(handlers, name, s) && LocalNext(handlers, name, s, m, s')
    requires Delivers(name, s.db, m.step) && i < |s.db.table| && s.db.table[i].eventName == name
    ensures Accounted(handlers, name, s'.db, s'.world, i)
  {
    var r := m.step.relay;
    var row := RowInHand(s.db, r);
    var id := s.db.table[row].id;
    var p := PublishOf(s.db, s.db.live[r].value, m.step.ok, m.step.at);
    CountConcat(s.db.bus, [p], i, true);
    CountConcat(s.db.bus, [p], i, false);
    assert Count([p], i, true) == (if row == i && p.ok then 1 else 0) && Count([p], i, false) == (if row == i && !p.ok then 1 else 0) by {
      assert [p][..0] == [];
    }
    assert Accounted(handlers, name, s.db, s.world, i);
    var w, w' := s.world, s'.world;
    var key := EventKey(name, s.db.table[i].id);
    if row == i {
      forall h | 0 <= h < |handlers|
        ensures Owned(w, handlers[h], key) ==> Owned(w', handlers[h], key)
        ensures CallsTo(w'.calls, h, id) == if Owned(w', handlers[h], key) then 1 else 0
        ensures m.step.ok ==> Owned(w', handlers[h], key)
      {
        PublishEffect(w, handlers, name, 0, id, m.raising, h);
      }
      UsedGrows(w, w', handlers, key);
      if !m.step.ok {
        var g := FailureUsesAKey(w, handlers, name, 0, id, m.raising);
      }
    } else {
      assert s.db.table[i].id != id;
      KeysDiffer(name, s.db.table[i].id, id);
      forall h | 0 <= h < |handlers|
        ensures Owned(w', handlers[h], key) == Owned(w, handlers[h], key)
        ensures CallsTo(w'.calls, h, s.db.table[i].id) == CallsTo(w.calls, h, s.db.table[i].id)
      {
        PublishFrame(w, handlers, name, 0, id, m.raising, h, s.db.table[i].id, key);
      }
      UsedSame(w, w', handlers, key);
    }
  }

  ghost predicate Stranger(db: Db, id: string) {
    forall i :: 0 <= i < |db.table| ==> db.table[i].id != id
  }

  lemma StrangerBefore(db: Db, step: Step, id: string)
    requires Inv(db) && Enabled(db, step) && Stranger(Do(db, step), id)
    ensures Stranger(db, id)
  {
    forall i: nat | i < |db.table| ensures db.table[i].id != id {
      StepKeepsIdentity(db, step, i);
    }
  }

  lemma StrangerStaysOut(handlers: seq<Guarded>, name: string, s: Local, m: Move, s': Local, id: string, h: nat)
    requires OwnStores(handlers, name) && LocalNext(handlers, name, s, m, s') && h < |handlers|
    requires Stranger(s.db, id) && NoStrangers(handlers, name, s.db, s.world)
    ensures Untouched(handlers[h], name, s'.world, id, h)
  {
    assert Untouched(handlers[h], name, s.world, id, h);
    if Delivers(name, s.db, m.step) {
      var row := RowInHand(s.db, m.step.relay);
      KeysDiffer(name, id, s.db.table[row].id);
      PublishFrame(s.world, handlers, name, 0, s.db.table[row].id, m.raising, h, id, EventKey(name, id));
    }
  }

  lemma StrangersStayOut(handlers: seq<Guarded>, name: string, s: Local, m: Move, s': Local)
    requires OwnStores(handlers, name) && LocalInv(handlers, name, s) && LocalNext(handlers, name, s, m, s')
    ensures NoStrangers(handlers, name, s'.db, s'.world)
  {
    forall id: string, h | 0 <= h < |handlers| && Stranger(s'.db, id)
      ensures Untouched(handlers[h], name, s'.world, id, h)
    {
      StrangerBefore(s.db, m.step, id);
      StrangerStaysOut(handlers, name, s, m, s', id, h);
    }
  }

  /** A step that is not a publish of row `i` leaves its counts on the bus alone. */
  lemma OtherRowsCount(db: Db, step: Step, i: nat, ok: bool)
    requires Inv(db) && Enabled(db, step)
    requires step.Deliver? ==> RowInHand(db, step.relay) != i
    ensures Count(Do(db, step).bus, i, ok) == Count(db.bus, i, ok)
  {
  }

  lemma OldRowsAccount(handlers: seq<Guarded>, name: string, s: Local, m: Move, s': Local, i: nat)
    requires LocalInv(handlers, name, s) && LocalNext(handlers, name, s, m, s')
    requires !Delivers(name, s.db, m.step) && i < |s.db.table| && s.db.table[i].eventName == name
    ensures |s'.db.table| > i && Accounted(handlers, name, s'.db, s'.world, i)
  {
    StepKeepsIdentity(s.db, m.step, i);
    assert Accounted(handlers, name, s.db, s.world, i);
    OtherRowsCount(s.db, m.step, i, true);
    OtherRowsCount(s.db, m.step, i, false);
  }

  lemma UnseenAccounts(handlers: seq<Guarded>, name: string, db: Db, w: World, i: nat)
    requires i < |db.table| && forall k :: 0 <= k < |db.bus| ==> db.bus[k].row != i
    requires forall h :: 0 <= h < |handlers| ==>
               !Owned(w, handlers[h], EventKey(name, db.table[i].id)) && CallsTo(w.calls, h, db.table[i].id) == 0
    ensures Accounted(handlers, name, db, w, i)
  {
    OfAbsent(db.bus, i);
    UnusedKey(w, handlers, EventKey(name, db.table[i].id));
  }

  lemma NewRowAccounts(handlers: seq<Guarded>, name: string, db: Db, w: World, e: Envelope, id: string, createdAt: int)
    requires NoStrangers(handlers, name, db, w) && InTable(db.bus, |db.table|) && Enabled(db, Insert(e, id, createdAt))
    ensures Accounted(handlers, name, Do(db, Insert(e, id, createdAt)), w, |db.table|)
  {
    forall h | 0 <= h < |handlers| ensures Untouched(handlers[h], name, w, id, h) {
      assert Stranger(db, id);
    }
    UnseenAccounts(handlers, name, Do(db, Insert(e, id, createdAt)), w, |db.table|);
  }

  lemma MoveAccounts(handlers: seq<Guarded>, name: string, s: Local, m: Move, s': Local, i: nat)
    requires OwnStores(handlers, name) && LocalInv(handlers, name, s) && LocalNext(handlers, name, s, m, s')
    requires i < |s'.db.table| && s'.db.table[i].eventName == name
    ensures Accounted(handlers, name, s'.db, s'.world, i)
  {
    TableGrowsByInserts(s.db, m.step);
    if i >= |s.db.table| {
      NewRowAccounts(handlers, name, s.db, s.world, m.step.e, m.step.id, m.step.createdAt);
    } else {
      StepKeepsIdentity(s.db, m.step, i);
      if Delivers(name, s.db, m.step) {
        PublishAccounts(handlers, name, s, m, s', i);
      } else {
        OldRowsAccount(handlers, name, s, m, s', i);
      }
    }
  }

  lemma TableGrowsByInserts(db: Db, step: Step)
    requires Inv(db) && Enabled(db, step)
    ensures |Do(db, step).table| == |db.table| + if step.Insert? then 1 else 0
  {
    if step.Commit? {
      LogTouchesOnce(db.table, db.live[step.relay].value);
    }
  }

  lemma MoveKeepsLocalInv(handlers: seq<Guarded>, name: string, s: Local, m: Move, s': Local)
    requires OwnStores(handlers, name) && LocalInv(handlers, name, s) && LocalNext(handlers, name, s, m, s')
    ensures LocalInv(handlers, name, s')
  {
    StepKeepsInv(s.db, m.step);
    StrangersStayOut(handlers, name, s, m, s');
    forall i: nat | i < |s'.db.table| && s'.db.table[i].eventName == name ensures Accounted(handlers, name, s'.db, s'.world, i) {
      MoveAccounts(handlers, name, s, m, s', i);
    }
  }

  lemma LocalStart(handlers: seq<Guarded>, name: string, relays: nat)
    ensures LocalInv(handlers, name, Local(Init(relays), World(map[], [])))
  {
    InitInv(relays);
  }

  lemma {:induction false} LocalRunKeepsInv(handlers: seq<Guarded>, name: string, relays: nat, states: seq<Local>, moves: seq<Move>, k: nat)
    requires OwnStores(handlers, name) && IsLocalRun(handlers, name, relays, states, moves) && k < |states|
    ensures LocalInv(handlers, name, states[k])
  {
    if k == 0 {
      LocalStart(handlers, name, relays);
    } else {
      LocalRunKeepsInv(handlers, name, relays, states, moves, k - 1);
      MoveKeepsLocalInv(handlers, name, states[k - 1], moves[k - 1], states[k]);
    }
  }

  /** With d guarded handlers a message fails at most d times in all, so with at most seven
      it never ends up failed; once it is sent every handler has run exactly once. */
  lemma InProcessDelivery(handlers: seq<Guarded>, name: string, relays: nat, states: seq<Local>, moves: seq<Move>, k: nat, i: nat)
    requires OwnStores(handlers, name) && IsLocalRun(handlers, name, relays, states, moves) && k < |states|
    requires i < |states[k].db.table| && states[k].db.table[i].eventName == name
    ensures var row := states[k].db.table[i];
            && Count(states[k].db.bus, i, false) <= |handlers|
            && (row.status == Failed ==> |handlers| >= 8)
            && (forall h :: 0 <= h < |handlers| ==> CallsTo(states[k].world.calls, h, row.id) <= 1)
            && (row.status == Sent ==> forall h :: 0 <= h < |handlers| ==> CallsTo(states[k].world.calls, h, row.id) == 1)
  {
    LocalRunKeepsInv(handlers, name, relays, states, moves, k);
    var db, w := states[k].db, states[k].world;
    var row := db.table[i];
    assert Accounted(handlers, name, db, w, i);
    UsedGrows(w, w, handlers, EventKey(name, row.id));
    assert Matches(row, Of(db.committed, i));
    CountOfMatching(db.committed, i, row);
    assert Count(db.bus, i, true) >= Count(db.committed, i, true);
    assert Count(db.bus, i, false) >= Count(db.committed, i, false);
  }

  // ---------------------------------------------------------------- which invocations complete

  lemma {:induction false} CompletionsAreCalls(calls: seq<Call>, h: nat, id: string)
    ensures Completions(calls, h, id) <= CallsTo(calls, h, id)
  {
    if calls != [] {
      CompletionsAreCalls(calls[..|calls| - 1], h, id);
    }
  }

  /** The step in which the handler is invoked for the message in row `i`. */
  ghost predicate Invokes(name: string, s: Local, m: Move, s': Local, i: nat, h: nat) {
    && Delivers(name, s.db, m.step) && RowInHand(s.db, m.step.relay) == i && i < |s.db.table|
    && CallsTo(s.world.calls, h, s.db.table[i].id) == 0 && CallsTo(s'.world.calls, h, s.db.table[i].id) == 1
  }

  lemma NewRowIsUntouched(handlers: seq<Guarded>, name: string, s: Local, m: Move, s': Local, i: nat, h: nat)
    requires LocalInv(handlers, name, s) && LocalNext(handlers, name, s, m, s')
    requires |s.db.table| <= i < |s'.db.table| && h < |handlers|
    ensures CallsTo(s'.world.calls, h, s'.db.table[i].id) == 0
  {
    TableGrowsByInserts(s.db, m.step);
    assert Stranger(s.db, m.step.id);
    assert Untouched(handlers[h], name, s.world, m.step.id, h);
  }

  /** A handler that has been invoked was invoked before the step or is by it. */
  lemma InvokedBefore(handlers: seq<Guarded>, name: string, s: Local, m: Move, s': Local, i: nat, h: nat)
    requires OwnStores(handlers, name) && LocalInv(handlers, name, s) && LocalNext(handlers, name, s, m, s')
    requires i < |s'.db.table| && s'.db.table[i].eventName == name && h < |handlers|
    requires CallsTo(s'.world.calls, h, s'.db.table[i].id) == 1
    ensures i < |s.db.table| && s.db.table[i].eventName == name && s.db.table[i].id == s'.db.table[i].id
    ensures SameCalls(s.world, s'.world, h, s.db.table[i].id)
            || (&& Invokes(name, s, m, s', i, h)
                && Completions(s'.world.calls, h, s.db.table[i].id) == if h in m.raising then 0 else 1)
  {
    TableGrowsByInserts(s.db, m.step);
    if i >= |s.db.table| {
      NewRowIsUntouched(handlers, name, s, m, s', i, h);
    } else {
      var id := s.db.table[i].id;
      StepKeepsIdentity(s.db, m.step, i);
      if Delivers(name, s.db, m.step) {
        var row := RowInHand(s.db, m.step.relay);
        if row == i {
          assert Accounted(handlers, name, s.db, s.world, i);
          PublishEffect(s.world, handlers, name, 0, id, m.raising, h);
          CompletionsAreCalls(s.world.calls, h, id);
        } else {
          KeysDiffer(name, id, s.db.table[row].id);
          PublishFrame(s.world, handlers, name, 0, s.db.table[row].id, m.raising, h, id, EventKey(name, id));
        }
      }
    }
  }

  lemma LastMove(handlers: seq<Guarded>, name: string, relays: nat, states: seq<Local>, moves: seq<Move>, k: nat, s: Local, s': Local)
    requires OwnStores(handlers, name) && IsLocalRun(handlers, name, relays, states, moves) && k + 1 < |states|
    requires s == states[k] && s' == states[k + 1]
    ensures LocalInv(handlers, name, s) && LocalNext(handlers, name, s, moves[k], s')
  {
    LocalRunKeepsInv(handlers, name, relays, states, moves, k);
  }

  /** A handler completes a message if and only if its one invocation for it does not raise:
      later deliveries skip it either way. */
  lemma {:induction false} CompletesUnlessRaised(handlers: seq<Guarded>, name: string, relays: nat, states: seq<Local>, moves: seq<Move>,
                                                 k: nat, i: nat, h: nat)
    returns (j: nat)
    requires OwnStores(handlers, name) && IsLocalRun(handlers, name, relays, states, moves) && k < |states|
    requires i < |states[k].db.table| && states[k].db.table[i].eventName == name && h < |handlers|
    requires CallsTo(states[k].world.calls, h, states[k].db.table[i].id) == 1
    ensures j < k && Invokes(name, states[j], moves[j], states[j + 1], i, h)
    ensures Completions(states[k].world.calls, h, states[k].db.table[i].id) == if h in moves[j].raising then 0 else 1
    decreases k
  {
    assert k > 0;
    var s, s' := states[k - 1], states[k];
    LastMove(handlers, name, relays, states, moves, k - 1, s, s');
    InvokedBefore(handlers, name, s, moves[k - 1], s', i, h);
    if SameCalls(s.world, s'.world, h, s.db.table[i].id) {
      j := CompletesUnlessRaised(handlers, name, relays, states, moves, k - 1, i, h);
    } else {
      j := k - 1;
    }
  }

  /** "At least once" fails exactly there: for a message that was sent, a handler completed it
      once if its one invocation did not raise, and otherwise never. */
  lemma SentIsCompletedUnlessRaised(handlers: seq<Guarded>, name: string, relays: nat, states: seq<Local>, moves: seq<Move>,
                                    k: nat, i: nat, h: nat)
    returns (j: nat)
    requires OwnStores(handlers, name) && IsLocalRun(handlers, name, relays, states, moves) && k < |states|
    requires i < |states[k].db.table| && states[k].db.table[i].eventName == name && h < |handlers|
    requires states[k].db.table[i].status == Sent
    ensures j < k && Invokes(name, states[j], moves[j], states[j + 1], i, h)
    ensures Completions(states[k].world.calls, h, states[k].db.table[i].id) == if h in moves[j].raising then 0 else 1
  {
    InProcessDelivery(handlers, name, relays, states, moves, k, i);
    j := CompletesUnlessRaised(handlers, name, relays, states, moves, k, i, h);
  }

  // ---------------------------------------------------------------- runs in which handlers raise

  lemma ExtendRun(handlers: seq<Guarded>, name: string, relays: nat, states: seq<Local>, moves: seq<Move>, m: Move, s': Local)
    requires IsLocalRun(handlers, name, relays, states, moves)
    requires LocalNext(handlers, name, states[|moves|], m, s')
    ensures IsLocalRun(handlers, name, relays, states + [s'], moves + [m])
  {
  }

  /** Select, publish and commit one after another. */
  lemma ExtendBatch(handlers: seq<Guarded>, name: string, relays: nat, states: seq<Local>, moves: seq<Move>,
                    m1: Move, s1: Local, m2: Move, s2: Local, m3: Move, s3: Local)
    returns (states': seq<Local>, moves': seq<Move>)
    requires IsLocalRun(handlers, name, relays, states, moves)
    requires LocalNext(handlers, name, states[|moves|], m1, s1)
    requires LocalNext(handlers, name, s1, m2, s2) && LocalNext(handlers, name, s2, m3, s3)
    ensures IsLocalRun(handlers, name, relays, states', moves') && states'[|moves'|] == s3
  {
    ExtendRun(handlers, name, relays, states, moves, m1, s1);
    ExtendRun(handlers, name, relays, states + [s1], moves + [m1], m2, s2);
    ExtendRun(handlers, name, relays, states + [s1] + [s2], moves + [m1] + [m2], m3, s3);
    states', moves' := states + [s1] + [s2] + [s3], moves + [m1] + [m2] + [m3];
  }

  lemma {:induction false} StopsAt(w: World, handlers: seq<Guarded>, name: string, i: nat, k: nat, id: string)
    requires OwnStores(handlers, name) && i <= k < |handlers|
    requires forall h :: 0 <= h < |handlers| ==> (Owned(w, handlers[h], EventKey(name, id)) <==> h < k)
    ensures PublishFrom(w, handlers, i, id, {k})
            == (WithKey(w.(calls := w.calls + [Call(k, id, false)]), handlers[k], EventKey(name, id)), false)
    decreases k - i
  {
    if i < k {
      StopsAt(w, handlers, name, i + 1, k, id);
    }
  }

  /** The keys of the first `k` handlers are used, and no invocation completed. */
  ghost predicate Failing(handlers: seq<Guarded>, name: string, w: World, id: string, k: nat) {
    && (forall h :: 0 <= h < |handlers| ==> (Owned(w, handlers[h], EventKey(name, id)) <==> h < k))
    && forall h: nat :: Completions(w.calls, h, id) == 0
  }

  /** One staged row after `k` failed rounds. */
  ghost predicate FailedRounds(handlers: seq<Guarded>, name: string, relays: nat, s: Local, k: nat) {
    && s.db.live == Init(relays).live
    && |s.db.table| == 1
    && var row := s.db.table[0];
       && row.eventName == name && row.attempts == k
       && row.status == (if k < 8 then Pending else Failed)
       && (row.nextAttemptAt.Some? ==> row.nextAttemptAt.value <= 1000 * k)
       && Failing(handlers, name, s.world, row.id, k)
  }

  lemma KeysAfterRound(handlers: seq<Guarded>, name: string, w: World, id: string, k: nat)
    requires OwnStores(handlers, name) && k < |handlers| && Failing(handlers, name, w, id, k)
    ensures var (w', ok) := PublishFrom(w, handlers, 0, id, {k});
            !ok && Failing(handlers, name, w', id, k + 1)
  {
    StopsAt(w, handlers, name, 0, k, id);
    assert forall h :: 0 <= h < |handlers| && h != k ==> handlers[h].store != handlers[k].store;
    assert (w.calls + [Call(k, id, false)])[..|w.calls|] == w.calls;
  }

  lemma SmallBackoff(k: nat)
    requires k <= 8
    ensures Backoff(k) <= 128
  {
    assert Pow2(6) == 64;
    assert Backoff(0) <= 128 && Backoff(1) <= 128 && Backoff(2) <= 128 && Backoff(3) <= 128 && Backoff(4) <= 128 && Backoff(5) <= 128;
  }

  lemma NothingLocked(db: Db, relays: nat)
    requires db.live == Init(relays).live
    ensures Locked(db) == {}
  {
  }

  lemma OneRowSelected(table: seq<Row>, now: int)
    requires |table| == 1 && Due(table[0], now)
    ensures IsSelection(table, {}, now, 1, [0])
  {
  }

  lemma OneRowReplayed(row: Row, p: Publish)
    requires p.row == 0
    ensures Committed([row], [p]) == [After(row, p)]
  {
    assert [p][..0] == [];
    assert Replay([row], []) == [row];
  }

  /** One batch over a table of one row. */
  lemma RowBatch(db: Db, relays: nat, now: int, ok: bool) returns (d1: Db, d2: Db, d3: Db)
    requires db.live == Init(relays).live && 0 < relays && |db.table| == 1 && Due(db.table[0], now)
    ensures Enabled(db, Select(0, now, 1, [0])) && d1 == Do(db, Select(0, now, 1, [0]))
    ensures Enabled(d1, Deliver(0, ok, 0)) && d2 == Do(d1, Deliver(0, ok, 0)) && RowInHand(d1, 0) == 0
    ensures Enabled(d2, Commit(0)) && d3 == Do(d2, Commit(0))
    ensures d1.table == d2.table == db.table && d3.live == db.live
    ensures exists p: Publish :: p.ok == ok && p.now == now && d3.table == [After(db.table[0], p)]
  {
    NothingLocked(db, relays);
    OneRowSelected(db.table, now);
    d1 := Do(db, Select(0, now, 1, [0]));
    d2 := Do(d1, Deliver(0, ok, 0));
    var p := PublishOf(d1, d1.live[0].value, ok, 0);
    assert d2.live[0].value.log == [p];
    d3 := Do(d2, Commit(0));
    assert db.table == [db.table[0]];
    OneRowReplayed(db.table[0], p);
  }

  lemma FailingRound(handlers: seq<Guarded>, name: string, relays: nat, s: Local, k: nat) returns (s1: Local, s2: Local, s3: Local)
    requires OwnStores(handlers, name) && 0 < relays && k < 8 && k < |handlers|
    requires FailedRounds(handlers, name, relays, s, k)
    ensures LocalNext(handlers, name, s, Move(Select(0, 1000 * k, 1, [0]), {}), s1)
    ensures LocalNext(handlers, name, s1, Move(Deliver(0, false, 0), {k}), s2)
    ensures LocalNext(handlers, name, s2, Move(Commit(0), {}), s3)
    ensures FailedRounds(handlers, name, relays, s3, k + 1)
  {
    var row := s.db.table[0];
    KeysAfterRound(handlers, name, s.world, row.id, k);
    SmallBackoff(k + 1);
    var d1, d2, d3 := RowBatch(s.db, relays, 1000 * k, false);
    s1 := Local(d1, s.world);
    s2 := Local(d2, PublishFrom(s.world, handlers, 0, row.id, {k}).0);
    s3 := Local(d3, s2.world);
  }

  lemma {:induction false} FailingRun(handlers: seq<Guarded>, name: string, relays: nat, k: nat) returns (states: seq<Local>, moves: seq<Move>)
    requires OwnStores(handlers, name) && 0 < relays && k <= 8 && k <= |handlers|
    ensures IsLocalRun(handlers, name, relays, states, moves)
    ensures FailedRounds(handlers, name, relays, states[|moves|], k)
  {
    if k == 0 {
      var s := Local(Init(relays), World(map[], []));
      var m := Move(Insert(Envelope("", name, "", "", "", 0, map[], None), "", 0), {});
      states, moves := [s, Local(Do(s.db, m.step), s.world)], [m];
    } else {
      states, moves := FailingRun(handlers, name, relays, k - 1);
      var s1, s2, s3 := FailingRound(handlers, name, relays, states[|moves|], k - 1);
      var m1, m2, m3 := Move(Select(0, 1000 * (k - 1), 1, [0]), {}), Move(Deliver(0, false, 0), {k - 1}), Move(Commit(0), {});
      states, moves := ExtendBatch(handlers, name, relays, states, moves, m1, s1, m2, s2, m3, s3);
    }
  }

  /** The run ends with the message in row `i` given up. */
  ghost predicate EndsFailed(handlers: seq<Guarded>, name: string, relays: nat, states: seq<Local>, moves: seq<Move>, i: nat) {
    && IsLocalRun(handlers, name, relays, states, moves)
    && var table := states[|moves|].db.table;
       i < |table| && table[i].eventName == name && table[i].status == Failed
  }

  ghost predicate CanFail(handlers: seq<Guarded>, name: string, relays: nat) {
    exists states, moves, i :: EndsFailed(handlers, name, relays, states, moves, i)
  }

  /** Whether a message can ever be given up, in terms of the number of handlers. */
  lemma FailedNeedsEightHandlers(handlers: seq<Guarded>, name: string, relays: nat)
    requires OwnStores(handlers, name) && 0 < relays
    ensures CanFail(handlers, name, relays) <==> |handlers| >= 8
  {
    if CanFail(handlers, name, relays) {
      var states, moves, i :| EndsFailed(handlers, name, relays, states, moves, i);
      InProcessDelivery(handlers, name, relays, states, moves, |moves|, i);
    }
    if |handlers| >= 8 {
      var states, moves := FailingRun(handlers, name, relays, 8);
      assert EndsFailed(handlers, name, relays, states, moves, 0);
    }
  }

  // ---------------------------------------------------------------- sent but never handled

  lemma {:induction false} NobodyRaises(w: World, handlers: seq<Guarded>, i: nat, id: string)
    requires i <= |handlers|
    ensures PublishFrom(w, handlers, i, id, {}).1
    decreases |handlers| - i
  {
    if i < |handlers| {
      NobodyRaises(Handle(w, i, handlers[i], id, false).0, handlers, i + 1, id);
    }
  }

  /** The run ends with the message in row `i` sent, and handler `h` never completed it. */
  ghost predicate EndsUnhandled(handlers: seq<Guarded>, name: string, relays: nat, states: seq<Local>, moves: seq<Move>, i: nat, h: nat) {
    && IsLocalRun(handlers, name, relays, states, moves) && h < |handlers|
    && var s := states[|moves|];
       && i < |s.db.table| && s.db.table[i].eventName == name && s.db.table[i].status == Sent
       && Completions(s.world.calls, h, s.db.table[i].id) == 0
  }

  ghost predicate CanGoUnhandled(handlers: seq<Guarded>, name: string, relays: nat) {
    exists states, moves, i, h :: EndsUnhandled(handlers, name, relays, states, moves, i, h)
  }

  lemma SendingRound(handlers: seq<Guarded>, name: string, relays: nat, s: Local) returns (s1: Local, s2: Local, s3: Local)
    requires OwnStores(handlers, name) && 0 < relays && handlers != [] && FailedRounds(handlers, name, relays, s, 1)
    ensures LocalNext(handlers, name, s, Move(Select(0, 1000, 1, [0]), {}), s1)
    ensures LocalNext(handlers, name, s1, Move(Deliver(0, true, 0), {}), s2)
    ensures LocalNext(handlers, name, s2, Move(Commit(0), {}), s3)
    ensures |s3.db.table| == 1 && s3.db.table[0].eventName == name && s3.db.table[0].status == Sent
    ensures Completions(s3.world.calls, 0, s3.db.table[0].id) == 0
  {
    var row := s.db.table[0];
    NobodyRaises(s.world, handlers, 0, row.id);
    PublishEffect(s.world, handlers, name, 0, row.id, {}, 0);
    var d1, d2, d3 := RowBatch(s.db, relays, 1000, true);
    s1 := Local(d1, s.world);
    s2 := Local(d2, PublishFrom(s.world, handlers, 0, row.id, {}).0);
    s3 := Local(d3, s2.world);
  }

  /** A message can be sent without ever being handled as soon as there is a handler. */
  lemma SentCanGoUnhandled(handlers: seq<Guarded>, name: string, relays: nat)
    requires OwnStores(handlers, name) && 0 < relays
    ensures CanGoUnhandled(handlers, name, relays) <==> handlers != []
  {
    if handlers != [] {
      var states, moves := FailingRun(handlers, name, relays, 1);
      var s1, s2, s3 := SendingRound(handlers, name, relays, states[|moves|]);
      var m1, m2, m3 := Move(Select(0, 1000, 1, [0]), {}), Move(Deliver(0, true, 0), {}), Move(Commit(0), {});
      states, moves := ExtendBatch(handlers, name, relays, states, moves, m1, s1, m2, s2, m3, s3);
      assert EndsUnhandled(handlers, name, relays, states, moves, 0, 0);
    }
  }
}
