/** The deduplication store, the guarded handlers and the in-process event bus. */
module Events {
  import opened Options
  import opened Outbox

  const PROCESSING := "processing"
  const DONE := "done"

  /** The in-memory key store; time-to-live arguments are ignored, as it does. */
  class InMemoryIdempotencyStore {
    var data: map<string, string>

    constructor ()
      ensures data == map[]
    {
      data := map[];
    }

    method Get(key: string) returns (value: Option<string>)
      ensures value == if key in data then Some(data[key]) else None
    {
      if key in data {
        value := Some(data[key]);
      } else {
        value := None;
      }
    }

    method Put(key: string, value: string)
      modifies this`data
      ensures data == old(data)[key := value]
    {
      data := data[key := value];
    }

    method Acquire(key: string) returns (first: bool)
      modifies this`data
      ensures first <==> key !in old(data)
      ensures data == if first then old(data)[key := PROCESSING] else old(data)
    {
      if key in data {
        return false;
      }
      data := data[key := PROCESSING];
      return true;
    }
  }

  function EventKey(eventName: string, eventId: string): string {
    "evt:" + eventName + ":" + eventId
  }

  /** Events of one subscription have different keys when their ids differ. */
  lemma EventKeyInjective(eventName: string, a: string, b: string)
    requires EventKey(eventName, a) == EventKey(eventName, b)
    ensures a == b
  {
    var n := |"evt:" + eventName + ":"|;
    assert EventKey(eventName, a)[n..] == a;
    assert EventKey(eventName, b)[n..] == b;
  }

  /** One handler wrapped by the consumer.  Consumers built without a store have none. */
  datatype Guarded = Guarded(eventName: string, store: Option<nat>)

  /** An invocation, and whether it ended without raising. */
  datatype Call = Call(handler: nat, eventId: string, completed: bool)

  /** The contents of the stores of a process, by number (a new store is empty), and every
      invocation of a wrapped handler. */
  datatype World = World(stores: map<nat, map<string, string>>, calls: seq<Call>)

  function Contents(stores: map<nat, map<string, string>>, n: nat): map<string, string> {
    if n in stores then stores[n] else map[]
  }

  predicate Owned(w: World, g: Guarded, key: string) {
    g.store.Some? && key in Contents(w.stores, g.store.value)
  }

  function WithKey(w: World, g: Guarded, key: string): World {
    if g.store.Some?
    then w.(stores := w.stores[g.store.value := Contents(w.stores, g.store.value)[key := DONE]])
    else w
  }

  /** What one guarded handler does with an event, and whether it returns. */
  function Handle(w: World, h: nat, g: Guarded, eventId: string, raises: bool): (World, bool) {
    var key := EventKey(g.eventName, eventId);
    if Owned(w, g, key) then (w, true)
    else (WithKey(w.(calls := w.calls + [Call(h, eventId, !raises)]), g, key), !raises)
  }

  /** Handlers `i..` run in order until one raises. */
  function PublishFrom(w: World, handlers: seq<Guarded>, i: nat, eventId: string, raising: set<nat>): (World, bool)
    decreases |handlers| - i
  {
    if i >= |handlers| then (w, true)
    else
      var (w', ok) := Handle(w, i, handlers[i], eventId, i in raising);
      if ok then PublishFrom(w', handlers, i + 1, eventId, raising) else (w', false)
  }

  class LocalEventBus {
    var handlers: map<string, seq<Guarded>>
    var stores: map<nat, map<string, string>>
    var calls: seq<Call>

    function State(): World
      reads this
    {
      World(stores, calls)
    }

    function Handlers(eventName: string): seq<Guarded>
      reads this
    {
      if eventName in handlers then handlers[eventName] else []
    }

    constructor ()
      ensures handlers == map[] && State() == World(map[], [])
    {
      handlers := map[];
      stores := map[];
      calls := [];
    }

    method Subscribe(eventName: string, store: Option<nat>)
      modifies this`handlers
      ensures Handlers(eventName) == old(Handlers(eventName)) + [Guarded(eventName, store)]
      ensures forall n :: n != eventName ==> Handlers(n) == old(Handlers(n))
    {
      if eventName !in handlers {
        handlers := handlers[eventName := []];
      }
      handlers := handlers[eventName := handlers[eventName] + [Guarded(eventName, store)]];
    }

    /** `raising` names the handlers that raise if they are invoked. */
    method Publish(e: Envelope, raising: set<nat>) returns (ok: bool)
      modifies this`stores, this`calls
      ensures (State(), ok) == PublishFrom(old(State()), Handlers(e.eventName), 0, e.eventId, raising)
    {
      var hs := Handlers(e.eventName);
      for i := 0 to |hs|
        invariant hs == Handlers(e.eventName)
        invariant PublishFrom(State(), hs, i, e.eventId, raising)
                  == PublishFrom(old(State()), hs, 0, e.eventId, raising)
      {
        ghost var before := State();
        var g := hs[i];
        var key := EventKey(g.eventName, e.eventId);
        if g.store.Some? {
          var n := g.store.value;
          if key in Contents(stores, n) {
            continue;
          }
          stores := stores[n := Contents(stores, n)[key := PROCESSING]];
        }
        calls := calls + [Call(i, e.eventId, i !in raising)];
        if g.store.Some? {
          var n := g.store.value;
          assert Contents(stores, n)[key := DONE] == Contents(before.stores, n)[key := DONE];
          stores := stores[n := Contents(stores, n)[key := DONE]];
          assert stores == before.stores[n := Contents(before.stores, n)[key := DONE]];
        }
        assert (State(), i !in raising) == Handle(before, i, g, e.eventId, i in raising);
        if i in raising {
          return false;
        }
      }
      return true;
    }
  }
}
