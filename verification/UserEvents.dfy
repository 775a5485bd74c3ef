/** From creating a user to the handler of its event: sessions creating users, relays
    publishing outbox rows, and consumers sharing one deduplication store. */
module UserEvents {
  import opened Options
  import opened Outbox
  import opened RelayRuns
  import Events

  const USER_CREATED := "user.created.v1"

  datatype User = User(id: string, email: string, displayName: string, vipLevel: int, createdAt: int)

  function UserPayload(u: User): map<string, Json> {
    map["user_id" := Text(u.id), "email" := Text(u.email), "display_name" := Text(u.displayName),
        "vip_level" := Number(u.vipLevel), "created_at" := Number(u.createdAt)]
  }

  function UserEnvelope(u: User, eventId: string, now: int, trace: Option<TraceContext>): Envelope {
    Envelope(eventId, USER_CREATED, "service-template", "user", u.id, now, UserPayload(u), trace)
  }

  /** A published event tells of this user. */
  ghost predicate Announces(e: Envelope, u: User) {
    && e.eventName == "user.created.v1" && e.aggregateType == "user" && e.aggregateId == u.id
    && e.payload.Keys == {"user_id", "email", "display_name", "vip_level", "created_at"}
    && e.payload["user_id"] == Text(u.id)
    && e.payload["email"] == Text(u.email)
    && e.payload["display_name"] == Text(u.displayName)
    && e.payload["vip_level"] == Number(u.vipLevel)
    && e.payload["created_at"] == Number(u.createdAt)
  }

  datatype CreateError = EmailExists | CommitFailed

  datatype Created = Ok(user: User) | Error(error: CreateError)

  class UserService {
    var users: seq<User>
    var outbox: seq<Row>

    constructor ()
      ensures users == [] && outbox == []
    {
      users, outbox := [], [];
    }

    /** `userId`, `eventId`, `rowId` and the clock readings are generated; `commits` says
        whether the commit goes through. */
    method CreateUser(email: string, displayName: string, vipLevel: int,
                      userId: string, userAt: int, eventId: string, now: int, trace: Option<TraceContext>,
                      rowId: string, rowAt: int, commits: bool)
      returns (r: Created)
      modifies this
      ensures r == Error(EmailExists) <==> exists i :: 0 <= i < |old(users)| && old(users)[i].email == email
      ensures r.Ok? <==> commits && r != Error(EmailExists)
      ensures r.Error? ==> users == old(users) && outbox == old(outbox)
      ensures r.Ok? ==>
                && r.user == User(userId, email, displayName, vipLevel, userAt)
                && users == old(users) + [r.user]
                && |outbox| == |old(outbox)| + 1 && outbox[..|old(outbox)|] == old(outbox)
                && Announces(ToEnvelope(outbox[|old(outbox)|]), r.user)
                && var row := outbox[|old(outbox)|];
                   && row.id == rowId && row.createdAt == rowAt && row.traceHeader == trace
                   && row.status == Pending && row.attempts == 0 && row.nextAttemptAt == None && row.sentAt == None
    {
      for i := 0 to |users|
        invariant forall j :: 0 <= j < i ==> users[j].email != email
      {
        if users[i].email == email {
          return Error(EmailExists);
        }
      }
      var user := User(userId, email, displayName, vipLevel, userAt);
      var envelope := UserEnvelope(user, eventId, now, trace);
      var row := StagedRow(envelope, rowId, rowAt);
      if !commits {
        return Error(CommitFailed);
      }
      users := users + [user];
      outbox := outbox + [row];
      r := Ok(user);
    }
  }

  // ---------------------------------------------------------------- the interleaved system

  /** A `create_user` in progress: the email was looked up, the user row is in the
      session, the outbox row is in the session. */
  datatype Session =
    | Idle
    | Checked(email: string, displayName: string, vipLevel: int)
    | Flushed(user: User)
    | Staged(user: User, envelope: Envelope)

  /** `store` and `calls` belong to the consumers: the shared deduplication store and the
      event ids the handler was invoked with; `running` are invocations not yet finished,
      `completed` those that ended without raising. */
  datatype Sys = Sys(
    users: seq<User>, sessions: seq<Session>, db: Db,
    store: map<string, string>, calls: seq<string>, running: set<string>, completed: seq<string>)

  datatype Act =
    | Check(s: nat, email: string, displayName: string, vipLevel: int)
    | Flush(s: nat, id: string, at: int)
    | Stage(s: nat, eventId: string, now: int, trace: Option<TraceContext>)
    | CommitUser(s: nat, rowId: string, rowAt: int)
    | Rollback(s: nat)
    | Relay(step: Step)
    | Receive(i: nat)
    | Finish(eventId: string, raised: bool)

  function Start(sessions: nat, relays: nat): Sys {
    Sys([], seq(sessions, _ => Idle), Init(relays), map[], [], {}, [])
  }

  predicate InFlight(t: Session) {
    t.Flushed? || t.Staged?
  }

  predicate EmailTaken(users: seq<User>, email: string) {
    exists i :: 0 <= i < |users| && users[i].email == email
  }

  predicate IdTaken(users: seq<User>, id: string) {
    exists i :: 0 <= i < |users| && users[i].id == id
  }

  predicate RowIdTaken(table: seq<Row>, id: string) {
    exists i :: 0 <= i < |table| && table[i].id == id
  }

  /** A flush waits while another open transaction has inserted the same id or email. */
  ghost predicate Unblocked(sessions: seq<Session>, id: string, email: string) {
    forall t :: 0 <= t < |sessions| && InFlight(sessions[t]) ==> sessions[t].user.id != id && sessions[t].user.email != email
  }

  ghost predicate CanAct(y: Sys, a: Act) {
    match a
    case Check(s, email, name, vip) => s < |y.sessions| && y.sessions[s].Idle?
    case Flush(s, id, at) => s < |y.sessions| && y.sessions[s].Checked? && Unblocked(y.sessions, id, y.sessions[s].email)
    case Stage(s, eventId, now, trace) => s < |y.sessions| && y.sessions[s].Flushed?
    case CommitUser(s, rowId, rowAt) => s < |y.sessions| && y.sessions[s].Staged?
    case Rollback(s) => s < |y.sessions|
    case Relay(step) => !step.Insert? && Enabled(y.db, step)
    case Receive(i) => i < |y.db.bus| && y.db.bus[i].envelope.eventName == USER_CREATED
    case Finish(id, raised) => id in y.running
  }

  ghost function Acted(y: Sys, a: Act): Sys
    requires CanAct(y, a)
  {
    match a
    case Check(s, email, name, vip) =>
      if EmailTaken(y.users, email) then y
      else y.(sessions := y.sessions[s := Checked(email, name, vip)])
    case Flush(s, id, at) =>
      var c := y.sessions[s];
      if EmailTaken(y.users, c.email) || IdTaken(y.users, id) then y.(sessions := y.sessions[s := Idle])
      else y.(sessions := y.sessions[s := Flushed(User(id, c.email, c.displayName, c.vipLevel, at))])
    case Stage(s, eventId, now, trace) =>
      var u := y.sessions[s].user;
      y.(sessions := y.sessions[s := Staged(u, UserEnvelope(u, eventId, now, trace))])
    case CommitUser(s, rowId, rowAt) =>
      var t := y.sessions[s];
      if RowIdTaken(y.db.table, rowId) then y.(sessions := y.sessions[s := Idle])
      else y.(sessions := y.sessions[s := Idle], users := y.users + [t.user],
              db := Do(y.db, Insert(t.envelope, rowId, rowAt)))
    case Rollback(s) => y.(sessions := y.sessions[s := Idle])
    case Relay(step) => y.(db := Do(y.db, step))
    case Receive(i) =>
      var id := y.db.bus[i].envelope.eventId;
      var key := Events.EventKey(USER_CREATED, id);
      if key in y.store then y
      else y.(store := y.store[key := Events.PROCESSING], calls := y.calls + [id], running := y.running + {id})
    case Finish(id, raised) =>
      y.(store := y.store[Events.EventKey(USER_CREATED, id) := Events.DONE], running := y.running - {id},
         completed := if raised then y.completed else y.completed + [id])
  }

  /** An uninterrupted `create_user` is one schedule of the interleaved system: it adds the
      user and the pending row of its event together. */
  lemma CreateUserIsASchedule(y: Sys, s: nat, email: string, name: string, vip: int,
                              userId: string, userAt: int, eventId: string, now: int, trace: Option<TraceContext>,
                              rowId: string, rowAt: int)
    returns (y1: Sys, y2: Sys, y3: Sys)
    requires s < |y.sessions| && y.sessions[s].Idle? && Unblocked(y.sessions, userId, email)
    requires !EmailTaken(y.users, email) && !IdTaken(y.users, userId) && !RowIdTaken(y.db.table, rowId)
    ensures CanAct(y, Check(s, email, name, vip)) && y1 == Acted(y, Check(s, email, name, vip))
    ensures CanAct(y1, Flush(s, userId, userAt)) && y2 == Acted(y1, Flush(s, userId, userAt))
    ensures CanAct(y2, Stage(s, eventId, now, trace)) && y3 == Acted(y2, Stage(s, eventId, now, trace))
    ensures CanAct(y3, CommitUser(s, rowId, rowAt))
    ensures var u := User(userId, email, name, vip, userAt);
            var row := StagedRow(UserEnvelope(u, eventId, now, trace), rowId, rowAt);
            Acted(y3, CommitUser(s, rowId, rowAt)) == y.(users := y.users + [u], db := y.db.(table := y.db.table + [row]))
  {
    y1 := Acted(y, Check(s, email, name, vip));
    y2 := Acted(y1, Flush(s, userId, userAt));
    y3 := Acted(y2, Stage(s, eventId, now, trace));
    assert y3.sessions[s := Idle] == y.sessions;
  }

  ghost predicate IsHistory(sessions: nat, relays: nat, states: seq<Sys>, acts: seq<Act>) {
    && |states| == |acts| + 1
    && states[0] == Start(sessions, relays)
    && forall k :: 0 <= k < |acts| ==> CanAct(states[k], acts[k]) && states[k + 1] == Acted(states[k], acts[k])
  }

  // ---------------------------------------------------------------- the invariant

  /** Users and outbox rows correspond one to one, by position. */
  ghost predicate Paired(users: seq<User>, table: seq<Row>) {
    |users| == |table| && forall i :: 0 <= i < |users| ==> Announces(ToEnvelope(table[i]), users[i])
  }

  ghost predicate UniqueUsers(users: seq<User>) {
    forall i, j :: 0 <= i < j < |users| ==> users[i].id != users[j].id && users[i].email != users[j].email
  }

  ghost predicate SessionsOk(users: seq<User>, sessions: seq<Session>) {
    && (forall s :: 0 <= s < |sessions| && InFlight(sessions[s]) ==>
          !EmailTaken(users, sessions[s].user.email) && !IdTaken(users, sessions[s].user.id))
    && (forall s, t :: 0 <= s < t < |sessions| && InFlight(sessions[s]) && InFlight(sessions[t]) ==>
          sessions[s].user.id != sessions[t].user.id && sessions[s].user.email != sessions[t].user.email)
    && (forall s :: 0 <= s < |sessions| && sessions[s].Staged? ==> Announces(sessions[s].envelope, sessions[s].user))
  }

  ghost predicate OnBus(bus: seq<Publish>, id: string) {
    exists k :: 0 <= k < |bus| && bus[k].envelope.eventId == id
  }

  ghost predicate Deduplicated(y: Sys) {
    && Distinct(y.calls)
    && (forall c :: 0 <= c < |y.calls| ==> Events.EventKey(USER_CREATED, y.calls[c]) in y.store && OnBus(y.db.bus, y.calls[c]))
    && (forall id :: id in y.running ==> id in y.calls && id !in y.completed)
    && Distinct(y.completed) && (forall id :: id in y.completed ==> id in y.calls)
    && (forall id :: Events.EventKey(USER_CREATED, id) in y.store ==> id in y.calls)
  }

  ghost predicate SysInv(y: Sys) {
    && Inv(y.db)
    && Paired(y.users, y.db.table)
    && UniqueUsers(y.users)
    && SessionsOk(y.users, y.sessions)
    && Deduplicated(y)
  }

  lemma EnvelopesSurvive(db: Db, step: Step, i: nat)
    requires Inv(db) && Enabled(db, step) && !step.Insert? && i < |db.table|
    ensures |Do(db, step).table| == |db.table| && ToEnvelope(Do(db, step).table[i]) == ToEnvelope(db.table[i])
  {
    if step.Commit? {
      LogTouchesOnce(db.table, db.live[step.relay].value);
      EnvelopeIsStable(db.table, db.live[step.relay].value.log, i);
    }
  }

  lemma OnBusStays(bus: seq<Publish>, bus': seq<Publish>, id: string)
    requires bus <= bus' && OnBus(bus, id)
    ensures OnBus(bus', id)
  {
    var k :| 0 <= k < |bus| && bus[k].envelope.eventId == id;
    assert bus'[k] == bus[k];
  }

  lemma RelayKeepsPairs(y: Sys, step: Step)
    requires SysInv(y) && CanAct(y, Relay(step))
    ensures SysInv(Acted(y, Relay(step)))
  {
    var db' := Do(y.db, step);
    StepKeepsInv(y.db, step);
    forall i | 0 <= i < |y.users| ensures |db'.table| == |y.db.table| && ToEnvelope(db'.table[i]) == ToEnvelope(y.db.table[i]) {
      EnvelopesSurvive(y.db, step, i);
    }
    if y.db.table == [] {
      assert step.Commit? ==> y.db.live[step.relay].value.sel == [];
    } else {
      EnvelopesSurvive(y.db, step, 0);
    }
    assert Paired(y.users, db'.table);
    assert y.db.bus <= db'.bus;
    forall c | 0 <= c < |y.calls| ensures OnBus(db'.bus, y.calls[c]) {
      OnBusStays(y.db.bus, db'.bus, y.calls[c]);
    }
  }

  lemma CommitUserKeepsUnique(users: seq<User>, sessions: seq<Session>, s: nat)
    requires UniqueUsers(users) && SessionsOk(users, sessions) && s < |sessions| && sessions[s].Staged?
    ensures UniqueUsers(users + [sessions[s].user]) && SessionsOk(users + [sessions[s].user], sessions[s := Idle])
  {
  }

  lemma CommitUserKeepsPairs(y: Sys, s: nat, rowId: string, rowAt: int)
    requires SysInv(y) && CanAct(y, CommitUser(s, rowId, rowAt))
    ensures SysInv(Acted(y, CommitUser(s, rowId, rowAt)))
  {
    var t := y.sessions[s];
    if !RowIdTaken(y.db.table, rowId) {
      StepKeepsInv(y.db, Insert(t.envelope, rowId, rowAt));
      CommitUserKeepsUnique(y.users, y.sessions, s);
      assert Announces(ToEnvelope(StagedRow(t.envelope, rowId, rowAt)), t.user);
    } else {
      IdlingKeepsSessions(y.users, y.sessions, s);
    }
  }

  lemma NotInFlightKeepsSessions(users: seq<User>, sessions: seq<Session>, s: nat, t: Session)
    requires SessionsOk(users, sessions) && s < |sessions| && !InFlight(t)
    ensures SessionsOk(users, sessions[s := t])
  {
  }

  lemma IdlingKeepsSessions(users: seq<User>, sessions: seq<Session>, s: nat)
    requires SessionsOk(users, sessions) && s < |sessions|
    ensures SessionsOk(users, sessions[s := Idle])
  {
    NotInFlightKeepsSessions(users, sessions, s, Idle);
  }

  lemma FlushKeepsSessions(users: seq<User>, sessions: seq<Session>, s: nat, u: User)
    requires SessionsOk(users, sessions) && s < |sessions| && !InFlight(sessions[s])
    requires Unblocked(sessions, u.id, u.email) && !EmailTaken(users, u.email) && !IdTaken(users, u.id)
    ensures SessionsOk(users, sessions[s := Flushed(u)])
  {
  }

  lemma StageKeepsSessions(users: seq<User>, sessions: seq<Session>, s: nat, e: Envelope)
    requires SessionsOk(users, sessions) && s < |sessions| && sessions[s].Flushed? && Announces(e, sessions[s].user)
    ensures SessionsOk(users, sessions[s := Staged(sessions[s].user, e)])
  {
  }

  lemma FlushKeepsInv(y: Sys, s: nat, id: string, at: int)
    requires SysInv(y) && CanAct(y, Flush(s, id, at))
    ensures SysInv(Acted(y, Flush(s, id, at)))
  {
    var y' := Acted(y, Flush(s, id, at));
    if y'.sessions[s].Flushed? {
      FlushKeepsSessions(y.users, y.sessions, s, y'.sessions[s].user);
    } else {
      IdlingKeepsSessions(y.users, y.sessions, s);
    }
  }

  lemma StageKeepsInv(y: Sys, s: nat, eventId: string, now: int, trace: Option<TraceContext>)
    requires SysInv(y) && CanAct(y, Stage(s, eventId, now, trace))
    ensures SysInv(Acted(y, Stage(s, eventId, now, trace)))
  {
    StageKeepsSessions(y.users, y.sessions, s, UserEnvelope(y.sessions[s].user, eventId, now, trace));
  }

  lemma CheckKeepsInv(y: Sys, s: nat, email: string, name: string, vip: int)
    requires SysInv(y) && CanAct(y, Check(s, email, name, vip))
    ensures SysInv(Acted(y, Check(s, email, name, vip)))
  {
    if !EmailTaken(y.users, email) {
      NotInFlightKeepsSessions(y.users, y.sessions, s, Checked(email, name, vip));
    }
  }

  lemma RollbackKeepsInv(y: Sys, s: nat)
    requires SysInv(y) && CanAct(y, Rollback(s))
    ensures SysInv(Acted(y, Rollback(s)))
  {
    IdlingKeepsSessions(y.users, y.sessions, s);
  }

  lemma ReceiveKeepsDedup(y: Sys, i: nat)
    requires SysInv(y) && CanAct(y, Receive(i))
    ensures SysInv(Acted(y, Receive(i)))
    ensures y.db.bus[i].envelope.eventId in Acted(y, Receive(i)).calls
  {
    var y' := Acted(y, Receive(i));
    var id := y.db.bus[i].envelope.eventId;
    forall other | Events.EventKey(USER_CREATED, other) in y'.store ensures other in y'.calls {
      if Events.EventKey(USER_CREATED, other) == Events.EventKey(USER_CREATED, id) {
        Events.EventKeyInjective(USER_CREATED, other, id);
      }
    }
  }

  lemma FinishKeepsDedup(y: Sys, id: string, raised: bool)
    requires SysInv(y) && CanAct(y, Finish(id, raised))
    ensures SysInv(Acted(y, Finish(id, raised)))
  {
  }

  lemma ActKeepsInv(y: Sys, a: Act)
    requires SysInv(y) && CanAct(y, a)
    ensures SysInv(Acted(y, a))
  {
    match a
    case Check(s, email, name, vip) => CheckKeepsInv(y, s, email, name, vip);
    case Flush(s, id, at) => FlushKeepsInv(y, s, id, at);
    case Stage(s, eventId, now, trace) => StageKeepsInv(y, s, eventId, now, trace);
    case Rollback(s) => RollbackKeepsInv(y, s);
    case CommitUser(s, rowId, rowAt) => CommitUserKeepsPairs(y, s, rowId, rowAt);
    case Relay(step) => RelayKeepsPairs(y, step);
    case Receive(i) => ReceiveKeepsDedup(y, i);
    case Finish(id, raised) => FinishKeepsDedup(y, id, raised);
  }

  lemma StartInv(sessions: nat, relays: nat)
    ensures SysInv(Start(sessions, relays))
  {
    InitInv(relays);
  }

  lemma {:induction false} HistoryKeepsInv(sessions: nat, relays: nat, states: seq<Sys>, acts: seq<Act>, k: nat)
    requires IsHistory(sessions, relays, states, acts) && k < |states|
    ensures SysInv(states[k])
  {
    if k == 0 {
      StartInv(sessions, relays);
    } else {
      HistoryKeepsInv(sessions, relays, states, acts, k - 1);
      ActKeepsInv(states[k - 1], acts[k - 1]);
    }
  }

  /** No event without its user, no user without its event: at every moment the committed
      users and outbox rows correspond one to one, and each event on the bus announces a
      user that is committed. */
  lemma EventsBelongToUsers(sessions: nat, relays: nat, states: seq<Sys>, acts: seq<Act>, k: nat)
    requires IsHistory(sessions, relays, states, acts) && k < |states|
    ensures var y := states[k];
            && Paired(y.users, y.db.table) && UniqueUsers(y.users) && DistinctIds(y.db.table)
            && forall j :: 0 <= j < |y.db.bus| ==>
                 && y.db.bus[j].row < |y.users|
                 && Announces(y.db.bus[j].envelope, y.users[y.db.bus[j].row])
                 && y.db.bus[j].envelope.eventId == y.db.table[y.db.bus[j].row].id
  {
    HistoryKeepsInv(sessions, relays, states, acts, k);
  }

  /** The handler is invoked at most once per event id, however often the event is
      published or redelivered, and has been invoked once any copy was received. */
  lemma HandlerRunsAtMostOnce(sessions: nat, relays: nat, states: seq<Sys>, acts: seq<Act>, k: nat)
    requires IsHistory(sessions, relays, states, acts) && k < |states|
    ensures Distinct(states[k].calls)
    ensures forall c :: 0 <= c < |states[k].calls| ==> OnBus(states[k].db.bus, states[k].calls[c])
    ensures k < |acts| && acts[k].Receive? ==>
              acts[k].i < |states[k].db.bus| && states[k].db.bus[acts[k].i].envelope.eventId in states[k + 1].calls
  {
    HistoryKeepsInv(sessions, relays, states, acts, k);
    if k < |acts| && acts[k].Receive? {
      assert CanAct(states[k], acts[k]);
      ReceiveKeepsDedup(states[k], acts[k].i);
    }
  }

  /** Invocations are never forgotten, and committed users stay. */
  lemma {:induction false} HistoryOnlyGrows(sessions: nat, relays: nat, states: seq<Sys>, acts: seq<Act>, k: nat, l: nat)
    requires IsHistory(sessions, relays, states, acts) && k <= l < |states|
    ensures states[k].users <= states[l].users && states[k].calls <= states[l].calls && states[k].db.bus <= states[l].db.bus
    decreases l - k
  {
    if k < l {
      HistoryOnlyGrows(sessions, relays, states, acts, k, l - 1);
      assert CanAct(states[l - 1], acts[l - 1]);
    }
  }

  /** The invocation for the event ended by the first `k` acts, in this way. */
  ghost predicate Ended(acts: seq<Act>, k: nat, id: string, raised: bool)
    requires k <= |acts|
  {
    exists j :: 0 <= j < k && acts[j] == Finish(id, raised)
  }

  lemma EndedGrows(acts: seq<Act>, k: nat, id: string, raised: bool)
    requires k < |acts|
    ensures Ended(acts, k + 1, id, raised) <==> Ended(acts, k, id, raised) || acts[k] == Finish(id, raised)
  {
    if Ended(acts, k + 1, id, raised) {
      var j :| 0 <= j < k + 1 && acts[j] == Finish(id, raised);
    }
  }

  /** Invoked, ended, and not completed. */
  ghost predicate Lost(y: Sys, id: string) {
    id in y.calls && id !in y.running && id !in y.completed
  }

  lemma ActEnds(y: Sys, a: Act, id: string, z: Sys)
    requires Deduplicated(y) && CanAct(y, a) && z == Acted(y, a)
    ensures id in z.completed <==> id in y.completed || a == Finish(id, false)
    ensures Lost(z, id) <==> Lost(y, id) || a == Finish(id, true)
  {
    if a.Receive? && y.db.bus[a.i].envelope.eventId == id && id in y.calls {
      assert Events.EventKey(USER_CREATED, id) in y.store;
    }
  }

  lemma LastActEnds(sessions: nat, relays: nat, states: seq<Sys>, acts: seq<Act>, k: nat, id: string)
    requires IsHistory(sessions, relays, states, acts) && k < |acts|
    ensures id in states[k + 1].completed <==> id in states[k].completed || acts[k] == Finish(id, false)
    ensures Lost(states[k + 1], id) <==> Lost(states[k], id) || acts[k] == Finish(id, true)
  {
    HistoryKeepsInv(sessions, relays, states, acts, k);
    ActEnds(states[k], acts[k], id, states[k + 1]);
  }

  lemma {:induction false} EndedSoFar(sessions: nat, relays: nat, states: seq<Sys>, acts: seq<Act>, k: nat, id: string)
    requires IsHistory(sessions, relays, states, acts) && k <= |acts|
    ensures id in states[k].completed <==> Ended(acts, k, id, false)
    ensures Lost(states[k], id) <==> Ended(acts, k, id, true)
  {
    if k > 0 {
      var i: nat := k - 1;
      EndedSoFar(sessions, relays, states, acts, i, id);
      LastActEnds(sessions, relays, states, acts, i, id);
      EndedGrows(acts, i, id, false);
      EndedGrows(acts, i, id, true);
    }
  }

  /** An event is handled to the end exactly when its one invocation ended without raising; if
      it raised the event is never handled, however often it is delivered again. */
  lemma HandledUnlessRaised(sessions: nat, relays: nat, states: seq<Sys>, acts: seq<Act>, k: nat, id: string)
    requires IsHistory(sessions, relays, states, acts) && k < |states|
    ensures Distinct(states[k].completed)
    ensures id in states[k].completed <==> Ended(acts, k, id, false)
    ensures Lost(states[k], id) <==> Ended(acts, k, id, true)
  {
    HistoryKeepsInv(sessions, relays, states, acts, k);
    EndedSoFar(sessions, relays, states, acts, k, id);
  }
}
