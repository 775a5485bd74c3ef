/** Any number of relay replicas working on one outbox table.  `run_once` is split where
    another replica, an insert or a crash can come between: select and lock, publish one
    row, then commit or lose the transaction.  Clock readings and publisher outcomes are
    arbitrary inputs of the steps. */
module RelayRuns {
  import opened Options
  import opened Outbox

  /** A live `run_once`: its `now`, the rows it holds, and the publishes it made. */
  datatype Txn = Txn(now: int, sel: seq<nat>, log: seq<Publish>)

  /** `bus` lists every publisher call in order; `committed` and `aborted` list those of
      finished transactions, in the order the transactions finished. */
  datatype Db = Db(
    table: seq<Row>, live: seq<Option<Txn>>,
    bus: seq<Publish>, committed: seq<Publish>, aborted: seq<Publish>)

  datatype Step =
    | Insert(e: Envelope, id: string, createdAt: int)
    | Select(relay: nat, now: int, batch: nat, sel: seq<nat>)
    | Deliver(relay: nat, ok: bool, at: int)
    | Commit(relay: nat)
    | Abort(relay: nat)

  function Init(relays: nat): Db {
    Db([], seq(relays, _ => None), [], [], [])
  }

  predicate Busy(db: Db, r: nat) {
    r < |db.live| && db.live[r].Some?
  }

  ghost function Locked(db: Db): set<nat> {
    set r, i | 0 <= r < |db.live| && db.live[r].Some? && i in db.live[r].value.sel :: i
  }

  /** Replay, for logs that may name rows outside the table. */
  function Committed(table: seq<Row>, log: seq<Publish>): seq<Row> {
    if InTable(log, |table|) then Replay(table, log) else table
  }

  ghost predicate Enabled(db: Db, step: Step) {
    match step
    case Insert(e, id, createdAt) => forall i :: 0 <= i < |db.table| ==> db.table[i].id != id
    case Select(r, now, batch, sel) =>
      r < |db.live| && db.live[r].None? && IsSelection(db.table, Locked(db), now, batch, sel)
    case Deliver(r, ok, at) =>
      Busy(db, r) && var t := db.live[r].value; |t.log| < |t.sel| && t.sel[|t.log|] < |db.table|
    case Commit(r) => Busy(db, r) && |db.live[r].value.log| == |db.live[r].value.sel|
    case Abort(r) => Busy(db, r)
  }

  function PublishOf(db: Db, t: Txn, ok: bool, at: int): Publish
    requires |t.log| < |t.sel| && t.sel[|t.log|] < |db.table|
  {
    var row := t.sel[|t.log|];
    Publish(row, ToEnvelope(db.table[row]), t.now, ok, at)
  }

  ghost function Do(db: Db, step: Step): Db
    requires Enabled(db, step)
  {
    match step
    case Insert(e, id, createdAt) => db.(table := db.table + [StagedRow(e, id, createdAt)])
    case Select(r, now, batch, sel) => db.(live := db.live[r := Some(Txn(now, sel, []))])
    case Deliver(r, ok, at) =>
      var t := db.live[r].value;
      var p := PublishOf(db, t, ok, at);
      db.(live := db.live[r := Some(t.(log := t.log + [p]))], bus := db.bus + [p])
    case Commit(r) =>
      var log := db.live[r].value.log;
      db.(table := Committed(db.table, log), committed := db.committed + log, live := db.live[r := None])
    case Abort(r) =>
      db.(aborted := db.aborted + db.live[r].value.log, live := db.live[r := None])
  }

  // ---------------------------------------------------------------- the invariant

  function LogIn(t: Option<Txn>): seq<Publish> {
    if t.Some? then t.value.log else []
  }

  function LiveLog(live: seq<Option<Txn>>): seq<Publish> {
    if live == [] then [] else LiveLog(live[..|live| - 1]) + LogIn(live[|live| - 1])
  }

  ghost predicate TxnOk(table: seq<Row>, t: Txn) {
    && Distinct(t.sel)
    && |t.log| <= |t.sel|
    && (forall k :: 0 <= k < |t.sel| ==> t.sel[k] < |table| && Due(table[t.sel[k]], t.now))
    && (forall k :: 0 <= k < |t.log| ==>
          t.log[k].row == t.sel[k] && t.log[k].now == t.now && t.log[k].envelope == ToEnvelope(table[t.sel[k]]))
  }

  ghost predicate Disjoint(s: seq<nat>, t: seq<nat>) {
    forall i :: i in s ==> i !in t
  }

  ghost predicate Exclusive(live: seq<Option<Txn>>) {
    forall a, b :: 0 <= a < |live| && 0 <= b < |live| && a != b && live[a].Some? && live[b].Some? ==>
      Disjoint(live[a].value.sel, live[b].value.sel)
  }

  /** A row read off the committed attempts made for it. */
  ghost predicate Matches(row: Row, history: seq<Publish>) {
    var n := |history|;
    && row.attempts == n <= MAX_ATTEMPTS
    && (forall k :: 0 <= k < n - 1 ==> !history[k].ok)
    && (row.status == Sent <==> n > 0 && history[n - 1].ok)
    && (row.status == Failed <==> n == MAX_ATTEMPTS && !history[n - 1].ok)
    && row.sentAt == (if row.status == Sent then Some(history[n - 1].at) else None)
    && (var m := if row.status == Pending then n else n - 1;
        row.nextAttemptAt == if m <= 0 then None else Some(history[m - 1].now + Backoff(m)))
    && (forall k :: 0 <= k < n - 1 ==> history[k].now + Backoff(k + 1) <= history[k + 1].now)
  }

  ghost predicate DistinctIds(table: seq<Row>) {
    forall i, j :: 0 <= i < j < |table| ==> table[i].id != table[j].id
  }

  ghost predicate Truthful(log: seq<Publish>, table: seq<Row>) {
    InTable(log, |table|) && forall k :: 0 <= k < |log| ==> log[k].envelope == ToEnvelope(table[log[k].row])
  }

  ghost predicate Conserved(db: Db) {
    forall i: nat, ok: bool ::
      Count(db.bus, i, ok) == Count(db.committed, i, ok) + Count(db.aborted, i, ok) + Count(LiveLog(db.live), i, ok)
  }

  ghost predicate Histories(db: Db) {
    forall i: nat :: i < |db.table| ==> Matches(db.table[i], Of(db.committed, i))
  }

  ghost predicate Inv(db: Db) {
    && (forall r :: 0 <= r < |db.live| && db.live[r].Some? ==> TxnOk(db.table, db.live[r].value))
    && Exclusive(db.live)
    && Truthful(db.bus, db.table) && InTable(db.committed, |db.table|) && InTable(db.aborted, |db.table|)
    && DistinctIds(db.table)
    && Histories(db)
    && Conserved(db)
    && |db.committed| + Sum(db.table, Remaining) <= MAX_ATTEMPTS * |db.table|
  }

  // ---------------------------------------------------------------- preservation

  lemma {:induction false} LiveLogUpdate(live: seq<Option<Txn>>, r: nat, t: Option<Txn>, i: nat, ok: bool)
    requires r < |live|
    ensures Count(LiveLog(live[r := t]), i, ok) + Count(LogIn(live[r]), i, ok)
            == Count(LiveLog(live), i, ok) + Count(LogIn(t), i, ok)
  {
    var n := |live| - 1;
    var live' := live[r := t];
    CountConcat(LiveLog(live[..n]), LogIn(live[n]), i, ok);
    CountConcat(LiveLog(live'[..n]), LogIn(live'[n]), i, ok);
    if r == n {
      assert live'[..n] == live[..n];
    } else {
      assert live'[..n] == live[..n][r := t];
      LiveLogUpdate(live[..n], r, t, i, ok);
    }
  }

  lemma LogTouchesOnce(table: seq<Row>, t: Txn)
    requires TxnOk(table, t)
    ensures InTable(t.log, |table|)
    ensures forall a, b :: 0 <= a < b < |t.log| ==> t.log[a].row != t.log[b].row
    ensures forall k :: 0 <= k < |t.log| ==> t.log[k].row in t.sel
  {
    forall a, b | 0 <= a < b < |t.log| ensures t.log[a].row != t.log[b].row {
      assert t.sel[a] != t.sel[b];
    }
  }

  /** One more attempt on a due row keeps row and history in step. */
  lemma MatchesAfter(row: Row, history: seq<Publish>, p: Publish)
    requires Matches(row, history) && Due(row, p.now)
    ensures Matches(After(row, p), history + [p])
  {
  }

  lemma CommitKeepsHistories(db: Db, r: nat)
    requires Inv(db) && Enabled(db, Commit(r))
    ensures Histories(Do(db, Commit(r)))
  {
    var t := db.live[r].value;
    var db' := Do(db, Commit(r));
    LogTouchesOnce(db.table, t);
    forall i: nat | i < |db'.table| ensures Matches(db'.table[i], Of(db'.committed, i)) {
      OfConcat(db.committed, t.log, i);
      assert Matches(db.table[i], Of(db.committed, i));
      if k :| 0 <= k < |t.log| && t.log[k].row == i {
        ReplayOnce(db.table, t.log, k);
        OfDistinct(t.log, k);
        MatchesAfter(db.table[i], Of(db.committed, i), t.log[k]);
      } else {
        ReplayUntouched(db.table, t.log, i);
        OfAbsent(t.log, i);
        assert Of(db'.committed, i) == Of(db.committed, i);
      }
    }
  }

  /** Committing costs at least one unit of the retry budget per row attempted. */
  lemma {:induction false} ReplaySpends(table: seq<Row>, log: seq<Publish>)
    requires InTable(log, |table|)
    requires forall a, b :: 0 <= a < b < |log| ==> log[a].row != log[b].row
    requires forall k :: 0 <= k < |log| ==> table[log[k].row].status == Pending && table[log[k].row].attempts < MAX_ATTEMPTS
    ensures Sum(Replay(table, log), Remaining) + |log| <= Sum(table, Remaining)
  {
    if log != [] {
      var init := log[..|log| - 1];
      var p := log[|log| - 1];
      ReplaySpends(table, init);
      ReplayUntouched(table, init, p.row);
      var before := Replay(table, init);
      SumUpdate(before, p.row, After(before[p.row], p), Remaining);
    }
  }

  lemma CommitSpends(db: Db, r: nat)
    requires Inv(db) && Enabled(db, Commit(r))
    ensures Sum(Do(db, Commit(r)).table, Remaining) + |db.live[r].value.sel| <= Sum(db.table, Remaining)
  {
    var t := db.live[r].value;
    LogTouchesOnce(db.table, t);
    forall k | 0 <= k < |t.log| ensures db.table[t.log[k].row].attempts < MAX_ATTEMPTS {
      assert Matches(db.table[t.log[k].row], Of(db.committed, t.log[k].row));
      assert Due(db.table[t.sel[k]], t.now);
    }
    ReplaySpends(db.table, t.log);
  }

  lemma CommitKeepsTxns(db: Db, r: nat, q: nat)
    requires Inv(db) && Enabled(db, Commit(r))
    requires q < |db.live| && q != r && db.live[q].Some?
    ensures TxnOk(Do(db, Commit(r)).table, db.live[q].value)
  {
    var t, u := db.live[r].value, db.live[q].value;
    LogTouchesOnce(db.table, t);
    forall k | 0 <= k < |u.sel| ensures Replay(db.table, t.log)[u.sel[k]] == db.table[u.sel[k]] {
      assert u.sel[k] in u.sel && Disjoint(u.sel, t.sel);
      ReplayUntouched(db.table, t.log, u.sel[k]);
    }
  }

  lemma CommitKeepsLogs(db: Db, r: nat)
    requires Inv(db) && Enabled(db, Commit(r))
    ensures var db' := Do(db, Commit(r));
            |db'.table| == |db.table| && Truthful(db'.bus, db'.table) && DistinctIds(db'.table)
            && InTable(db'.committed, |db'.table|)
  {
    var t := db.live[r].value;
    var table' := Do(db, Commit(r)).table;
    LogTouchesOnce(db.table, t);
    forall i: nat | i < |db.table| ensures ToEnvelope(table'[i]) == ToEnvelope(db.table[i]) && table'[i].id == db.table[i].id {
      EnvelopeIsStable(db.table, t.log, i);
    }
  }

  lemma CommitConserves(db: Db, r: nat)
    requires Inv(db) && Enabled(db, Commit(r))
    ensures Conserved(Do(db, Commit(r)))
  {
    var t := db.live[r].value;
    var db' := Do(db, Commit(r));
    forall i: nat, ok: bool ensures
      Count(db'.bus, i, ok) == Count(db'.committed, i, ok) + Count(db'.aborted, i, ok) + Count(LiveLog(db'.live), i, ok)
    {
      CountConcat(db.committed, t.log, i, ok);
      LiveLogUpdate(db.live, r, None, i, ok);
    }
  }

  lemma CommitKeepsInv(db: Db, r: nat)
    requires Inv(db) && Enabled(db, Commit(r))
    ensures Inv(Do(db, Commit(r)))
  {
    var db' := Do(db, Commit(r));
    CommitKeepsLogs(db, r);
    CommitConserves(db, r);
    CommitKeepsHistories(db, r);
    CommitSpends(db, r);
    forall q | 0 <= q < |db'.live| && db'.live[q].Some? ensures TxnOk(db'.table, db'.live[q].value) {
      CommitKeepsTxns(db, r, q);
    }
    assert Exclusive(db'.live);
  }

  lemma AbortKeepsInv(db: Db, r: nat)
    requires Inv(db) && Enabled(db, Abort(r))
    ensures Inv(Do(db, Abort(r)))
  {
    var t := db.live[r].value;
    var db' := Do(db, Abort(r));
    LogTouchesOnce(db.table, t);
    forall i: nat, ok: bool ensures
      Count(db'.bus, i, ok) == Count(db'.committed, i, ok) + Count(db'.aborted, i, ok) + Count(LiveLog(db'.live), i, ok)
    {
      CountConcat(db.aborted, t.log, i, ok);
      LiveLogUpdate(db.live, r, None, i, ok);
    }
  }

  lemma DeliverConserves(db: Db, r: nat, ok: bool, at: int)
    requires Inv(db) && Enabled(db, Deliver(r, ok, at))
    ensures Conserved(Do(db, Deliver(r, ok, at)))
  {
    var t := db.live[r].value;
    var p := PublishOf(db, t, ok, at);
    var db' := Do(db, Deliver(r, ok, at));
    forall i: nat, b: bool ensures
      Count(db'.bus, i, b) == Count(db'.committed, i, b) + Count(db'.aborted, i, b) + Count(LiveLog(db'.live), i, b)
    {
      CountConcat(db.bus, [p], i, b);
      CountConcat(t.log, [p], i, b);
      LiveLogUpdate(db.live, r, db'.live[r], i, b);
    }
  }

  lemma TxnGrows(table: seq<Row>, t: Txn, p: Publish)
    requires TxnOk(table, t) && |t.log| < |t.sel|
    requires p.row == t.sel[|t.log|] && p.now == t.now && p.envelope == ToEnvelope(table[p.row])
    ensures TxnOk(table, t.(log := t.log + [p]))
  {
  }

  lemma DeliverKeepsInv(db: Db, r: nat, ok: bool, at: int)
    requires Inv(db) && Enabled(db, Deliver(r, ok, at))
    ensures Inv(Do(db, Deliver(r, ok, at)))
  {
    DeliverConserves(db, r, ok, at);
    TxnGrows(db.table, db.live[r].value, PublishOf(db, db.live[r].value, ok, at));
    assert Exclusive(Do(db, Deliver(r, ok, at)).live);
  }

  lemma SelectKeepsInv(db: Db, r: nat, now: int, batch: nat, sel: seq<nat>)
    requires Inv(db) && Enabled(db, Select(r, now, batch, sel))
    ensures Inv(Do(db, Select(r, now, batch, sel)))
  {
    var db' := Do(db, Select(r, now, batch, sel));
    forall q | 0 <= q < |db.live| && db.live[q].Some? ensures Disjoint(db.live[q].value.sel, sel) && Disjoint(sel, db.live[q].value.sel) {
      forall i | i in db.live[q].value.sel ensures i in Locked(db) {}
    }
    forall i: nat, ok: bool ensures
      Count(db'.bus, i, ok) == Count(db'.committed, i, ok) + Count(db'.aborted, i, ok) + Count(LiveLog(db'.live), i, ok)
    {
      LiveLogUpdate(db.live, r, db'.live[r], i, ok);
    }
  }

  lemma InsertKeepsHistories(db: Db, row: Row)
    requires Histories(db) && InTable(db.committed, |db.table|)
    requires row.status == Pending && row.attempts == 0 && row.nextAttemptAt == None && row.sentAt == None
    ensures Histories(db.(table := db.table + [row]))
  {
    OfAbsent(db.committed, |db.table|);
    forall i: nat | i < |db.table| + 1 ensures Matches((db.table + [row])[i], Of(db.committed, i)) {
      if i < |db.table| {
        assert Matches(db.table[i], Of(db.committed, i));
      }
    }
  }

  lemma InsertKeepsTxn(table: seq<Row>, row: Row, t: Txn)
    requires TxnOk(table, t)
    ensures TxnOk(table + [row], t)
  {
  }

  lemma InsertKeepsLog(table: seq<Row>, row: Row, log: seq<Publish>)
    requires Truthful(log, table)
    ensures Truthful(log, table + [row])
  {
  }

  lemma InsertKeepsInv(db: Db, e: Envelope, id: string, createdAt: int)
    requires Inv(db) && Enabled(db, Insert(e, id, createdAt))
    ensures Inv(Do(db, Insert(e, id, createdAt)))
  {
    var row := StagedRow(e, id, createdAt);
    var db' := Do(db, Insert(e, id, createdAt));
    InsertKeepsHistories(db, row);
    InsertKeepsLog(db.table, row, db.bus);
    forall r | 0 <= r < |db.live| && db.live[r].Some? ensures TxnOk(db'.table, db.live[r].value) {
      InsertKeepsTxn(db.table, row, db.live[r].value);
    }
    assert db'.table[..|db.table|] == db.table;
    assert Sum(db'.table, Remaining) == Sum(db.table, Remaining) + MAX_ATTEMPTS;
    assert DistinctIds(db'.table);
  }

  lemma StepKeepsInv(db: Db, step: Step)
    requires Inv(db) && Enabled(db, step)
    ensures Inv(Do(db, step))
  {
    match step
    case Insert(e, id, createdAt) => InsertKeepsInv(db, e, id, createdAt);
    case Select(r, now, batch, sel) => SelectKeepsInv(db, r, now, batch, sel);
    case Deliver(r, ok, at) => DeliverKeepsInv(db, r, ok, at);
    case Commit(r) => CommitKeepsInv(db, r);
    case Abort(r) => AbortKeepsInv(db, r);
  }

  lemma {:induction false} NothingLive(relays: nat)
    ensures LiveLog(seq(relays, _ => None)) == []
  {
    if relays > 0 {
      assert seq<Option<Txn>>(relays, _ => None)[..relays - 1] == seq<Option<Txn>>(relays - 1, _ => None);
      NothingLive(relays - 1);
    }
  }

  // ---------------------------------------------------------------- whole runs

  ghost predicate IsRun(relays: nat, states: seq<Db>, steps: seq<Step>) {
    && |states| == |steps| + 1
    && states[0] == Init(relays)
    && forall k :: 0 <= k < |steps| ==> Enabled(states[k], steps[k]) && states[k + 1] == Do(states[k], steps[k])
  }

  lemma InitInv(relays: nat)
    ensures Inv(Init(relays))
  {
    NothingLive(relays);
  }

  lemma {:induction false} RunKeepsInv(relays: nat, states: seq<Db>, steps: seq<Step>, k: nat)
    requires IsRun(relays, states, steps) && k < |states|
    ensures Inv(states[k])
  {
    if k == 0 {
      InitInv(relays);
    } else {
      RunKeepsInv(relays, states, steps, k - 1);
      StepKeepsInv(states[k - 1], steps[k - 1]);
    }
  }

  /** Rows held by live transactions are pending, each held by one transaction. */
  lemma HeldRowsAreExclusive(relays: nat, states: seq<Db>, steps: seq<Step>, k: nat, a: nat, b: nat, i: nat)
    requires IsRun(relays, states, steps) && k < |states|
    requires Busy(states[k], a) && Busy(states[k], b)
    requires i in states[k].live[a].value.sel && i in states[k].live[b].value.sel
    ensures a == b && i < |states[k].table| && states[k].table[i].status == Pending
  {
    RunKeepsInv(relays, states, steps, k);
    assert Exclusive(states[k].live);
    assert TxnOk(states[k].table, states[k].live[a].value);
  }

  lemma StepKeepsTerminalRow(db: Db, step: Step, i: nat)
    requires Inv(db) && Enabled(db, step)
    requires i < |db.table| && db.table[i].status != Pending
    ensures i < |Do(db, step).table| && Do(db, step).table[i] == db.table[i]
  {
    if step.Commit? {
      var t := db.live[step.relay].value;
      LogTouchesOnce(db.table, t);
      forall k | 0 <= k < |t.log| ensures t.log[k].row != i {
        assert Due(db.table[t.sel[k]], t.now);
      }
      ReplayUntouched(db.table, t.log, i);
    }
  }

  lemma SelectSkipsTerminal(db: Db, step: Step, i: nat)
    requires Enabled(db, step) && step.Select? && i < |db.table| && db.table[i].status != Pending
    ensures i !in step.sel
  {
  }

  lemma {:induction false} TerminalRowStays(relays: nat, states: seq<Db>, steps: seq<Step>, k: nat, l: nat, i: nat)
    requires IsRun(relays, states, steps) && k <= l < |states|
    requires i < |states[k].table| && states[k].table[i].status != Pending
    ensures i < |states[l].table| && states[l].table[i] == states[k].table[i]
    decreases l - k
  {
    if k < l {
      TerminalRowStays(relays, states, steps, k, l - 1, i);
      RunKeepsInv(relays, states, steps, l - 1);
      StepKeepsTerminalRow(states[l - 1], steps[l - 1], i);
    }
  }

  /** A sent or failed row is never written again, and no later select picks it. */
  lemma TerminalRowsAreFrozen(relays: nat, states: seq<Db>, steps: seq<Step>, k: nat, l: nat, i: nat)
    requires IsRun(relays, states, steps) && k <= l < |states|
    requires i < |states[k].table| && states[k].table[i].status != Pending
    ensures i < |states[l].table| && states[l].table[i] == states[k].table[i]
    ensures l < |steps| && steps[l].Select? ==> i !in steps[l].sel
  {
    TerminalRowStays(relays, states, steps, k, l, i);
    if l < |steps| && steps[l].Select? {
      SelectSkipsTerminal(states[l], steps[l], i);
    }
  }

  lemma {:induction false} LiveCountBound(table: seq<Row>, live: seq<Option<Txn>>, i: nat, ok: bool)
    requires Exclusive(live)
    requires forall r :: 0 <= r < |live| && live[r].Some? ==> TxnOk(table, live[r].value)
    ensures Count(LiveLog(live), i, ok) <= 1
    ensures (forall r :: 0 <= r < |live| && live[r].Some? ==> i !in live[r].value.sel) ==> Count(LiveLog(live), i, ok) == 0
  {
    if live != [] {
      var n := |live| - 1;
      CountConcat(LiveLog(live[..n]), LogIn(live[n]), i, ok);
      LiveCountBound(table, live[..n], i, ok);
      if live[n].Some? {
        var t := live[n].value;
        LogTouchesOnce(table, t);
        if k :| 0 <= k < |t.log| && t.log[k].row == i {
          OfDistinct(t.log, k);
          forall r | 0 <= r < n && live[r].Some? ensures i !in live[r].value.sel {
            assert Disjoint(t.sel, live[r].value.sel);
          }
        } else {
          OfAbsent(t.log, i);
        }
      }
    }
  }

  /** Where the copies of a message on the bus come from: at most one committed
      successful publish, there exactly when the row is sent; every other copy was made
      by a transaction that was lost, or by the one still holding the row. */
  lemma CopiesOnTheBus(relays: nat, states: seq<Db>, steps: seq<Step>, k: nat, i: nat)
    requires IsRun(relays, states, steps) && k < |states| && i < |states[k].table|
    ensures var db := states[k];
            && Count(db.committed, i, true) == (if db.table[i].status == Sent then 1 else 0)
            && Count(db.bus, i, true)
               == Count(db.committed, i, true) + Count(db.aborted, i, true) + Count(LiveLog(db.live), i, true)
            && Count(LiveLog(db.live), i, true) <= 1
            && (db.table[i].status != Pending ==> Count(LiveLog(db.live), i, true) == 0)
  {
    RunKeepsInv(relays, states, steps, k);
    var db := states[k];
    LiveCountBound(db.table, db.live, i, true);
    var h := Of(db.committed, i);
    assert Matches(db.table[i], h);
    CountOfMatching(db.committed, i, db.table[i]);
    forall r | 0 <= r < |db.live| && db.live[r].Some? && i in db.live[r].value.sel ensures db.table[i].status == Pending {
      assert TxnOk(db.table, db.live[r].value);
    }
  }

  lemma {:induction false} CountIsCountOf(log: seq<Publish>, i: nat, ok: bool)
    ensures Count(log, i, ok) == Count(Of(log, i), i, ok)
  {
    if log != [] {
      var last := log[|log| - 1];
      CountIsCountOf(log[..|log| - 1], i, ok);
      CountConcat(Of(log[..|log| - 1], i), if last.row == i then [last] else [], i, ok);
    }
  }

  lemma {:induction false} NoSuccess(h: seq<Publish>, i: nat)
    requires forall k :: 0 <= k < |h| ==> !h[k].ok
    ensures Count(h, i, true) == 0
  {
    if h != [] {
      NoSuccess(h[..|h| - 1], i);
    }
  }

  lemma CountOfMatching(log: seq<Publish>, i: nat, row: Row)
    requires Matches(row, Of(log, i))
    ensures Count(log, i, true) == if row.status == Sent then 1 else 0
    ensures Count(log, i, true) + Count(log, i, false) == row.attempts
  {
    var h := Of(log, i);
    CountIsCountOf(log, i, true);
    CountOf(log, i);
    if h != [] {
      NoSuccess(h[..|h| - 1], i);
      assert h[|h| - 1].row == i;
    }
  }

  /** When another attempt may come after at most seven failed ones. */
  ghost function NextAfter(failed: seq<Publish>): Option<int> {
    var n := |failed|;
    if 1 <= n <= 7 then Some(failed[n - 1].now + [4, 8, 16, 32, 64, 128, 128][n - 1]) else None
  }

  lemma NextIsBackoff(failed: seq<Publish>)
    requires |failed| <= 7
    ensures var n := |failed|; NextAfter(failed) == if n == 0 then None else Some(failed[n - 1].now + Backoff(n))
  {
    assert Pow2(6) == 64;
    assert Backoff(1) == 4 && Backoff(2) == 8 && Backoff(3) == 16 && Backoff(4) == 32 && Backoff(5) == 64;
  }

  /** A row after the committed attempts `h`: how many they were, how the last one ended, and
      when the next one may come; a terminal row still says when its last was allowed. */
  ghost predicate LivedThrough(row: Row, h: seq<Publish>) {
    && row.attempts == |h|
    && match row.status
       case Pending =>
         && row.attempts <= 7 && row.sentAt == None && (forall a :: 0 <= a < |h| ==> !h[a].ok)
         && row.nextAttemptAt == NextAfter(h)
       case Sent =>
         && 1 <= row.attempts <= 8 && h[|h| - 1].ok && row.sentAt == Some(h[|h| - 1].at)
         && (forall a :: 0 <= a < |h| - 1 ==> !h[a].ok)
         && row.nextAttemptAt == NextAfter(h[..|h| - 1])
       case Failed =>
         && row.attempts == 8 && row.sentAt == None && (forall a :: 0 <= a < |h| ==> !h[a].ok)
         && row.nextAttemptAt == NextAfter(h[..7])
  }

  lemma MatchedLife(row: Row, h: seq<Publish>)
    requires Matches(row, h)
    ensures LivedThrough(row, h)
  {
    NextIsBackoff(if row.status == Pending then h else h[..|h| - 1]);
  }

  /** The life of a message, over every reachable state: its row is that of its committed
      attempts. */
  lemma MessageLifecycle(relays: nat, states: seq<Db>, steps: seq<Step>, k: nat, i: nat)
    requires IsRun(relays, states, steps) && k < |states| && i < |states[k].table|
    ensures LivedThrough(states[k].table[i], Of(states[k].committed, i))
  {
    RunKeepsInv(relays, states, steps, k);
    MatchedLife(states[k].table[i], Of(states[k].committed, i));
  }

  /** No message is retried early: between the clocks of a message's first and eighth
      committed attempt lie 380 seconds, whichever replicas made them. */
  lemma BackoffBound(relays: nat, states: seq<Db>, steps: seq<Step>, k: nat, i: nat)
    requires IsRun(relays, states, steps) && k < |states| && i < |states[k].table|
    requires states[k].table[i].attempts == 8
    ensures var h := Of(states[k].committed, i);
            && |h| == 8 && h[7].now - h[0].now >= 380
            && forall a :: 0 <= a < 7 ==> !h[a].ok && h[a + 1].now - h[a].now >= Backoff(a + 1)
  {
    RunKeepsInv(relays, states, steps, k);
    var h := Of(states[k].committed, i);
    assert Matches(states[k].table[i], h);
    assert h[0].now + 4 <= h[1].now && h[1].now + 8 <= h[2].now && h[2].now + 16 <= h[3].now;
    assert h[3].now + 32 <= h[4].now && h[4].now + 64 <= h[5].now;
    assert Backoff(6) == Backoff(7) == 128;
  }

  /** Each committed batch spends the retry budget by at least its size, so N messages
      never take more than 8 N committed attempts. */
  lemma RetriesAreBounded(relays: nat, states: seq<Db>, steps: seq<Step>, k: nat)
    requires IsRun(relays, states, steps) && k < |states|
    ensures |states[k].committed| + Sum(states[k].table, Remaining) <= 8 * |states[k].table|
    ensures k < |steps| && steps[k].Commit? ==>
              && Busy(states[k], steps[k].relay)
              && Sum(states[k + 1].table, Remaining) + |states[k].live[steps[k].relay].value.sel| <= Sum(states[k].table, Remaining)
  {
    RunKeepsInv(relays, states, steps, k);
    if k < |steps| && steps[k].Commit? {
      assert Enabled(states[k], steps[k]);
      CommitSpends(states[k], steps[k].relay);
    }
  }
}
