/** One relay: the select, the loop over the selected rows, the gauge and the commit of
    `run_once`, and what repeated calls drain. */
module OutboxRelay {
  import opened Options
  import opened Outbox
  import RelayRuns

  /** The publishes of one batch: one per selected row, in the order of the selection. */
  ghost predicate IsBatch(table: seq<Row>, now: int, sel: seq<nat>, log: seq<Publish>) {
    && |log| == |sel|
    && (forall k :: 0 <= k < |sel| ==> sel[k] < |table|)
    && (forall k :: 0 <= k < |sel| ==>
          log[k].row == sel[k] && log[k].now == now && log[k].envelope == ToEnvelope(table[sel[k]]))
  }

  function Successes(log: seq<Publish>): nat {
    if log == [] then 0 else Successes(log[..|log| - 1]) + if log[|log| - 1].ok then 1 else 0
  }

  /** How far the loop of `run_once` got: the session's view of the table, the number of
      deliveries, and the publishes made. */
  datatype Progress = Progress(session: seq<Row>, count: nat, log: seq<Publish>)

  function Advance(g: Progress, row: nat, now: int, ok: bool, at: int): Progress
    requires row < |g.session|
  {
    var p := Publish(row, ToEnvelope(g.session[row]), now, ok, at);
    Progress(g.session[row := After(g.session[row], p)], g.count + if ok then 1 else 0, g.log + [p])
  }

  /** Progress after the first `k` selected rows. */
  function Looped(table: seq<Row>, now: int, sel: seq<nat>, accepts: nat -> bool, clock: nat -> int, k: nat): (g: Progress)
    requires k <= |sel| && forall j :: 0 <= j < |sel| ==> sel[j] < |table|
    ensures |g.session| == |table| && |g.log| == k
  {
    if k == 0 then Progress(table, 0, [])
    else Advance(Looped(table, now, sel, accepts, clock, k - 1), sel[k - 1], now, accepts(k - 1), clock(k - 1))
  }

  /** The session's view is the replay of the publishes made so far. */
  ghost predicate InStep(table: seq<Row>, g: Progress) {
    InTable(g.log, |table|) && g.session == Replay(table, g.log) && g.count == Successes(g.log)
  }

  lemma AdvanceStaysInStep(table: seq<Row>, g: Progress, row: nat, now: int, ok: bool, at: int)
    requires InStep(table, g) && row < |table| && forall k :: 0 <= k < |g.log| ==> g.log[k].row != row
    ensures InStep(table, Advance(g, row, now, ok, at))
    ensures Advance(g, row, now, ok, at).log == g.log + [Publish(row, ToEnvelope(table[row]), now, ok, at)]
  {
    ReplayUntouched(table, g.log, row);
    var log := Advance(g, row, now, ok, at).log;
    assert log[..|g.log|] == g.log;
  }

  ghost predicate MadeBy(log: seq<Publish>, accepts: nat -> bool, clock: nat -> int) {
    forall k :: 0 <= k < |log| ==> log[k].ok == accepts(k) && log[k].at == clock(k)
  }

  /** The log holds the publishes of the first selected rows. */
  ghost predicate BatchSoFar(table: seq<Row>, now: int, sel: seq<nat>, log: seq<Publish>) {
    && |log| <= |sel|
    && forall j :: 0 <= j < |log| ==>
         && log[j].row == sel[j] < |table| && log[j].now == now && log[j].envelope == ToEnvelope(table[sel[j]])
  }

  lemma BatchGrows(table: seq<Row>, now: int, sel: seq<nat>, log: seq<Publish>, p: Publish)
    requires BatchSoFar(table, now, sel, log) && |log| < |sel|
    requires p.row == sel[|log|] < |table| && p.now == now && p.envelope == ToEnvelope(table[p.row])
    ensures BatchSoFar(table, now, sel, log + [p])
  {
  }

  lemma NextRowIsNew(table: seq<Row>, now: int, sel: seq<nat>, log: seq<Publish>)
    requires BatchSoFar(table, now, sel, log) && Distinct(sel) && |log| < |sel|
    ensures forall j :: 0 <= j < |log| ==> log[j].row != sel[|log|]
  {
  }

  lemma MadeByGrows(log: seq<Publish>, accepts: nat -> bool, clock: nat -> int, p: Publish)
    requires MadeBy(log, accepts, clock) && p.ok == accepts(|log|) && p.at == clock(|log|)
    ensures MadeBy(log + [p], accepts, clock)
  {
  }

  /** The loop publishes each selected row once, as it was when selected. */
  lemma {:induction false} LoopMakesBatch(table: seq<Row>, now: int, sel: seq<nat>, accepts: nat -> bool, clock: nat -> int, k: nat)
    requires k <= |sel| && Distinct(sel) && forall j :: 0 <= j < |sel| ==> sel[j] < |table|
    ensures var g := Looped(table, now, sel, accepts, clock, k);
            InStep(table, g) && BatchSoFar(table, now, sel, g.log) && MadeBy(g.log, accepts, clock)
  {
    if k > 0 {
      LoopMakesBatch(table, now, sel, accepts, clock, k - 1);
      var before := Looped(table, now, sel, accepts, clock, k - 1);
      var p := Publish(sel[k - 1], ToEnvelope(table[sel[k - 1]]), now, accepts(k - 1), clock(k - 1));
      NextRowIsNew(table, now, sel, before.log);
      AdvanceStaysInStep(table, before, sel[k - 1], now, accepts(k - 1), clock(k - 1));
      BatchGrows(table, now, sel, before.log, p);
      MadeByGrows(before.log, accepts, clock, p);
    }
  }

  lemma LoopIsBatch(table: seq<Row>, now: int, sel: seq<nat>, accepts: nat -> bool, clock: nat -> int)
    requires Distinct(sel) && forall j :: 0 <= j < |sel| ==> sel[j] < |table|
    ensures var g := Looped(table, now, sel, accepts, clock, |sel|);
            InStep(table, g) && IsBatch(table, now, sel, g.log) && MadeBy(g.log, accepts, clock)
  {
    LoopMakesBatch(table, now, sel, accepts, clock, |sel|);
  }

  /** The number the pending gauge shows. */
  function PendingCount(table: seq<Row>): nat {
    Sum(table, IsPending)
  }

  class Relay {
    var table: seq<Row>
    var bus: seq<Publish>
    var pendingGauge: nat
    const batchSize: nat

    constructor (table: seq<Row>, batchSize: nat)
      ensures this.table == table && this.batchSize == batchSize && bus == [] && pendingGauge == 0
    {
      this.table := table;
      this.batchSize := batchSize;
      bus := [];
      pendingGauge := 0;
    }

    /** The oldest due row that nobody holds and that is not yet picked. */
    method Oldest(now: int, locked: set<nat>, picked: seq<nat>) returns (best: Option<nat>)
      ensures best.None? ==> forall i: nat :: i < |table| && i !in locked && Due(table[i], now) ==> i in picked
      ensures best.Some? ==>
                && best.value < |table| && best.value !in locked && best.value !in picked && Due(table[best.value], now)
                && forall i: nat :: i < |table| && i !in locked && i !in picked && Due(table[i], now) ==>
                     table[best.value].createdAt <= table[i].createdAt
    {
      best := None;
      for i := 0 to |table|
        invariant best.None? ==> forall j: nat :: j < i && j !in locked && Due(table[j], now) ==> j in picked
        invariant best.Some? ==>
                    && best.value < i && best.value !in locked && best.value !in picked && Due(table[best.value], now)
                    && forall j: nat :: j < i && j !in locked && j !in picked && Due(table[j], now) ==>
                         table[best.value].createdAt <= table[j].createdAt
      {
        if i !in locked && i !in picked && Due(table[i], now) {
          if best.None? || table[i].createdAt < table[best.value].createdAt {
            best := Some(i);
          }
        }
      }
    }

    method SelectDue(now: int, locked: set<nat>) returns (sel: seq<nat>)
      ensures IsSelection(table, locked, now, batchSize, sel)
    {
      sel := [];
      while |sel| < batchSize
        invariant |sel| <= batchSize
        invariant Distinct(sel)
        invariant forall k :: 0 <= k < |sel| ==> sel[k] < |table| && sel[k] !in locked && Due(table[sel[k]], now)
        invariant forall j, k :: 0 <= j < k < |sel| ==> table[sel[j]].createdAt <= table[sel[k]].createdAt
        invariant forall i: nat, k :: i < |table| && i !in locked && Due(table[i], now) && i !in sel && 0 <= k < |sel| ==>
                    table[sel[k]].createdAt <= table[i].createdAt
        decreases batchSize - |sel|
      {
        var next := Oldest(now, locked, sel);
        if next.None? {
          break;
        }
        sel := sel + [next.value];
      }
    }

    /** What the loop of `run_once` writes into a row once its publish returned or raised. */
    static method Settle(row: Row, p: Publish) returns (r: Row)
      ensures r == After(row, p)
    {
      r := row;
      if p.ok {
        r := r.(status := Sent);
        r := r.(sentAt := Some(p.at));
        r := r.(attempts := r.attempts + 1);
      } else {
        r := r.(attempts := r.attempts + 1);
        if r.attempts >= MAX_ATTEMPTS {
          r := r.(status := Failed);
        } else {
          r := r.(nextAttemptAt := Some(p.now + BASE_BACKOFF_SECONDS * Pow2(Min(r.attempts, 6))));
        }
      }
    }

    method PublishRows(rows: seq<nat>, now: int, accepts: nat -> bool, clock: nat -> int)
      returns (session: seq<Row>, count: nat, ghost log: seq<Publish>)
      requires forall j :: 0 <= j < |rows| ==> rows[j] < |table|
      modifies this`bus
      ensures Progress(session, count, log) == Looped(table, now, rows, accepts, clock, |rows|)
      ensures bus == old(bus) + log
    {
      session, count, log := table, 0, [];
      for k := 0 to |rows|
        invariant Progress(session, count, log) == Looped(table, now, rows, accepts, clock, k)
        invariant bus == old(bus) + log
      {
        var p := Publish(rows[k], ToEnvelope(session[rows[k]]), now, accepts(k), clock(k));
        bus := bus + [p];
        var row := Settle(session[rows[k]], p);
        session := session[rows[k] := row];
        if p.ok {
          count := count + 1;
        }
        log := log + [p];
      }
    }

    /** One `run_once`.  `accepts` says of each call of the publisher whether it returned,
        `clock` gives the reading taken after it, `commits` whether the commit went through. */
    method RunOnce(now: int, locked: set<nat>, accepts: nat -> bool, clock: nat -> int, commits: bool)
      returns (delivered: Option<nat>, ghost sel: seq<nat>, ghost log: seq<Publish>)
      modifies this`table, this`bus, this`pendingGauge
      ensures IsSelection(old(table), locked, now, batchSize, sel)
      ensures IsBatch(old(table), now, sel, log)
      ensures MadeBy(log, accepts, clock)
      ensures InTable(log, |old(table)|) && bus == old(bus) + log
      ensures table == if commits then Replay(old(table), log) else old(table)
      ensures delivered == if commits then Some(|set k | 0 <= k < |sel| && accepts(k)|) else None
      ensures pendingGauge == |set i | 0 <= i < |old(table)| && Replay(old(table), log)[i].status == Pending|
    {
      var rows := SelectDue(now, locked);
      var session, count;
      session, count, log := PublishRows(rows, now, accepts, clock);
      sel := rows;
      LoopIsBatch(table, now, rows, accepts, clock);
      pendingGauge := PendingCount(session);
      PendingIsCounted(session);
      SuccessesAreCounted(log);
      assert (set k | 0 <= k < |sel| && accepts(k)) == set k | 0 <= k < |log| && log[k].ok;
      if commits {
        table := session;
        delivered := Some(count);
      } else {
        delivered := None;
      }
    }
  }

  lemma {:induction false} SuccessesAreCounted(log: seq<Publish>)
    ensures Successes(log) == |set k | 0 <= k < |log| && log[k].ok|
  {
    if log != [] {
      var n := |log| - 1;
      var before, all := set k | 0 <= k < n && log[..n][k].ok, set k | 0 <= k < |log| && log[k].ok;
      SuccessesAreCounted(log[..n]);
      assert all == if log[n].ok then before + {n} else before;
    }
  }

  lemma {:induction false} PendingIsCounted(table: seq<Row>)
    ensures PendingCount(table) == |set i | 0 <= i < |table| && table[i].status == Pending|
  {
    if table != [] {
      var n := |table| - 1;
      var before, all := set i | 0 <= i < n && table[..n][i].status == Pending, set i | 0 <= i < |table| && table[i].status == Pending;
      PendingIsCounted(table[..n]);
      assert all == if table[n].status == Pending then before + {n} else before;
    }
  }

  // ---------------------------------------------------------------- refinement

  ghost predicate Chain(states: seq<RelayRuns.Db>, steps: seq<RelayRuns.Step>) {
    && |states| == |steps| + 1
    && forall k :: 0 <= k < |steps| ==>
         RelayRuns.Enabled(states[k], steps[k]) && states[k + 1] == RelayRuns.Do(states[k], steps[k])
  }

  lemma ExtendChain(states: seq<RelayRuns.Db>, steps: seq<RelayRuns.Step>, step: RelayRuns.Step)
    requires Chain(states, steps) && RelayRuns.Enabled(states[|steps|], step)
    ensures Chain(states + [RelayRuns.Do(states[|steps|], step)], steps + [step])
  {
  }

  /** Selecting and publishing the first `n` rows are steps of the interleaved machine. */
  lemma {:induction false} PublishesAreSteps(db: RelayRuns.Db, r: nat, now: int, batch: nat, sel: seq<nat>, log: seq<Publish>, n: nat)
    returns (states: seq<RelayRuns.Db>, steps: seq<RelayRuns.Step>)
    requires r < |db.live| && db.live[r].None?
    requires IsSelection(db.table, RelayRuns.Locked(db), now, batch, sel) && IsBatch(db.table, now, sel, log)
    requires n <= |log|
    ensures Chain(states, steps) && states[0] == db
    ensures states[|steps|] == db.(live := db.live[r := Some(RelayRuns.Txn(now, sel, log[..n]))], bus := db.bus + log[..n])
  {
    if n == 0 {
      steps := [RelayRuns.Select(r, now, batch, sel)];
      states := [db, RelayRuns.Do(db, steps[0])];
    } else {
      states, steps := PublishesAreSteps(db, r, now, batch, sel, log, n - 1);
      var s := states[|steps|];
      var step := RelayRuns.Deliver(r, log[n - 1].ok, log[n - 1].at);
      assert RelayRuns.PublishOf(s, s.live[r].value, log[n - 1].ok, log[n - 1].at) == log[n - 1];
      assert log[..n - 1] + [log[n - 1]] == log[..n];
      assert db.bus + log[..n - 1] + [log[n - 1]] == db.bus + log[..n];
      ExtendChain(states, steps, step);
      states, steps := states + [RelayRuns.Do(s, step)], steps + [step];
    }
  }

  /** The uninterrupted `RunOnce` is one schedule of the interleaved machine: select,
      publish each row, then commit or lose the transaction. */
  lemma BatchIsASchedule(db: RelayRuns.Db, r: nat, now: int, batch: nat, sel: seq<nat>, log: seq<Publish>)
    returns (states: seq<RelayRuns.Db>, steps: seq<RelayRuns.Step>)
    requires r < |db.live| && db.live[r].None?
    requires IsSelection(db.table, RelayRuns.Locked(db), now, batch, sel) && IsBatch(db.table, now, sel, log)
    ensures Chain(states, steps) && states[0] == db && InTable(log, |db.table|)
    ensures RelayRuns.Enabled(states[|steps|], RelayRuns.Commit(r)) && RelayRuns.Enabled(states[|steps|], RelayRuns.Abort(r))
    ensures RelayRuns.Do(states[|steps|], RelayRuns.Commit(r))
            == db.(table := Replay(db.table, log), bus := db.bus + log, committed := db.committed + log)
    ensures RelayRuns.Do(states[|steps|], RelayRuns.Abort(r)) == db.(bus := db.bus + log, aborted := db.aborted + log)
  {
    states, steps := PublishesAreSteps(db, r, now, batch, sel, log, |log|);
    assert log[..|log|] == log;
    assert db.live[r := Some(RelayRuns.Txn(now, sel, log))][r := None] == db.live;
  }

  /** A batch may be lost after any number of its publishes, and then leaves only these. */
  lemma LostBatchIsASchedule(db: RelayRuns.Db, r: nat, now: int, batch: nat, sel: seq<nat>, log: seq<Publish>, n: nat)
    returns (states: seq<RelayRuns.Db>, steps: seq<RelayRuns.Step>)
    requires r < |db.live| && db.live[r].None?
    requires IsSelection(db.table, RelayRuns.Locked(db), now, batch, sel) && IsBatch(db.table, now, sel, log) && n <= |log|
    ensures Chain(states, steps) && states[0] == db && RelayRuns.Enabled(states[|steps|], RelayRuns.Abort(r))
    ensures RelayRuns.Do(states[|steps|], RelayRuns.Abort(r)) == db.(bus := db.bus + log[..n], aborted := db.aborted + log[..n])
  {
    states, steps := PublishesAreSteps(db, r, now, batch, sel, log, n);
    assert db.live[r := Some(RelayRuns.Txn(now, sel, log[..n]))][r := None] == db.live;
  }

  // ---------------------------------------------------------------- draining a backlog

  /** One call of `run_once`: its clock, the rows it picked and its publishes. */
  datatype Round = Round(now: int, sel: seq<nat>, log: seq<Publish>)

  ghost predicate AllOk(log: seq<Publish>) {
    forall k :: 0 <= k < |log| ==> log[k].ok
  }

  /** Successive calls by one relay with a publisher that always succeeds, while nothing
      is staged and every row that was pending at the start stays due. */
  ghost predicate IsDrain(batch: nat, tables: seq<seq<Row>>, rounds: seq<Round>) {
    && |tables| == |rounds| + 1
    && (forall k :: 0 <= k < |rounds| ==>
          && IsSelection(tables[k], {}, rounds[k].now, batch, rounds[k].sel)
          && IsBatch(tables[k], rounds[k].now, rounds[k].sel, rounds[k].log)
          && AllOk(rounds[k].log)
          && InTable(rounds[k].log, |tables[k]|) && tables[k + 1] == Replay(tables[k], rounds[k].log))
    && (forall i, k :: 0 <= i < |tables[0]| && 0 <= k < |rounds| && tables[0][i].status == Pending ==>
          Due(tables[0][i], rounds[k].now))
  }

  function Published(rounds: seq<Round>): seq<nat> {
    if rounds == [] then [] else Published(rounds[..|rounds| - 1]) + rounds[|rounds| - 1].sel
  }

  /** `picked` is a oldest-first prefix of the pending rows in creation order. */
  ghost predicate IsOldest(table: seq<Row>, picked: seq<nat>) {
    && Distinct(picked)
    && (forall k :: 0 <= k < |picked| ==> picked[k] < |table| && table[picked[k]].status == Pending)
    && (forall j, k :: 0 <= j < k < |picked| ==> table[picked[j]].createdAt <= table[picked[k]].createdAt)
    && (forall i: nat, k :: i < |table| && table[i].status == Pending && i !in picked && 0 <= k < |picked| ==>
          table[picked[k]].createdAt <= table[i].createdAt)
  }

  ghost predicate DrainedTo(start: seq<Row>, table: seq<Row>, picked: seq<nat>) {
    && |table| == |start|
    && forall i: nat :: i < |start| ==>
         if i in picked then table[i].status == Sent && table[i].attempts == start[i].attempts + 1
         else table[i] == start[i]
  }

  lemma {:induction false} SuccessesLeavePending(table: seq<Row>, log: seq<Publish>)
    requires InTable(log, |table|) && AllOk(log)
    requires forall a, b :: 0 <= a < b < |log| ==> log[a].row != log[b].row
    requires forall k :: 0 <= k < |log| ==> table[log[k].row].status == Pending
    ensures PendingCount(Replay(table, log)) + |log| == PendingCount(table)
  {
    if log != [] {
      var init := log[..|log| - 1];
      var p := log[|log| - 1];
      SuccessesLeavePending(table, init);
      ReplayUntouched(table, init, p.row);
      var before := Replay(table, init);
      SumUpdate(before, p.row, After(before[p.row], p), IsPending);
    }
  }

  ghost predicate RoundOn(batch: nat, start: seq<Row>, table: seq<Row>, picked: seq<nat>, round: Round) {
    && IsOldest(start, picked) && DrainedTo(start, table, picked)
    && IsSelection(table, {}, round.now, batch, round.sel)
    && IsBatch(table, round.now, round.sel, round.log) && AllOk(round.log) && InTable(round.log, |table|)
    && (forall i :: 0 <= i < |start| && start[i].status == Pending ==> Due(start[i], round.now))
  }

  lemma RoundPicksNewRows(batch: nat, start: seq<Row>, table: seq<Row>, picked: seq<nat>, round: Round)
    requires RoundOn(batch, start, table, picked, round)
    ensures forall k :: 0 <= k < |round.sel| ==>
              && round.sel[k] !in picked && start[round.sel[k]] == table[round.sel[k]]
              && table[round.sel[k]].status == Pending
    ensures forall a, b :: 0 <= a < b < |round.log| ==> round.log[a].row != round.log[b].row
    ensures forall i: nat :: i < |start| && start[i].status == Pending && i !in picked ==> Due(table[i], round.now)
  {
  }

  lemma RoundKeepsOrder(batch: nat, start: seq<Row>, table: seq<Row>, picked: seq<nat>, round: Round)
    requires RoundOn(batch, start, table, picked, round)
    ensures IsOldest(start, picked + round.sel)
  {
  }

  lemma RoundSendsItsRows(batch: nat, start: seq<Row>, table: seq<Row>, picked: seq<nat>, round: Round)
    requires RoundOn(batch, start, table, picked, round)
    ensures DrainedTo(start, Replay(table, round.log), picked + round.sel)
  {
    RoundPicksNewRows(batch, start, table, picked, round);
    var sel, log := round.sel, round.log;
    var table' := Replay(table, log);
    assert forall k :: 0 <= k < |sel| ==> log[k].row == sel[k];
    forall i: nat | i < |start| ensures
      if i in picked + sel then table'[i].status == Sent && table'[i].attempts == start[i].attempts + 1
      else table'[i] == start[i]
    {
      if k :| 0 <= k < |log| && log[k].row == i {
        ReplayOnce(table, log, k);
        assert i == sel[k];
      } else {
        ReplayUntouched(table, log, i);
      }
    }
  }

  lemma RoundSize(batch: nat, start: seq<Row>, table: seq<Row>, picked: seq<nat>, round: Round)
    requires RoundOn(batch, start, table, picked, round)
    ensures PendingCount(Replay(table, round.log)) + |round.sel| == PendingCount(table)
    ensures |round.sel| == Min(batch, PendingCount(table))
  {
    RoundPicksNewRows(batch, start, table, picked, round);
    SuccessesLeavePending(table, round.log);
    if |round.sel| < batch {
      RoundSendsItsRows(batch, start, table, picked, round);
      var table' := Replay(table, round.log);
      assert forall i: nat :: i < |start| && start[i].status == Pending && i !in picked ==> i in round.sel;
      SumZeroIff(table');
    }
  }

  lemma DrainIsRounds(batch: nat, tables: seq<seq<Row>>, rounds: seq<Round>, k: nat, picked: seq<nat>)
    requires IsDrain(batch, tables, rounds) && k < |rounds|
    requires IsOldest(tables[0], picked) && DrainedTo(tables[0], tables[k], picked)
    ensures RoundOn(batch, tables[0], tables[k], picked, rounds[k])
    ensures tables[k + 1] == Replay(tables[k], rounds[k].log)
  {
  }

  lemma MinGrows(k: nat, batch: nat, d: nat, n: nat)
    requires n == Min(k * batch, d)
    ensures n + Min(batch, d - n) == Min((k + 1) * batch, d)
  {
    assert (k + 1) * batch == k * batch + batch;
  }

  /** Exactly the first min(k * batch, D) of the D pending rows in creation order have been
      published, once each, and the pending gauge shows the rest. */
  ghost predicate DrainedPrefix(batch: nat, start: seq<Row>, table: seq<Row>, picked: seq<nat>, k: nat) {
    && IsOldest(start, picked)
    && DrainedTo(start, table, picked)
    && |picked| == Min(k * batch, PendingCount(start))
    && PendingCount(table) == PendingCount(start) - |picked|
  }

  lemma DrainStep(batch: nat, tables: seq<seq<Row>>, rounds: seq<Round>, k: nat, picked: seq<nat>)
    requires IsDrain(batch, tables, rounds) && k < |rounds|
    requires DrainedPrefix(batch, tables[0], tables[k], picked, k)
    ensures DrainedPrefix(batch, tables[0], tables[k + 1], picked + rounds[k].sel, k + 1)
  {
    var start, round := tables[0], rounds[k];
    DrainIsRounds(batch, tables, rounds, k, picked);
    RoundKeepsOrder(batch, start, tables[k], picked, round);
    RoundSendsItsRows(batch, start, tables[k], picked, round);
    RoundSize(batch, start, tables[k], picked, round);
    MinGrows(k, batch, PendingCount(start), |picked|);
  }

  /** Draining a backlog with k calls of `run_once`. */
  lemma {:induction false} DrainBound(batch: nat, tables: seq<seq<Row>>, rounds: seq<Round>, k: nat)
    requires IsDrain(batch, tables, rounds) && k <= |rounds|
    ensures DrainedPrefix(batch, tables[0], tables[k], Published(rounds[..k]), k)
  {
    if k == 0 {
      assert rounds[..k] == [];
    } else {
      DrainBound(batch, tables, rounds, k - 1);
      assert rounds[..k][..k - 1] == rounds[..k - 1];
      DrainStep(batch, tables, rounds, k - 1, Published(rounds[..k - 1]));
    }
  }
}
