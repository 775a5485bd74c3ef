/** Outbox rows: what is staged, what one delivery attempt does to a row, and which
    rows a relay transaction may pick.  A table is a sequence of rows in insertion
    order; a row is addressed by its position and carries its primary key in `id`. */
module Outbox {
  import opened Options

  const MAX_ATTEMPTS: nat := 8
  const BASE_BACKOFF_SECONDS: nat := 2

  datatype Json = Text(text: string) | Number(number: int)

  datatype TraceContext = TraceContext(traceId: string, spanId: string, flags: string)

  datatype Envelope = Envelope(
    eventId: string, eventName: string, source: string,
    aggregateType: string, aggregateId: string, occurredAt: int,
    payload: map<string, Json>, trace: Option<TraceContext>)

  datatype Status = Pending | Sent | Failed

  datatype Row = Row(
    id: string, eventName: string, aggregateType: string, aggregateId: string,
    payload: map<string, Json>, traceHeader: Option<TraceContext>,
    status: Status, attempts: nat, nextAttemptAt: Option<int>, createdAt: int,
    sentAt: Option<int>)

  /** One call of the publisher: the row it was made for, the envelope handed over,
      the `now` of the transaction, whether the call returned, and the clock reading
      taken after it. */
  datatype Publish = Publish(row: nat, envelope: Envelope, now: int, ok: bool, at: int)

  predicate IsHex(s: string, n: nat) {
    |s| == n && forall c :: c in s ==> '0' <= c <= '9' || 'a' <= c <= 'f'
  }

  predicate ValidTrace(t: TraceContext) {
    IsHex(t.traceId, 32) && IsHex(t.spanId, 16) && IsHex(t.flags, 2)
  }

  /** The row `stage_outbox` adds to the session; `id` and `createdAt` are column
      defaults filled in when the row is inserted. */
  function StagedRow(e: Envelope, id: string, createdAt: int): Row {
    Row(id, e.eventName, e.aggregateType, e.aggregateId, e.payload, e.trace,
        Pending, 0, None, createdAt, None)
  }

  function ToEnvelope(row: Row): Envelope {
    Envelope(row.id, row.eventName, "", row.aggregateType, row.aggregateId, row.createdAt, row.payload,
             if row.traceHeader.Some? && ValidTrace(row.traceHeader.value) then row.traceHeader else None)
  }

  function Pow2(n: nat): nat {
    if n == 0 then 1 else 2 * Pow2(n - 1)
  }

  function Backoff(attempts: nat): nat {
    BASE_BACKOFF_SECONDS * Pow2(Min(attempts, 6))
  }

  /** What one attempt leaves in the row. */
  function After(row: Row, p: Publish): Row {
    var n := row.attempts + 1;
    if p.ok then
      row.(status := Sent, sentAt := Some(p.at), attempts := n)
    else if n >= MAX_ATTEMPTS then
      row.(status := Failed, attempts := n)
    else
      row.(nextAttemptAt := Some(p.now + Backoff(n)), attempts := n)
  }

  predicate Due(row: Row, now: int) {
    row.status == Pending && (row.nextAttemptAt.None? || row.nextAttemptAt.value <= now)
  }

  /** The answer of the ordered, limited select that skips rows held by others.  Rows
      with equal creation times may come in any order. */
  ghost predicate IsSelection(table: seq<Row>, locked: set<nat>, now: int, batch: nat, sel: seq<nat>) {
    && Distinct(sel)
    && (forall k :: 0 <= k < |sel| ==> sel[k] < |table| && sel[k] !in locked && Due(table[sel[k]], now))
    && (forall j, k :: 0 <= j < k < |sel| ==> table[sel[j]].createdAt <= table[sel[k]].createdAt)
    && |sel| <= batch
    && (|sel| < batch ==> forall i: nat :: i < |table| && i !in locked && Due(table[i], now) ==> i in sel)
    && (forall i: nat, k :: i < |table| && i !in locked && Due(table[i], now) && i !in sel && 0 <= k < |sel| ==>
          table[sel[k]].createdAt <= table[i].createdAt)
  }

  predicate InTable(log: seq<Publish>, n: nat) {
    forall k :: 0 <= k < |log| ==> log[k].row < n
  }

  /** The table after the attempts of `log`, in order. */
  function Replay(table: seq<Row>, log: seq<Publish>): (r: seq<Row>)
    requires InTable(log, |table|)
    ensures |r| == |table|
  {
    if log == [] then table
    else
      var before := Replay(table, log[..|log| - 1]);
      var p := log[|log| - 1];
      before[p.row := After(before[p.row], p)]
  }

  /** The attempts made for row `i`, oldest first. */
  function Of(log: seq<Publish>, i: nat): (r: seq<Publish>) {
    if log == [] then []
    else Of(log[..|log| - 1], i) + if log[|log| - 1].row == i then [log[|log| - 1]] else []
  }

  function Count(log: seq<Publish>, i: nat, ok: bool): nat {
    if log == [] then 0
    else Count(log[..|log| - 1], i, ok) + if log[|log| - 1].row == i && log[|log| - 1].ok == ok then 1 else 0
  }

  /** A weight summed over a table: used for the retry budget and the pending gauge. */
  function Sum(table: seq<Row>, w: Row -> nat): nat {
    if table == [] then 0 else Sum(table[..|table| - 1], w) + w(table[|table| - 1])
  }

  function Remaining(row: Row): nat {
    if row.status == Pending && row.attempts < MAX_ATTEMPTS then MAX_ATTEMPTS - row.attempts else 0
  }

  function IsPending(row: Row): nat {
    if row.status == Pending then 1 else 0
  }

  // ---------------------------------------------------------------- staging

  /** The parts of a trace have 32, 16 and 2 hexadecimal digits in small letters. */
  ghost predicate WellFormedTrace(t: TraceContext) {
    && |t.traceId| == 32 && |t.spanId| == 16 && |t.flags| == 2
    && forall c :: c in t.traceId + t.spanId + t.flags ==> c in "0123456789abcdef"
  }

  /** Staging keeps what the event is about, and its trace if that is well formed; its identity,
      time and source are those of the row, so the envelope's own survive only by coincidence. */
  lemma StagingKeepsContent(e: Envelope, id: string, createdAt: int)
    ensures var f := ToEnvelope(StagedRow(e, id, createdAt));
            && f.eventName == e.eventName && f.aggregateType == e.aggregateType
            && f.aggregateId == e.aggregateId && f.payload == e.payload
            && f.eventId == id && f.occurredAt == createdAt && f.source == ""
            && f.trace == (if e.trace.Some? && WellFormedTrace(e.trace.value) then e.trace else None)
            && (f == e <==> e.eventId == id && e.occurredAt == createdAt && e.source == "" && f.trace == e.trace)
  {
    if e.trace.Some? {
      TraceCheck(e.trace.value);
    }
    var f := ToEnvelope(StagedRow(e, id, createdAt));
    assert f == e.(eventId := id, occurredAt := createdAt, source := "", trace := f.trace);
  }

  lemma TraceCheck(t: TraceContext)
    ensures ValidTrace(t) <==> WellFormedTrace(t)
  {
    var digits := "0123456789abcdef";
    forall c: char ensures c in digits <==> '0' <= c <= '9' || 'a' <= c <= 'f' {
      if '0' <= c <= '9' {
        assert digits[c as int - 48] == c;
      } else if 'a' <= c <= 'f' {
        assert digits[c as int - 87] == c;
      }
    }
    var all := t.traceId + t.spanId + t.flags;
    assert forall c :: c in all <==> c in t.traceId || c in t.spanId || c in t.flags;
    if WellFormedTrace(t) {
      assert forall c :: c in t.traceId ==> c in all;
    }
  }

  /** However often a row is attempted it is published as the same envelope. */
  lemma {:induction false} EnvelopeIsStable(table: seq<Row>, log: seq<Publish>, i: nat)
    requires InTable(log, |table|) && i < |table|
    ensures ToEnvelope(Replay(table, log)[i]) == ToEnvelope(table[i])
    ensures Replay(table, log)[i].id == table[i].id
  {
    if log != [] {
      EnvelopeIsStable(table, log[..|log| - 1], i);
    }
  }

  // ---------------------------------------------------------------- helpers on logs

  lemma {:induction false} OfConcat(a: seq<Publish>, b: seq<Publish>, i: nat)
    ensures Of(a + b, i) == Of(a, i) + Of(b, i)
  {
    if b == [] {
      assert a + b == a;
    } else {
      assert (a + b)[..|a + b| - 1] == a + b[..|b| - 1];
      OfConcat(a, b[..|b| - 1], i);
    }
  }

  lemma {:induction false} CountConcat(a: seq<Publish>, b: seq<Publish>, i: nat, ok: bool)
    ensures Count(a + b, i, ok) == Count(a, i, ok) + Count(b, i, ok)
  {
    if b == [] {
      assert a + b == a;
    } else {
      assert (a + b)[..|a + b| - 1] == a + b[..|b| - 1];
      CountConcat(a, b[..|b| - 1], i, ok);
    }
  }

  /** Counting a row's attempts is counting in its own history. */
  lemma {:induction false} CountOf(log: seq<Publish>, i: nat)
    ensures Count(log, i, true) + Count(log, i, false) == |Of(log, i)|
    ensures forall k :: 0 <= k < |Of(log, i)| ==> Of(log, i)[k] in log && Of(log, i)[k].row == i
    ensures (forall p :: p in log && p.row == i ==> !p.ok) ==> Count(log, i, true) == 0
  {
    if log != [] {
      CountOf(log[..|log| - 1], i);
    }
  }

  lemma {:induction false} OfAbsent(log: seq<Publish>, i: nat)
    requires forall k :: 0 <= k < |log| ==> log[k].row != i
    ensures Of(log, i) == [] && Count(log, i, true) == 0 && Count(log, i, false) == 0
  {
    if log != [] {
      OfAbsent(log[..|log| - 1], i);
    }
  }

  /** In a log that touches each row once, a row's history is its one entry. */
  lemma {:induction false} OfDistinct(log: seq<Publish>, k: nat)
    requires k < |log|
    requires forall a, b :: 0 <= a < b < |log| ==> log[a].row != log[b].row
    ensures Of(log, log[k].row) == [log[k]]
    ensures Count(log, log[k].row, log[k].ok) == 1 && Count(log, log[k].row, !log[k].ok) == 0
  {
    var init := log[..|log| - 1];
    if k == |log| - 1 {
      OfAbsent(init, log[k].row);
    } else {
      OfDistinct(init, k);
    }
  }

  lemma {:induction false} ReplayUntouched(table: seq<Row>, log: seq<Publish>, i: nat)
    requires InTable(log, |table|) && i < |table|
    requires forall k :: 0 <= k < |log| ==> log[k].row != i
    ensures Replay(table, log)[i] == table[i]
  {
    if log != [] {
      ReplayUntouched(table, log[..|log| - 1], i);
    }
  }

  lemma {:induction false} ReplayOnce(table: seq<Row>, log: seq<Publish>, k: nat)
    requires InTable(log, |table|) && k < |log|
    requires forall a, b :: 0 <= a < b < |log| ==> log[a].row != log[b].row
    ensures Replay(table, log)[log[k].row] == After(table[log[k].row], log[k])
  {
    var init := log[..|log| - 1];
    if k == |log| - 1 {
      ReplayUntouched(table, init, log[k].row);
    } else {
      ReplayOnce(table, init, k);
    }
  }

  lemma {:induction false} SumUpdate(table: seq<Row>, i: nat, row: Row, w: Row -> nat)
    requires i < |table|
    ensures Sum(table[i := row], w) + w(table[i]) == Sum(table, w) + w(row)
  {
    var n := |table| - 1;
    if i == n {
      assert table[i := row][..n] == table[..n];
    } else {
      assert table[i := row][..n] == table[..n][i := row];
      SumUpdate(table[..n], i, row, w);
    }
  }

  lemma {:induction false} SumZeroIff(table: seq<Row>)
    ensures Sum(table, IsPending) == 0 <==> forall i :: 0 <= i < |table| ==> table[i].status != Pending
  {
    if table != [] {
      SumZeroIff(table[..|table| - 1]);
    }
  }
}
