/** The idempotency middleware: it records the first response for a key and replays it. */
module Idempotency {
  import opened Options
  import Events

  newtype byte = x: int | 0 <= x < 256

  datatype Message =
    | Start(status: int, headers: seq<(string, string)>)
    | Body(body: seq<byte>, more: bool)
    | Other(kind: string)

  datatype Record = Record(status: int, body: string, contentType: string)

  /** The JSON and UTF-8 libraries.  `json` gives the value of a text, if it is JSON. */
  datatype Codec<!V> = Codec(
    dump: Record -> string, load: string -> Option<Record>,
    utf8: seq<byte> -> string, json: string -> Option<V>)

  ghost predicate Sound<V>(c: Codec<V>) {
    forall r :: c.load(c.dump(r)) == Some(r) && c.dump(r) != ""
  }

  function MakeKey(service: string, verb: string, path: string, key: string): string {
    "idem:" + service + ":" + verb + ":" + path + ":" + key
  }

  /** The second join has a longer first part, which takes over the first part of `x`. */
  predicate Shifted(a: string, x: string, b: string, y: string) {
    |a| < |b| && b[..|a| + 1] == a + ":" && x == b[|a| + 1..] + ":" + y
  }

  lemma ShiftedJoins(a: string, x: string, b: string, y: string)
    requires Shifted(a, x, b, y)
    ensures a + ":" + x == b + ":" + y
  {
    var m := b[|a| + 1..];
    assert b == a + ":" + m;
    assert a + ":" + (m + ":" + y) == a + ":" + m + ":" + y;
  }

  lemma JoinsShift(a: string, x: string, b: string, y: string)
    requires a + ":" + x == b + ":" + y && |a| < |b|
    ensures Shifted(a, x, b, y)
  {
    var joined := a + ":" + x;
    assert joined[..|a| + 1] == a + ":" && joined[|a| + 1..] == x;
    assert (b + ":" + y)[..|a| + 1] == b[..|a| + 1];
    assert (b + ":" + y)[|a| + 1..] == b[|a| + 1..] + ":" + y;
  }

  lemma JoinsCoincide(a: string, x: string, b: string, y: string)
    ensures a + ":" + x == b + ":" + y <==> (a == b && x == y) || Shifted(a, x, b, y) || Shifted(b, y, a, x)
  {
    if Shifted(a, x, b, y) {
      ShiftedJoins(a, x, b, y);
    }
    if Shifted(b, y, a, x) {
      ShiftedJoins(b, y, a, x);
    }
    if a + ":" + x == b + ":" + y {
      if |a| < |b| {
        JoinsShift(a, x, b, y);
      } else if |b| < |a| {
        JoinsShift(b, y, a, x);
      } else {
        assert (a + ":" + x)[..|a|] == a && (a + ":" + x)[|a| + 1..] == x;
        assert (b + ":" + y)[..|b|] == b && (b + ":" + y)[|b| + 1..] == y;
      }
    }
  }

  predicate Writes(verb: string) {
    verb == "POST" || verb == "PUT" || verb == "PATCH"
  }

  lemma ShiftNeedsColon(a: string, x: string, b: string, y: string)
    requires Shifted(a, x, b, y)
    ensures ':' in b
  {
    assert b[|a|] == (a + ":")[|a|];
  }

  lemma VerbsDoNotShift(v: string, x: string, w: string, y: string)
    requires Writes(w)
    ensures !Shifted(v, x, w, y)
  {
    if Shifted(v, x, w, y) {
      ShiftNeedsColon(v, x, w, y);
    }
  }

  /** Requests to one service share a key exactly when their verbs agree and their paths and
      idempotency keys do, or one path goes on, behind a colon, into the other's key. */
  lemma KeysCoincide(service: string, v: string, p: string, k: string, w: string, q: string, l: string)
    requires Writes(v) && Writes(w)
    ensures MakeKey(service, v, p, k) == MakeKey(service, w, q, l)
            <==> v == w && ((p == q && k == l) || Shifted(p, k, q, l) || Shifted(q, l, p, k))
  {
    var head, x, y := "idem:" + service + ":", p + ":" + k, q + ":" + l;
    assert MakeKey(service, v, p, k) == head + (v + ":" + x);
    assert MakeKey(service, w, q, l) == head + (w + ":" + y);
    assert (head + (v + ":" + x))[|head|..] == v + ":" + x && (head + (w + ":" + y))[|head|..] == w + ":" + y;
    JoinsCoincide(v, x, w, y);
    VerbsDoNotShift(v, x, w, y);
    VerbsDoNotShift(w, y, v, x);
    JoinsCoincide(p, k, q, l);
  }

  /** So without colons in the paths keys are shared by nobody else. */
  lemma PlainPathsKeepApart(service: string, v: string, p: string, k: string, w: string, q: string, l: string)
    requires Writes(v) && Writes(w) && ':' !in p && ':' !in q
    ensures MakeKey(service, v, p, k) == MakeKey(service, w, q, l) <==> v == w && p == q && k == l
  {
    KeysCoincide(service, v, p, k, w, q, l);
    if Shifted(p, k, q, l) {
      ShiftNeedsColon(p, k, q, l);
    }
    if Shifted(q, l, p, k) {
      ShiftNeedsColon(q, l, p, k);
    }
  }

  /** A store that is also used for events keeps them apart from requests. */
  lemma RequestsAreNoEvents(service: string, verb: string, path: string, key: string, eventName: string, eventId: string)
    ensures MakeKey(service, verb, path, key) != Events.EventKey(eventName, eventId)
  {
    assert MakeKey(service, verb, path, key)[0] == 'i' && Events.EventKey(eventName, eventId)[0] == 'e';
  }

  lemma TwoPathsOneKey(service: string)
    ensures MakeKey(service, "POST", "/a", "b:c") == MakeKey(service, "POST", "/a:b", "c")
  {
    assert Shifted("/a", "b:c", "/a:b", "c") by {
      assert "/a:b"[..3] == "/a" + ":" && "/a:b"[3..] == "b";
    }
    KeysCoincide(service, "POST", "/a", "b:c", "POST", "/a:b", "c");
  }

  function Lower(s: string): string {
    if s == "" then ""
    else [if 'A' <= s[0] <= 'Z' then s[0] - 'A' + 'a' else s[0]] + Lower(s[1..])
  }

  function ContentType(headers: seq<(string, string)>): string {
    if headers == [] then "application/json"
    else if Lower(headers[0].0) == "content-type" then headers[0].1
    else ContentType(headers[1..])
  }

  /** What the wrapper of `send` has collected so far. */
  datatype Holder = Holder(status: Option<int>, headers: seq<(string, string)>, body: seq<byte>)

  const EMPTY := Holder(None, [], [])

  function Held(h: Holder, m: Message): Holder {
    match m
    case Start(status, headers) => h.(status := Some(status), headers := headers)
    case Body(body, more) => h.(body := h.body + body)
    case Other(_) => h
  }

  function RecordOf<V>(c: Codec<V>, h: Holder): Record {
    Record(if h.status.Some? then h.status.value else 200, c.utf8(h.body), ContentType(h.headers))
  }

  /** The records written while the application sends its messages. */
  function Written<V>(c: Codec<V>, h: Holder, messages: seq<Message>): seq<Record>
    decreases |messages|
  {
    if messages == [] then []
    else
      var h' := Held(h, messages[0]);
      (if messages[0].Body? && !messages[0].more then [RecordOf(c, h')] else []) + Written(c, h', messages[1..])
  }

  /** A replay: a JSON response, or an exception if the stored body is not JSON. */
  datatype Replay<V> = Response(status: int, value: V, contentType: string) | Raised

  function ReplayOf<V>(c: Codec<V>, r: Record): Replay<V> {
    var v := c.json(r.body);
    if v.Some? then Response(r.status, v.value, r.contentType) else Raised
  }

  /** Either the application ran and these messages were passed on, or a replay was sent. */
  datatype Handled<V> = Ran(sent: seq<Message>) | Replayed(replay: Replay<V>)

  function StoreAfter<V>(c: Codec<V>, data: map<string, string>, key: string, records: seq<Record>): map<string, string> {
    if records == [] then data
    else StoreAfter(c, data, key, records[..|records| - 1])[key := c.dump(records[|records| - 1])]
  }

  class IdempotencyMiddleware<!V> {
    const store: Events.InMemoryIdempotencyStore
    const service: string
    const codec: Codec<V>

    constructor (store: Events.InMemoryIdempotencyStore, service: string, codec: Codec<V>)
      ensures this.store == store && this.service == service && this.codec == codec
    {
      this.store := store;
      this.service := service;
      this.codec := codec;
    }

    /** `messages` is what the application sends if it is called; a request without an
        idempotency header has the empty `header`. */
    method Handle(verb: string, path: string, header: string, messages: seq<Message>) returns (r: Handled<V>)
      modifies store
      ensures verb !in ["POST", "PUT", "PATCH"] || header == "" ==> r == Ran(messages) && store.data == old(store.data)
      ensures verb in ["POST", "PUT", "PATCH"] && header != "" ==>
                var key := "idem:" + service + ":" + verb + ":" + path + ":" + header;
                if key in old(store.data) && old(store.data)[key] != "" then
                  && store.data == old(store.data)
                  && r == Replayed(match codec.load(old(store.data)[key])
                                   case Some(record) => ReplayOf(codec, record)
                                   case None => Raised)
                else
                  && r == Ran(messages)
                  && store.data == StoreAfter(codec, old(store.data), key, Written(codec, EMPTY, messages))
    {
      if !Writes(verb) || header == "" {
        return Ran(messages);
      }
      var key := MakeKey(service, verb, path, header);
      var cached := store.Get(key);
      if cached.Some? && cached.value != "" {
        match codec.load(cached.value)
        case Some(record) =>
          return Replayed(ReplayOf(codec, record));
        case None =>
          return Replayed(Raised);
      }
      var holder, sent := EMPTY, [];
      ghost var written := [];
      for i := 0 to |messages|
        invariant sent == messages[..i]
        invariant written + Written(codec, holder, messages[i..]) == Written(codec, EMPTY, messages)
        invariant store.data == StoreAfter(codec, old(store.data), key, written)
      {
        var m := messages[i];
        ghost var before, h := written, holder;
        WrittenStep(codec, holder, messages, i, written);
        if m.Start? {
          holder := holder.(status := Some(m.status), headers := m.headers);
        } else if m.Body? {
          holder := holder.(body := holder.body + m.body);
          if !m.more {
            var record := RecordOf(codec, holder);
            store.Put(key, codec.dump(record));
            written := written + [record];
            assert written[..|before|] == before;
          }
        }
        assert holder == Held(h, m);
        sent := sent + [m];
      }
      assert messages[|messages|..] == [];
      assert written == Written(codec, EMPTY, messages);
      assert sent == messages;
      return Ran(sent);
    }
  }

  lemma WrittenStep<V>(c: Codec<V>, h: Holder, messages: seq<Message>, i: nat, written: seq<Record>)
    requires i < |messages|
    ensures var m, h' := messages[i], Held(h, messages[i]);
            written + Written(c, h, messages[i..])
            == (if m.Body? && !m.more then written + [RecordOf(c, h')] else written) + Written(c, h', messages[i + 1..])
  {
  }

  // ---------------------------------------------------------------- the records of any messages

  /** The same text with its letters A to Z made small. */
  ghost predicate IsLower(s: string, t: string) {
    && |t| == |s|
    && forall i :: 0 <= i < |s| ==> t[i] as int == s[i] as int + if 'A' <= s[i] <= 'Z' then 32 else 0
  }

  lemma {:induction false} LowerIsLower(s: string, t: string)
    ensures Lower(s) == t <==> IsLower(s, t)
  {
    if s == "" {
      assert t == "" <==> |t| == 0;
    } else {
      LowerIsLower(s[1..], Lower(s[1..]));
      assert IsLower(s, Lower(s));
      if IsLower(s, t) {
        assert forall i :: 0 <= i < |s| ==> t[i] as int == Lower(s)[i] as int;
        assert Lower(s) == t;
      }
    }
  }

  /** The value of the first header named "content-type" in whatever letter case, and
      "application/json" if there is none. */
  ghost predicate IsContentType(headers: seq<(string, string)>, t: string) {
    || (exists k :: 0 <= k < |headers| && TypeAt(headers, k) && t == headers[k].1)
    || ((forall k :: 0 <= k < |headers| ==> !IsLower(headers[k].0, "content-type")) && t == "application/json")
  }

  ghost predicate TypeAt(headers: seq<(string, string)>, k: nat)
    requires k < |headers|
  {
    IsLower(headers[k].0, "content-type") && forall j :: 0 <= j < k ==> !IsLower(headers[j].0, "content-type")
  }

  lemma {:induction false} ContentTypeIsFirst(headers: seq<(string, string)>)
    ensures IsContentType(headers, ContentType(headers))
  {
    if headers != [] {
      LowerIsLower(headers[0].0, "content-type");
      if IsLower(headers[0].0, "content-type") {
        assert TypeAt(headers, 0);
      } else {
        var rest := headers[1..];
        ContentTypeIsFirst(rest);
        if k :| 0 <= k < |rest| && TypeAt(rest, k) && ContentType(rest) == rest[k].1 {
          assert forall j :: 1 <= j < k + 1 ==> headers[j] == rest[j - 1];
          assert TypeAt(headers, k + 1);
        } else {
          assert forall j :: 1 <= j < |headers| ==> headers[j] == rest[j - 1];
        }
      }
    }
  }

  /** Message `k` is body and says that nothing follows. */
  predicate FinalAt(messages: seq<Message>, k: nat) {
    k < |messages| && messages[k].Body? && !messages[k].more
  }

  /** The last start message in front of `k`. */
  ghost predicate StartOf(messages: seq<Message>, k: nat, s: nat) {
    s < k <= |messages| && messages[s].Start? && forall j :: s < j < k ==> !messages[j].Start?
  }

  function BodyBytes(messages: seq<Message>): seq<byte> {
    if messages == [] then []
    else
      var last := messages[|messages| - 1];
      BodyBytes(messages[..|messages| - 1]) + if last.Body? then last.body else []
  }

  /** What is recorded at message `k`: the body so far, with the status and content type of the
      last start message, or 200 and "application/json" if there was none. */
  ghost predicate RecordedAt<V>(c: Codec<V>, messages: seq<Message>, k: nat, r: Record) {
    && FinalAt(messages, k)
    && r.body == c.utf8(BodyBytes(messages[..k + 1]))
    && (|| (exists s: nat :: StartOf(messages, k, s) && r.status == messages[s].status && IsContentType(messages[s].headers, r.contentType))
        || ((forall j :: 0 <= j < k ==> !messages[j].Start?) && r.status == 200 && r.contentType == "application/json"))
  }

  /** The holder after `k` messages. */
  ghost predicate HolderAt(messages: seq<Message>, k: nat, h: Holder)
    requires k <= |messages|
  {
    && h.body == BodyBytes(messages[..k])
    && (|| (exists s: nat :: StartOf(messages, k, s) && h.status == Some(messages[s].status) && h.headers == messages[s].headers)
        || ((forall j :: 0 <= j < k ==> !messages[j].Start?) && h.status == None && h.headers == []))
  }

  lemma HolderStep(messages: seq<Message>, k: nat, h: Holder)
    requires k < |messages| && HolderAt(messages, k, h)
    ensures HolderAt(messages, k + 1, Held(h, messages[k]))
  {
    assert messages[..k + 1][..k] == messages[..k];
    assert messages[k].Start? ==> StartOf(messages, k + 1, k);
    if s: nat :| StartOf(messages, k, s) && h.status == Some(messages[s].status) && h.headers == messages[s].headers {
      assert !messages[k].Start? ==> StartOf(messages, k + 1, s);
    }
  }

  lemma HolderRecords<V>(c: Codec<V>, messages: seq<Message>, k: nat, h: Holder)
    requires FinalAt(messages, k) && HolderAt(messages, k + 1, h)
    ensures RecordedAt(c, messages, k, RecordOf(c, h))
  {
    ContentTypeIsFirst(h.headers);
    if s: nat :| StartOf(messages, k + 1, s) && h.status == Some(messages[s].status) && h.headers == messages[s].headers {
      assert StartOf(messages, k, s);
    } else {
      assert h.headers == [];
    }
  }

  /** The places of the final messages from `k` on, in order. */
  function Finals(messages: seq<Message>, k: nat): seq<nat>
    decreases |messages| - k
  {
    if k >= |messages| then []
    else (if FinalAt(messages, k) then [k] else []) + Finals(messages, k + 1)
  }

  ghost predicate RecordsAt<V>(c: Codec<V>, messages: seq<Message>, places: seq<nat>, records: seq<Record>) {
    |records| == |places| && forall n :: 0 <= n < |records| ==> RecordedAt(c, messages, places[n], records[n])
  }

  lemma FirstWritten<V>(c: Codec<V>, messages: seq<Message>, k: nat, h: Holder, later: seq<Record>)
    requires k < |messages| && later == Written(c, Held(h, messages[k]), messages[k + 1..])
    ensures Written(c, h, messages[k..]) == if FinalAt(messages, k) then [RecordOf(c, Held(h, messages[k]))] + later else later
  {
    assert messages[k..][0] == messages[k] && messages[k..][1..] == messages[k + 1..];
  }

  lemma RecordsStep<V>(c: Codec<V>, messages: seq<Message>, k: nat, r: Record, places: seq<nat>, later: seq<Record>)
    requires RecordsAt(c, messages, places, later) && RecordedAt(c, messages, k, r)
    ensures RecordsAt(c, messages, [k] + places, [r] + later)
  {
  }

  lemma {:induction false} WrittenFrom<V>(c: Codec<V>, messages: seq<Message>, k: nat, h: Holder)
    requires k <= |messages| && HolderAt(messages, k, h)
    ensures RecordsAt(c, messages, Finals(messages, k), Written(c, h, messages[k..]))
    decreases |messages| - k
  {
    if k < |messages| {
      var h' := Held(h, messages[k]);
      var places, later := Finals(messages, k + 1), Written(c, h', messages[k + 1..]);
      HolderStep(messages, k, h);
      WrittenFrom(c, messages, k + 1, h');
      FirstWritten(c, messages, k, h, later);
      if FinalAt(messages, k) {
        HolderRecords(c, messages, k, h');
        RecordsStep(c, messages, k, RecordOf(c, h'), places, later);
      } else {
        assert Finals(messages, k) == [] + places == places;
      }
    }
  }

  /** Whatever the application sends, one record is written at each final body message and
      nowhere else. */
  lemma RecordsOfMessages<V>(c: Codec<V>, messages: seq<Message>)
    ensures RecordsAt(c, messages, Finals(messages, 0), Written(c, EMPTY, messages))
  {
    assert messages[0..] == messages;
    WrittenFrom(c, messages, 0, EMPTY);
  }

  lemma {:induction false} FinalsAreFinal(messages: seq<Message>, k: nat)
    ensures forall j :: j in Finals(messages, k) <==> k <= j && FinalAt(messages, j)
    decreases |messages| - k
  {
    if k < |messages| {
      FinalsAreFinal(messages, k + 1);
    }
  }

  ghost predicate Ascending(f: seq<nat>) {
    forall m, n :: 0 <= m < n < |f| ==> f[m] < f[n]
  }

  lemma AscendingStep(k: nat, later: seq<nat>)
    requires Ascending(later) && forall j :: j in later ==> k < j
    ensures Ascending([k] + later) && Ascending([] + later)
  {
    assert forall n :: 0 <= n < |later| ==> later[n] in later;
    assert [] + later == later;
  }

  lemma {:induction false} FinalsAscend(messages: seq<Message>, k: nat)
    ensures Ascending(Finals(messages, k))
    decreases |messages| - k
  {
    if k < |messages| {
      FinalsAscend(messages, k + 1);
      FinalsAreFinal(messages, k + 1);
      AscendingStep(k, Finals(messages, k + 1));
    }
  }

  /** A replayed record: its status, content type and JSON value, raising exactly when the
      recorded body is not JSON. */
  ghost predicate Replays<V>(c: Codec<V>, r: Record) {
    && (ReplayOf(c, r).Raised? <==> c.json(r.body).None?)
    && (c.json(r.body).Some? ==> ReplayOf(c, r) == Response(r.status, c.json(r.body).value, r.contentType))
  }

  // ---------------------------------------------------------------- one response

  function Joined(chunks: seq<seq<byte>>): seq<byte> {
    if chunks == [] then [] else chunks[0] + Joined(chunks[1..])
  }

  /** Body messages for the chunks; only the last one says that nothing follows. */
  function Chunked(chunks: seq<seq<byte>>): seq<Message> {
    if chunks == [] then [] else [Body(chunks[0], |chunks| > 1)] + Chunked(chunks[1..])
  }

  lemma OneChunk<V>(c: Codec<V>, h: Holder, chunk: seq<byte>, more: bool, rest: seq<Message>)
    ensures Written(c, h, [Body(chunk, more)] + rest)
            == var h' := h.(body := h.body + chunk); (if more then [] else [RecordOf(c, h')]) + Written(c, h', rest)
  {
    assert ([Body(chunk, more)] + rest)[1..] == rest;
  }

  lemma {:induction false} ChunksAreJoined<V>(c: Codec<V>, h: Holder, chunks: seq<seq<byte>>)
    requires chunks != []
    ensures Written(c, h, Chunked(chunks)) == [RecordOf(c, h.(body := h.body + Joined(chunks)))]
    decreases |chunks|
  {
    var rest := chunks[1..];
    var h' := h.(body := h.body + chunks[0]);
    OneChunk(c, h, chunks[0], |chunks| > 1, Chunked(rest));
    assert h'.body + Joined(rest) == h.body + Joined(chunks);
    if |chunks| > 1 {
      ChunksAreJoined(c, h', rest);
    } else {
      assert Joined(rest) == [] && Chunked(rest) == [];
      assert Written(c, h', Chunked(rest)) == [];
      assert h' == h.(body := h.body + Joined(chunks));
      assert [RecordOf(c, h')] + [] == [RecordOf(c, h')];
    }
  }

  /** For any chunking of a response, one record is written and holds the whole body. */
  lemma ResponseIsRecordedOnce<V>(c: Codec<V>, status: int, headers: seq<(string, string)>, chunks: seq<seq<byte>>)
    returns (contentType: string)
    requires chunks != []
    ensures IsContentType(headers, contentType)
    ensures Written(c, EMPTY, [Start(status, headers)] + Chunked(chunks)) == [Record(status, c.utf8(Joined(chunks)), contentType)]
  {
    contentType := ContentType(headers);
    ContentTypeIsFirst(headers);
    var h := Holder(Some(status), headers, []);
    assert ([Start(status, headers)] + Chunked(chunks))[1..] == Chunked(chunks);
    ChunksAreJoined(c, h, chunks);
    assert [] + Joined(chunks) == Joined(chunks);
  }

  lemma OneRecordStored<V>(c: Codec<V>, data: map<string, string>, key: string, r: Record)
    requires Sound(c)
    ensures var data' := StoreAfter(c, data, key, [r]);
            data' == data[key := c.dump(r)] && data' - {key} == data - {key} && c.load(data'[key]) == Some(r) && data'[key] != ""
  {
    assert [r][..0] == [];
  }

  /** After a response was sent in full under a key that had none, the next request with
      that key replays its status, content type and JSON value; it raises exactly when the
      body was not JSON. */
  lemma ReplayGivesTheFirstResponse<V>(c: Codec<V>, data: map<string, string>, key: string,
                                       status: int, headers: seq<(string, string)>, chunks: seq<seq<byte>>)
    returns (contentType: string)
    requires Sound(c) && chunks != []
    ensures IsContentType(headers, contentType)
    ensures var data' := StoreAfter(c, data, key, Written(c, EMPTY, [Start(status, headers)] + Chunked(chunks)));
            var text := c.utf8(Joined(chunks));
            && key in data' && data'[key] != "" && data' - {key} == data - {key}
            && c.load(data'[key]).Some?
            && ReplayOf(c, c.load(data'[key]).value)
               == (if c.json(text).Some? then Response(status, c.json(text).value, contentType) else Raised)
  {
    contentType := ResponseIsRecordedOnce(c, status, headers, chunks);
    OneRecordStored(c, data, key, Record(status, c.utf8(Joined(chunks)), contentType));
  }

  // ---------------------------------------------------------------- interleaved requests

  /** Requests for any keys, each looking its key up once; a request that finds nothing runs
      the application, which may store responses for it later. */
  datatype Step = Lookup(request: nat, key: string) | Store(request: nat, key: string, record: Record)

  function DataAfter<V>(c: Codec<V>, log: seq<Step>): map<string, string> {
    if log == [] then map[]
    else
      var data := DataAfter(c, log[..|log| - 1]);
      var last := log[|log| - 1];
      if last.Store? then data[last.key := c.dump(last.record)] else data
  }

  predicate Misses(data: map<string, string>, key: string) {
    key !in data || data[key] == ""
  }

  /** Only a request whose own lookup missed runs the application, and so can store. */
  ghost predicate IsLog<V>(c: Codec<V>, log: seq<Step>) {
    forall k :: 0 <= k < |log| && log[k].Store? ==>
      exists l :: 0 <= l < k && log[l] == Lookup(log[k].request, log[k].key) && Misses(DataAfter(c, log[..l]), log[k].key)
  }

  function LastStored(log: seq<Step>, key: string): Option<Record> {
    if log == [] then None
    else if log[|log| - 1].Store? && log[|log| - 1].key == key then Some(log[|log| - 1].record)
    else LastStored(log[..|log| - 1], key)
  }

  lemma {:induction false} StoreIsLastStored<V>(c: Codec<V>, log: seq<Step>, key: string)
    requires Sound(c)
    ensures Misses(DataAfter(c, log), key) <==> LastStored(log, key).None?
    ensures LastStored(log, key).Some? ==> c.load(DataAfter(c, log)[key]) == LastStored(log, key)
    ensures LastStored(log, key).None? <==> forall k :: 0 <= k < |log| && log[k].Store? ==> log[k].key != key
  {
    if log != [] {
      StoreIsLastStored(c, log[..|log| - 1], key);
    }
  }

  /** A lookup runs the application exactly when nothing was stored for its key before it;
      otherwise it replays the latest record: status, content type and JSON value, raising
      exactly when the recorded body is not JSON.  So only requests whose lookup preceded
      the first store can run the application. */
  lemma LookupsReplay<V>(c: Codec<V>, log: seq<Step>, l: nat)
    requires Sound(c) && l < |log| && log[l].Lookup?
    ensures var data, key, r := DataAfter(c, log[..l]), log[l].key, LastStored(log[..l], log[l].key);
            && (Misses(data, key) <==> forall k :: 0 <= k < l && log[k].Store? ==> log[k].key != key)
            && (!Misses(data, key) ==> r.Some? && c.load(data[key]) == r && Replays(c, r.value))
  {
    StoreIsLastStored(c, log[..l], log[l].key);
  }

  /** No other request looks the key up between a request's own lookup and its stores. */
  ghost predicate Sequential(log: seq<Step>, key: string) {
    forall a, b, k :: 0 <= a < b < k < |log| && log[k].Store? && log[k].key == key && log[a] == Lookup(log[k].request, key)
                      && log[b].Lookup? && log[b].key == key ==>
      log[b].request == log[k].request
  }

  lemma LookupOf<V>(c: Codec<V>, log: seq<Step>, k: nat) returns (l: nat)
    requires Sound(c) && IsLog(c, log) && k < |log| && log[k].Store?
    ensures l < k && log[l] == Lookup(log[k].request, log[k].key)
    ensures forall j :: 0 <= j < l && log[j].Store? ==> log[j].key != log[k].key
  {
    l :| 0 <= l < k && log[l] == Lookup(log[k].request, log[k].key) && Misses(DataAfter(c, log[..l]), log[k].key);
    StoreIsLastStored(c, log[..l], log[k].key);
    forall j | 0 <= j < l && log[j].Store? ensures log[j].key != log[k].key {
      assert log[..l][j] == log[j];
    }
  }

  /** In a sequential log the stores for a key are all by one request: the application
      completes for at most one request per key. */
  lemma OneWriterPerKey<V>(c: Codec<V>, log: seq<Step>, key: string, j: nat, k: nat)
    requires Sound(c) && IsLog(c, log) && Sequential(log, key)
    requires j < k < |log| && log[j].Store? && log[k].Store? && log[j].key == log[k].key == key
    ensures log[j].request == log[k].request
  {
    var a := LookupOf(c, log, j);
    var b := LookupOf(c, log, k);
    assert b <= j;
    assert log[a].request == log[j].request && log[b].request == log[k].request;
    if a < b {
      assert b < j;
    } else if b < a {
      assert a < k;
    }
  }

  // ---------------------------------------------------------------- one request after another

  ghost predicate LookupAt(log: seq<Step>, a: nat, key: string) {
    a < |log| && log[a].Lookup? && log[a].key == key
  }

  ghost predicate StoreAt(log: seq<Step>, s: nat, key: string) {
    s < |log| && log[s].Store? && log[s].key == key
  }

  /** A lookup that runs the application. */
  ghost predicate MissAt<V>(c: Codec<V>, log: seq<Step>, a: nat, key: string) {
    LookupAt(log, a, key) && Misses(DataAfter(c, log[..a]), key)
  }

  ghost predicate StoredIn(log: seq<Step>, a: nat, b: nat, key: string) {
    exists s: nat :: a < s < b && StoreAt(log, s, key)
  }

  /** A request that ran the application has stored its response before the key is looked up
      again, and stores once. */
  ghost predicate OneByOne<V>(c: Codec<V>, log: seq<Step>, key: string) {
    && (forall a: nat, b: nat :: a < b && MissAt(c, log, a, key) && LookupAt(log, b, key) ==> StoredIn(log, a, b, key))
    && (forall j: nat, k: nat :: j < k && StoreAt(log, j, key) && StoreAt(log, k, key) ==> log[j].request != log[k].request)
  }

  lemma {:induction false} LastStoredAt(log: seq<Step>, key: string) returns (s: nat)
    requires LastStored(log, key).Some?
    ensures StoreAt(log, s, key) && LastStored(log, key) == Some(log[s].record)
  {
    var n := |log| - 1;
    if log[n].Store? && log[n].key == key {
      s := n;
    } else {
      s := LastStoredAt(log[..n], key);
    }
  }

  lemma MissMeansUnstored<V>(c: Codec<V>, log: seq<Step>, a: nat, key: string)
    requires Sound(c) && LookupAt(log, a, key)
    ensures MissAt(c, log, a, key) <==> forall s: nat :: s < a ==> !StoreAt(log, s, key)
  {
    StoreIsLastStored(c, log[..a], key);
    if MissAt(c, log, a, key) {
      forall s: nat | s < a ensures !StoreAt(log, s, key) {
        assert log[..a][s] == log[s];
      }
    } else {
      var s := LastStoredAt(log[..a], key);
      assert StoreAt(log, s, key);
    }
  }

  /** One request after another, the application runs at most once per key. */
  lemma RunsOncePerKey<V>(c: Codec<V>, log: seq<Step>, key: string, a: nat, b: nat)
    requires Sound(c) && OneByOne(c, log, key) && a < b && LookupAt(log, a, key) && LookupAt(log, b, key)
    ensures !MissAt(c, log, b, key)
  {
    MissMeansUnstored(c, log, a, key);
    MissMeansUnstored(c, log, b, key);
    if MissAt(c, log, a, key) {
      assert StoredIn(log, a, b, key);
    }
  }

  lemma StoredOnce<V>(c: Codec<V>, log: seq<Step>, key: string, j: nat, k: nat)
    requires Sound(c) && IsLog(c, log) && OneByOne(c, log, key) && StoreAt(log, j, key) && StoreAt(log, k, key)
    ensures j == k
  {
    var a := LookupOf(c, log, j);
    var b := LookupOf(c, log, k);
    MissMeansUnstored(c, log, a, key);
    MissMeansUnstored(c, log, b, key);
    if a < b {
      RunsOncePerKey(c, log, key, a, b);
    } else if b < a {
      RunsOncePerKey(c, log, key, b, a);
    }
  }

  /** One request after another, every replay for a key is that of the one recorded response:
      the same status, content type and JSON value. */
  lemma ReplaysAgree<V>(c: Codec<V>, log: seq<Step>, key: string, a: nat, b: nat)
    requires Sound(c) && IsLog(c, log) && OneByOne(c, log, key)
    requires LookupAt(log, a, key) && LookupAt(log, b, key) && !MissAt(c, log, a, key) && !MissAt(c, log, b, key)
    ensures var ra, rb := c.load(DataAfter(c, log[..a])[key]), c.load(DataAfter(c, log[..b])[key]);
            ra.Some? && ra == rb && Replays(c, ra.value)
  {
    StoreIsLastStored(c, log[..a], key);
    StoreIsLastStored(c, log[..b], key);
    var s := LastStoredAt(log[..a], key);
    var t := LastStoredAt(log[..b], key);
    assert log[..a][s] == log[s] && log[..b][t] == log[t];
    StoredOnce(c, log, key, s, t);
  }

  // ---------------------------------------------------------------- the middleware as a log

  /** One request to the middleware: its key, and what the application sends if it is run. */
  datatype Exchange = Exchange(key: string, messages: seq<Message>)

  function Stores(request: nat, key: string, records: seq<Record>): seq<Step> {
    if records == [] then [] else Stores(request, key, records[..|records| - 1]) + [Store(request, key, records[|records| - 1])]
  }

  /** The steps of a request that nothing comes between. */
  function Served<V>(c: Codec<V>, log: seq<Step>, request: nat, x: Exchange): seq<Step> {
    [Lookup(request, x.key)]
    + if Misses(DataAfter(c, log), x.key) then Stores(request, x.key, Written(c, EMPTY, x.messages)) else []
  }

  lemma DataExtends<V>(c: Codec<V>, log: seq<Step>, last: Step)
    ensures DataAfter(c, log + [last])
            == if last.Store? then DataAfter(c, log)[last.key := c.dump(last.record)] else DataAfter(c, log)
  {
    assert (log + [last])[..|log|] == log;
  }

  lemma {:induction false} StoresAreWritten<V>(c: Codec<V>, log: seq<Step>, request: nat, key: string, records: seq<Record>)
    ensures DataAfter(c, log + Stores(request, key, records)) == StoreAfter(c, DataAfter(c, log), key, records)
  {
    if records == [] {
      assert log + [] == log;
    } else {
      var init := records[..|records| - 1];
      StoresAreWritten(c, log, request, key, init);
      var last := Store(request, key, records[|records| - 1]);
      DataExtends(c, log + Stores(request, key, init), last);
      assert log + Stores(request, key, records) == log + Stores(request, key, init) + [last];
    }
  }

  lemma ServedSteps<V>(c: Codec<V>, log: seq<Step>, request: nat, x: Exchange, records: seq<Record>)
    requires records == Written(c, EMPTY, x.messages)
    ensures log + Served(c, log, request, x)
            == log + [Lookup(request, x.key)] + if Misses(DataAfter(c, log), x.key) then Stores(request, x.key, records) else []
  {
  }

  /** A request that nothing comes between changes the store as the middleware does: it is
      looked up, and if that misses its records are stored. */
  lemma HandleIsASchedule<V>(c: Codec<V>, log: seq<Step>, request: nat, x: Exchange, records: seq<Record>)
    requires records == Written(c, EMPTY, x.messages)
    ensures var data := DataAfter(c, log);
            DataAfter(c, log + Served(c, log, request, x))
            == if x.key in data && data[x.key] != "" then data else StoreAfter(c, data, x.key, records)
  {
    var looked := log + [Lookup(request, x.key)];
    DataExtends(c, log, Lookup(request, x.key));
    ServedSteps(c, log, request, x, records);
    StoresAreWritten(c, looked, request, x.key, records);
    assert looked + [] == looked;
  }

  /** Requests one after another, numbered in order. */
  function SerialLog<V>(c: Codec<V>, xs: seq<Exchange>): seq<Step> {
    if xs == [] then []
    else
      var before := SerialLog(c, xs[..|xs| - 1]);
      before + Served(c, before, |xs| - 1, xs[|xs| - 1])
  }

  /** The application's messages have one final body message. */
  ghost predicate Complete(x: Exchange) {
    exists k :: FinalAt(x.messages, k) && forall j :: FinalAt(x.messages, j) ==> j == k
  }

  lemma CompleteWritesOnce<V>(c: Codec<V>, x: Exchange) returns (k: nat)
    requires Complete(x)
    ensures |Written(c, EMPTY, x.messages)| == 1 && RecordedAt(c, x.messages, k, Written(c, EMPTY, x.messages)[0])
  {
    var places := Finals(x.messages, 0);
    k :| FinalAt(x.messages, k) && forall j :: FinalAt(x.messages, j) ==> j == k;
    FinalsAreFinal(x.messages, 0);
    FinalsAscend(x.messages, 0);
    RecordsOfMessages(c, x.messages);
    OnlyOne(places, k);
  }

  lemma OnlyOne(places: seq<nat>, k: nat)
    requires k in places && (forall j :: j in places ==> j == k) && Ascending(places)
    ensures places == [k]
  {
    assert places[0] in places;
    if |places| >= 2 {
      TwoDiffer(places);
    }
  }

  lemma TwoDiffer(places: seq<nat>)
    requires |places| >= 2 && Ascending(places)
    ensures exists i, j :: i in places && j in places && i != j
  {
    assert places[0] in places && places[1] in places && places[0] < places[1];
  }

  /** The record is that of the response in this exchange. */
  ghost predicate RecordedFrom<V>(c: Codec<V>, x: Exchange, r: Record) {
    exists k :: RecordedAt(c, x.messages, k, r)
  }

  /** Every request that ran the application has stored its response. */
  ghost predicate Closed<V>(c: Codec<V>, log: seq<Step>, key: string, n: nat) {
    && (forall a: nat :: MissAt(c, log, a, key) ==> StoredIn(log, a, |log|, key))
    && forall k: nat :: k < |log| ==> log[k].request < n
  }

  lemma LogExtends<V>(c: Codec<V>, log: seq<Step>, tail: seq<Step>, a: nat, key: string)
    requires a < |log|
    ensures (log + tail)[a] == log[a] && (log + tail)[..a] == log[..a]
    ensures MissAt(c, log + tail, a, key) <==> MissAt(c, log, a, key)
    ensures LookupAt(log + tail, a, key) <==> LookupAt(log, a, key)
    ensures StoreAt(log + tail, a, key) <==> StoreAt(log, a, key)
  {
  }

  /** What a serial log keeps, for every key. */
  ghost predicate SerialInv<V>(c: Codec<V>, log: seq<Step>, key: string, n: nat) {
    IsLog(c, log) && OneByOne(c, log, key) && Closed(c, log, key, n)
  }

  lemma HitExtends<V>(c: Codec<V>, log: seq<Step>, key: string, n: nat, looked: string)
    requires Sound(c) && SerialInv(c, log, key, n) && !Misses(DataAfter(c, log), looked)
    ensures SerialInv(c, log + [Lookup(n, looked)], key, n + 1)
  {
    LookupExtends(c, log, key, n, looked);
    var log' := log + [Lookup(n, looked)];
    assert log'[..|log|] == log;
    forall a: nat | MissAt(c, log', a, key) ensures StoredIn(log', a, |log'|, key) {
      if a < |log| {
        LogExtends(c, log, [Lookup(n, looked)], a, key);
        var s: nat :| a < s < |log| && StoreAt(log, s, key);
        assert StoreAt(log', s, key);
      }
    }
  }

  /** One more lookup keeps the log one by one. */
  lemma LookupExtends<V>(c: Codec<V>, log: seq<Step>, key: string, n: nat, looked: string)
    requires SerialInv(c, log, key, n)
    ensures IsLog(c, log + [Lookup(n, looked)]) && OneByOne(c, log + [Lookup(n, looked)], key)
  {
    var log', m := log + [Lookup(n, looked)], |log|;
    forall k | 0 <= k < |log'| && log'[k].Store?
      ensures exists l :: 0 <= l < k && log'[l] == Lookup(log'[k].request, log'[k].key) && Misses(DataAfter(c, log'[..l]), log'[k].key)
    {
      var l :| 0 <= l < k && log[l] == Lookup(log[k].request, log[k].key) && Misses(DataAfter(c, log[..l]), log[k].key);
      assert log'[..l] == log[..l];
    }
    forall a: nat, b: nat | a < b && MissAt(c, log', a, key) && LookupAt(log', b, key) ensures StoredIn(log', a, b, key) {
      LogExtends(c, log, [Lookup(n, looked)], a, key);
      if b < m {
        LogExtends(c, log, [Lookup(n, looked)], b, key);
        assert StoredIn(log, a, b, key);
      } else {
        assert StoredIn(log, a, m, key);
      }
      var s: nat :| a < s < b && StoreAt(log, s, key);
      assert StoreAt(log', s, key);
    }
    forall j: nat, k: nat | j < k && StoreAt(log', j, key) && StoreAt(log', k, key) ensures log'[j].request != log'[k].request {
      assert StoreAt(log, j, key) && StoreAt(log, k, key);
    }
  }

  lemma StoreExtends<V>(c: Codec<V>, log: seq<Step>, key: string, n: nat, stored: string, record: Record)
    requires Sound(c) && IsLog(c, log) && OneByOne(c, log, key) && log != []
    requires forall k: nat :: StoreAt(log, k, key) ==> log[k].request < n
    requires log[|log| - 1] == Lookup(n, stored) && Misses(DataAfter(c, log[..|log| - 1]), stored)
    ensures IsLog(c, log + [Store(n, stored, record)]) && OneByOne(c, log + [Store(n, stored, record)], key)
  {
    var last, m := Store(n, stored, record), |log|;
    var log' := log + [last];
    forall k | 0 <= k < |log'| && log'[k].Store?
      ensures exists l :: 0 <= l < k && log'[l] == Lookup(log'[k].request, log'[k].key) && Misses(DataAfter(c, log'[..l]), log'[k].key)
    {
      if k < m {
        var l :| 0 <= l < k && log[l] == Lookup(log[k].request, log[k].key) && Misses(DataAfter(c, log[..l]), log[k].key);
        assert log'[..l] == log[..l];
      } else {
        assert log'[..m - 1] == log[..m - 1] && log'[m - 1] == Lookup(n, stored);
      }
    }
    forall a: nat, b: nat | a < b && MissAt(c, log', a, key) && LookupAt(log', b, key) ensures StoredIn(log', a, b, key) {
      LogExtends(c, log, [last], a, key);
      LogExtends(c, log, [last], b, key);
      assert StoredIn(log, a, b, key);
      var s: nat :| a < s < b && StoreAt(log, s, key);
      assert StoreAt(log', s, key);
    }
    forall j: nat, k: nat | j < k && StoreAt(log', j, key) && StoreAt(log', k, key) ensures log'[j].request != log'[k].request {
      assert StoreAt(log, j, key);
      assert k < m ==> StoreAt(log, k, key);
    }
  }

  lemma StoreCloses<V>(c: Codec<V>, log: seq<Step>, key: string, n: nat, looked: string, record: Record, log': seq<Step>)
    requires Closed(c, log, key, n) && log' == log + [Lookup(n, looked), Store(n, looked, record)]
    ensures Closed(c, log', key, n + 1)
  {
    var m := |log|;
    forall a: nat | MissAt(c, log', a, key) ensures StoredIn(log', a, |log'|, key) {
      if a < m {
        LogExtends(c, log, [Lookup(n, looked), Store(n, looked, record)], a, key);
        var s: nat :| a < s < m && StoreAt(log, s, key);
        assert StoreAt(log', s, key);
      } else {
        assert StoreAt(log', m + 1, key);
      }
    }
  }

  lemma LookupIsNoStore(log: seq<Step>, n: nat, looked: string, key: string)
    requires forall k: nat :: k < |log| ==> log[k].request < n
    ensures forall k: nat :: StoreAt(log + [Lookup(n, looked)], k, key) ==> (log + [Lookup(n, looked)])[k].request < n
  {
  }

  lemma MissStores<V>(c: Codec<V>, log: seq<Step>, key: string, n: nat, looked: string, record: Record, looking: seq<Step>)
    requires Sound(c) && looking == log + [Lookup(n, looked)] && IsLog(c, looking) && OneByOne(c, looking, key)
    requires Misses(DataAfter(c, log), looked) && forall k: nat :: k < |log| ==> log[k].request < n
    ensures IsLog(c, looking + [Store(n, looked, record)]) && OneByOne(c, looking + [Store(n, looked, record)], key)
  {
    assert looking[..|looking| - 1] == log;
    LookupIsNoStore(log, n, looked, key);
    StoreExtends(c, looking, key, n, looked, record);
  }

  lemma MissExtends<V>(c: Codec<V>, log: seq<Step>, key: string, n: nat, looked: string, record: Record, log': seq<Step>)
    requires Sound(c) && SerialInv(c, log, key, n) && Misses(DataAfter(c, log), looked)
    requires log' == log + [Lookup(n, looked), Store(n, looked, record)]
    ensures SerialInv(c, log', key, n + 1)
  {
    var looking := log + [Lookup(n, looked)];
    LookupExtends(c, log, key, n, looked);
    MissStores(c, log, key, n, looked, record, looking);
    assert log' == looking + [Store(n, looked, record)];
    StoreCloses(c, log, key, n, looked, record, log');
  }

  lemma ServedOnce<V>(c: Codec<V>, log: seq<Step>, n: nat, x: Exchange, records: seq<Record>)
    requires records == Written(c, EMPTY, x.messages) && |records| == 1
    ensures Served(c, log, n, x)
            == if Misses(DataAfter(c, log), x.key) then [Lookup(n, x.key), Store(n, x.key, records[0])] else [Lookup(n, x.key)]
  {
    assert records[..0] == [];
    assert Stores(n, x.key, records) == [] + [Store(n, x.key, records[0])];
  }

  lemma ServedExtends<V>(c: Codec<V>, log: seq<Step>, key: string, n: nat, x: Exchange, record: Record, log': seq<Step>)
    requires Sound(c) && SerialInv(c, log, key, n)
    requires log' == log + if Misses(DataAfter(c, log), x.key) then [Lookup(n, x.key), Store(n, x.key, record)] else [Lookup(n, x.key)]
    ensures SerialInv(c, log', key, n + 1)
  {
    if Misses(DataAfter(c, log), x.key) {
      MissExtends(c, log, key, n, x.key, record, log');
    } else {
      HitExtends(c, log, key, n, x.key);
    }
  }

  /** Complete responses, one request after another, make a log as described above. */
  lemma {:induction false} SerialIsOneByOne<V>(c: Codec<V>, xs: seq<Exchange>, key: string)
    requires Sound(c) && forall x :: x in xs ==> Complete(x)
    ensures SerialInv(c, SerialLog(c, xs), key, |xs|)
  {
    if xs != [] {
      var before, x := xs[..|xs| - 1], xs[|xs| - 1];
      SerialIsOneByOne(c, before, key);
      assert x in xs && Complete(x);
      var log, records := SerialLog(c, before), Written(c, EMPTY, x.messages);
      CompleteOnce(c, x);
      ServedOnce(c, log, |before|, x, records);
      ServedExtends(c, log, key, |before|, x, records[0], SerialLog(c, xs));
    }
  }

  /** The step belongs to the exchange with its number: a lookup of its key, or the store of
      its one response. */
  ghost predicate Belongs<V>(c: Codec<V>, xs: seq<Exchange>, step: Step) {
    && step.request < |xs| && step.key == xs[step.request].key
    && (step.Store? ==> Written(c, EMPTY, xs[step.request].messages) == [step.record])
  }

  lemma BelongsStill<V>(c: Codec<V>, xs: seq<Exchange>, step: Step)
    requires xs != [] && Belongs(c, xs[..|xs| - 1], step)
    ensures Belongs(c, xs, step)
  {
  }

  lemma CompleteOnce<V>(c: Codec<V>, x: Exchange)
    requires Complete(x)
    ensures |Written(c, EMPTY, x.messages)| == 1
  {
    var _ := CompleteWritesOnce(c, x);
  }

  /** The steps of the last exchange. */
  lemma LastStepsBelong<V>(c: Codec<V>, xs: seq<Exchange>, log: seq<Step>, n: nat, x: Exchange, step: Step)
    requires |xs| == n + 1 && x == xs[n] && Complete(x) && step in Served(c, log, n, x)
    ensures Belongs(c, xs, step)
  {
    CompleteOnce(c, x);
    var records := Written(c, EMPTY, x.messages);
    ServedOnce(c, log, n, x, records);
    assert records == [records[0]];
  }

  lemma {:induction false} StepsBelong<V>(c: Codec<V>, xs: seq<Exchange>, step: Step)
    requires (forall x :: x in xs ==> Complete(x)) && step in SerialLog(c, xs)
    ensures Belongs(c, xs, step)
  {
    var n := |xs| - 1;
    var before, x := xs[..n], xs[n];
    var log := SerialLog(c, before);
    assert x in xs;
    assert SerialLog(c, xs) == log + Served(c, log, n, x);
    if step in log {
      StepsBelong(c, before, step);
      BelongsStill(c, xs, step);
    } else {
      LastStepsBelong(c, xs, log, n, x, step);
    }
  }

  /** A store between a missing lookup and a later one is by the request that missed. */
  lemma StoredByTheMiss<V>(c: Codec<V>, log: seq<Step>, key: string, a: nat, s: nat)
    requires Sound(c) && IsLog(c, log) && OneByOne(c, log, key) && MissAt(c, log, a, key) && StoreAt(log, s, key)
    ensures log[s].request == log[a].request
  {
    var x := LookupOf(c, log, s);
    MissMeansUnstored(c, log, x, key);
    if x < a {
      RunsOncePerKey(c, log, key, x, a);
    } else if a < x {
      RunsOncePerKey(c, log, key, a, x);
    }
  }

  /** What a later lookup loads is the response of the request that missed. */
  lemma LoadsTheFirst<V>(c: Codec<V>, xs: seq<Exchange>, key: string, a: nat, b: nat, log: seq<Step>)
    requires Sound(c) && (forall x :: x in xs ==> Complete(x)) && log == SerialLog(c, xs)
    requires IsLog(c, log) && OneByOne(c, log, key) && a < b && MissAt(c, log, a, key) && LookupAt(log, b, key)
    ensures var n, data := log[a].request, DataAfter(c, log[..b]);
            && n < |xs| && key in data && c.load(data[key]).Some?
            && Written(c, EMPTY, xs[n].messages) == [c.load(data[key]).value]
            && RecordedFrom(c, xs[n], c.load(data[key]).value)
  {
    StoreIsLastStored(c, log[..b], key);
    RunsOncePerKey(c, log, key, a, b);
    var s := LastStoredAt(log[..b], key);
    assert log[..b][s] == log[s];
    StoredByTheMiss(c, log, key, a, s);
    StepsBelong(c, xs, log[s]);
    var x := xs[log[a].request];
    assert x in xs;
    var k := CompleteWritesOnce(c, x);
  }

  /** So sequentially the application runs once per key, and all later requests with that key
      get the same status, content type and JSON value: those of the one recorded response. */
  lemma SequentialReplay<V>(c: Codec<V>, xs: seq<Exchange>, key: string, a: nat, b: nat)
    requires Sound(c) && forall x :: x in xs ==> Complete(x)
    requires a < b && LookupAt(SerialLog(c, xs), a, key) && LookupAt(SerialLog(c, xs), b, key)
    ensures var log := SerialLog(c, xs);
            var data := DataAfter(c, log[..b]);
            && !MissAt(c, log, b, key) && key in data && c.load(data[key]).Some?
            && (MissAt(c, log, a, key) ==>
                  && log[a].request < |xs| && Written(c, EMPTY, xs[log[a].request].messages) == [c.load(data[key]).value]
                  && RecordedFrom(c, xs[log[a].request], c.load(data[key]).value))
            && (!MissAt(c, log, a, key) ==>
                  var ra, rb := c.load(DataAfter(c, log[..a])[key]), c.load(data[key]);
                  ra.Some? && ra == rb)
            && Replays(c, c.load(data[key]).value)
  {
    var log := SerialLog(c, xs);
    SerialIsOneByOne(c, xs, key);
    RunsOncePerKey(c, log, key, a, b);
    if MissAt(c, log, a, key) {
      LoadsTheFirst(c, xs, key, a, b, log);
    } else {
      ReplaysAgree(c, log, key, a, b);
    }
  }
}
