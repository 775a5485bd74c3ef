/** The in-process service registry: entries with a time to live, purged when listed. */
module Registry {
  import opened Options

  /** A bucket lists the entries of one service in insertion order, one per instance. */
  datatype Entry = Entry(iid: string, url: Url, until: int)

  function Index(b: seq<Entry>, iid: string): (k: nat)
    ensures k <= |b| && (k < |b| ==> b[k].iid == iid)
    ensures forall j :: 0 <= j < k ==> b[j].iid != iid
  {
    if b == [] || b[0].iid == iid then 0 else 1 + Index(b[1..], iid)
  }

  /** Setting a key keeps its place; a new key goes last. */
  function Put(b: seq<Entry>, e: Entry): seq<Entry> {
    var k := Index(b, e.iid);
    if k < |b| then b[k := e] else b + [e]
  }

  function Drop(b: seq<Entry>, iid: string): seq<Entry> {
    var k := Index(b, iid);
    if k < |b| then b[..k] + b[k + 1..] else b
  }

  function Unexpired(b: seq<Entry>, now: int): seq<Entry> {
    if b == [] then []
    else (if b[0].until < now then [] else [b[0]]) + Unexpired(b[1..], now)
  }

  function Urls(b: seq<Entry>): (r: seq<Url>)
    ensures |r| == |b| && forall k :: 0 <= k < |b| ==> r[k] == b[k].url
  {
    if b == [] then [] else [b[0].url] + Urls(b[1..])
  }

  datatype Event =
    | Registered(service: string, iid: string, url: Url, ttl: int, at: int)
    | Deregistered(service: string, iid: string, at: int)
    | Listed(service: string, at: int)

  function Bucket(data: map<string, seq<Entry>>, service: string): seq<Entry> {
    if service in data then data[service] else []
  }

  function Apply(data: map<string, seq<Entry>>, e: Event): map<string, seq<Entry>> {
    match e
    case Registered(s, iid, url, ttl, at) => data[s := Put(Bucket(data, s), Entry(iid, url, at + ttl))]
    case Deregistered(s, iid, at) => if s in data then data[s := Drop(data[s], iid)] else data
    case Listed(s, at) => if s in data then data[s := Unexpired(data[s], at)] else data
  }

  function Listing(data: map<string, seq<Entry>>, service: string, now: int): seq<Url> {
    Urls(Unexpired(Bucket(data, service), now))
  }

  class LocalServiceRegistry {
    var data: map<string, seq<Entry>>

    constructor ()
      ensures data == map[]
    {
      data := map[];
    }

    method Register(service: string, iid: string, url: Url, ttl: int, now: int)
      modifies this
      ensures data == Apply(old(data), Registered(service, iid, url, ttl, now))
    {
      if service !in data {
        data := data[service := []];
      }
      data := data[service := Put(data[service], Entry(iid, url, now + ttl))];
    }

    method Deregister(service: string, iid: string, now: int)
      modifies this
      ensures data == Apply(old(data), Deregistered(service, iid, now))
    {
      if service in data {
        data := data[service := Drop(data[service], iid)];
      }
    }

    /** Drops the expired entries of the service and returns the urls of the others. */
    method List(service: string, now: int) returns (urls: seq<Url>)
      modifies this
      ensures data == Apply(old(data), Listed(service, now))
      ensures urls == Listing(old(data), service, now)
    {
      if service !in data {
        return [];
      }
      var kept := Kept(data[service], now);
      data := data[service := kept];
      urls := [];
      for k := 0 to |kept|
        invariant |urls| == k && forall j :: 0 <= j < k ==> urls[j] == kept[j].url
      {
        urls := urls + [kept[k].url];
      }
      assert urls == Urls(kept);
    }

    static method Kept(bucket: seq<Entry>, now: int) returns (kept: seq<Entry>)
      ensures kept == Unexpired(bucket, now)
    {
      kept := [];
      for k := 0 to |bucket|
        invariant kept + Unexpired(bucket[k..], now) == Unexpired(bucket, now)
      {
        assert bucket[k..][1..] == bucket[k + 1..];
        if !(bucket[k].until < now) {
          kept := kept + [bucket[k]];
        }
      }
    }
  }

  // ---------------------------------------------------------------- the plain history

  function After(h: seq<Event>): map<string, seq<Entry>> {
    if h == [] then map[] else Apply(After(h[..|h| - 1]), h[|h| - 1])
  }

  /** Does the event change what the instance is registered as? */
  predicate About(e: Event, service: string, iid: string) {
    !e.Listed? && e.service == service && e.iid == iid
  }

  /** The url and expiry of an instance whose last event is a register. */
  function LastWord(h: seq<Event>, service: string, iid: string): Option<(Url, int)> {
    if h == [] then None
    else
      var e := h[|h| - 1];
      if !About(e, service, iid) then LastWord(h[..|h| - 1], service, iid)
      else if e.Registered? then Some((e.url, e.at + e.ttl)) else None
  }

  ghost predicate Clocked(h: seq<Event>, now: int) {
    (forall i, j :: 0 <= i <= j < |h| ==> h[i].at <= h[j].at) && forall i :: 0 <= i < |h| ==> h[i].at <= now
  }

  ghost predicate DistinctIids(b: seq<Entry>) {
    forall i, j :: 0 <= i < j < |b| ==> b[i].iid != b[j].iid
  }

  lemma PutHas(b: seq<Entry>, e: Entry)
    requires DistinctIids(b)
    ensures DistinctIids(Put(b, e))
    ensures forall f :: f in Put(b, e) <==> f == e || (f in b && f.iid != e.iid)
  {
    var k, b' := Index(b, e.iid), Put(b, e);
    if k < |b| {
      forall f | f in b && f.iid != e.iid ensures f in b' {
        var j :| 0 <= j < |b| && b[j] == f;
        assert b'[j] == f;
      }
      assert b'[k] == e;
    }
  }

  lemma DropHas(b: seq<Entry>, iid: string)
    requires DistinctIids(b)
    ensures DistinctIids(Drop(b, iid))
    ensures forall f :: f in Drop(b, iid) <==> f in b && f.iid != iid
  {
  }

  lemma {:induction false} UnexpiredHas(b: seq<Entry>, now: int)
    requires DistinctIids(b)
    ensures DistinctIids(Unexpired(b, now))
    ensures forall f :: f in Unexpired(b, now) <==> f in b && f.until >= now
  {
    if b != [] {
      var rest := b[1..];
      UnexpiredHas(rest, now);
      assert b == [b[0]] + rest;
      assert b[0] !in rest && forall f :: f in rest ==> f.iid != b[0].iid;
      assert forall f :: f in b <==> f == b[0] || f in rest;
    }
  }

  /** What lazy purging leaves behind: entries agree with the history, and only entries
      that had expired are missing. */
  ghost predicate Agrees(h: seq<Event>, service: string, now: int) {
    var b := Bucket(After(h), service);
    && DistinctIids(b)
    && (forall e :: e in b ==> LastWord(h, service, e.iid) == Some((e.url, e.until)))
    && (forall iid: string :: LastWord(h, service, iid).Some? ==>
          var w := LastWord(h, service, iid).value;
          Entry(iid, w.0, w.1) in b || w.1 < now)
  }

  lemma AgreesExtended(before: seq<Event>, e: Event, service: string, iid: string)
    ensures LastWord(before + [e], service, iid)
            == if !About(e, service, iid) then LastWord(before, service, iid)
               else if e.Registered? then Some((e.url, e.at + e.ttl)) else None
    ensures After(before + [e]) == Apply(After(before), e)
  {
    assert (before + [e])[..|before|] == before;
  }

  /** The bucket after one more event. */
  lemma BucketStep(before: seq<Event>, e: Event, service: string)
    requires DistinctIids(Bucket(After(before), service))
    ensures var b, b' := Bucket(After(before), service), Bucket(After(before + [e]), service);
            && DistinctIids(b')
            && (e.service != service ==> b' == b)
            && (e.service == service ==>
                  match e
                  case Registered(s, iid, url, ttl, at) =>
                    forall f :: f in b' <==> f == Entry(iid, url, at + ttl) || (f in b && f.iid != iid)
                  case Deregistered(s, iid, at) => forall f :: f in b' <==> f in b && f.iid != iid
                  case Listed(s, at) => forall f :: f in b' <==> f in b && f.until >= at)
  {
    var b := Bucket(After(before), service);
    AgreesExtended(before, e, service, "");
    if e.service == service {
      match e
      case Registered(s, iid, url, ttl, at) => PutHas(b, Entry(iid, url, at + ttl));
      case Deregistered(s, iid, at) => DropHas(b, iid);
      case Listed(s, at) => UnexpiredHas(b, at);
    }
  }

  /** One more event keeps bucket and history in agreement. */
  lemma StepAgrees(before: seq<Event>, e: Event, service: string, now: int)
    requires Agrees(before, service, e.at) && e.at <= now
    ensures Agrees(before + [e], service, now)
  {
    BucketStep(before, e, service);
    forall iid ensures LastWord(before + [e], service, iid)
                       == if !About(e, service, iid) then LastWord(before, service, iid)
                          else if e.Registered? then Some((e.url, e.at + e.ttl)) else None {
      AgreesExtended(before, e, service, iid);
    }
  }

  lemma {:induction false} LazyPurgeAgrees(h: seq<Event>, service: string, now: int)
    requires Clocked(h, now)
    ensures Agrees(h, service, now)
  {
    if h != [] {
      var before, e := h[..|h| - 1], h[|h| - 1];
      LazyPurgeAgrees(before, service, e.at);
      StepAgrees(before, e, service, now);
      assert h == before + [e];
    }
  }

  /** On a monotone clock a listing holds, each once, exactly the instances whose last
      event is a register not older than its time to live. */
  lemma ListAgreesWithHistory(h: seq<Event>, service: string, now: int)
    requires Clocked(h, now)
    ensures var live := Unexpired(Bucket(After(h), service), now);
            && Listing(After(h), service, now) == Urls(live)
            && DistinctIids(live)
            && (forall e :: e in live ==> LastWord(h, service, e.iid) == Some((e.url, e.until)) && e.until >= now)
            && (forall iid: string :: LastWord(h, service, iid).Some? && LastWord(h, service, iid).value.1 >= now ==>
                  var w := LastWord(h, service, iid).value;
                  Entry(iid, w.0, w.1) in live)
  {
    LazyPurgeAgrees(h, service, now);
    UnexpiredHas(Bucket(After(h), service), now);
  }

  /** The instance last registered with this url, and has not expired. */
  ghost predicate LiveWith(h: seq<Event>, service: string, now: int, u: Url, iid: string) {
    var w := LastWord(h, service, iid);
    w.Some? && w.value.0 == u && w.value.1 >= now
  }

  lemma ListedIsLive(h: seq<Event>, service: string, now: int, u: Url) returns (iid: string)
    requires Clocked(h, now) && u in Listing(After(h), service, now)
    ensures LiveWith(h, service, now, u, iid)
  {
    ListAgreesWithHistory(h, service, now);
    var live := Unexpired(Bucket(After(h), service), now);
    var k :| 0 <= k < |live| && Urls(live)[k] == u;
    assert live[k] in live;
    iid := live[k].iid;
  }

  lemma LiveIsListed(h: seq<Event>, service: string, now: int, u: Url, iid: string)
    requires Clocked(h, now) && LiveWith(h, service, now, u, iid)
    ensures u in Listing(After(h), service, now)
  {
    ListAgreesWithHistory(h, service, now);
    var live := Unexpired(Bucket(After(h), service), now);
    var w := LastWord(h, service, iid).value;
    var k :| 0 <= k < |live| && live[k] == Entry(iid, w.0, w.1);
    assert Urls(live)[k] == u;
  }

  /** The urls listed are those some live instance last registered with. */
  lemma ListedUrls(h: seq<Event>, service: string, now: int, u: Url)
    requires Clocked(h, now)
    ensures u in Listing(After(h), service, now) <==> exists iid :: LiveWith(h, service, now, u, iid)
  {
    if u in Listing(After(h), service, now) {
      var iid := ListedIsLive(h, service, now, u);
    }
    if iid :| LiveWith(h, service, now, u, iid) {
      LiveIsListed(h, service, now, u, iid);
    }
  }

  lemma {:induction false} LastWordIs(h: seq<Event>, service: string, iid: string, k: nat)
    requires k < |h| && About(h[k], service, iid)
    requires forall j :: k < j < |h| ==> !About(h[j], service, iid)
    ensures LastWord(h, service, iid) == if h[k].Registered? then Some((h[k].url, h[k].at + h[k].ttl)) else None
  {
    if k < |h| - 1 {
      LastWordIs(h[..|h| - 1], service, iid, k);
    }
  }

  // ---------------------------------------------------------------- heartbeats

  /** The registers and deregisters of one instance, in order. */
  function Abouts(h: seq<Event>, service: string, iid: string): seq<Event> {
    if h == [] then []
    else Abouts(h[..|h| - 1], service, iid) + if About(h[|h| - 1], service, iid) then [h[|h| - 1]] else []
  }

  lemma {:induction false} AboutsJoin(a: seq<Event>, b: seq<Event>, service: string, iid: string)
    ensures Abouts(a + b, service, iid) == Abouts(a, service, iid) + Abouts(b, service, iid)
  {
    if b == [] {
      assert a + b == a;
    } else {
      assert (a + b)[..|a + b| - 1] == a + b[..|b| - 1];
      AboutsJoin(a, b[..|b| - 1], service, iid);
    }
  }

  lemma {:induction false} AboutsAreIn(h: seq<Event>, service: string, iid: string)
    ensures forall e :: e in Abouts(h, service, iid) <==> e in h && About(e, service, iid)
  {
    if h != [] {
      AboutsAreIn(h[..|h| - 1], service, iid);
      assert h == h[..|h| - 1] + [h[|h| - 1]];
    }
  }

  lemma {:induction false} LastAbout(h: seq<Event>, service: string, iid: string)
    ensures var a := Abouts(h, service, iid);
            LastWord(h, service, iid) == if a == [] || !a[|a| - 1].Registered? then None
                                         else Some((a[|a| - 1].url, a[|a| - 1].at + a[|a| - 1].ttl))
  {
    if h != [] {
      LastAbout(h[..|h| - 1], service, iid);
    }
  }

  /** Nothing but registers of this url, each at most one time to live after the one before. */
  ghost predicate Steady(a: seq<Event>, url: Url, ttl: int) {
    && (forall x :: 0 <= x < |a| ==> a[x].Registered? && a[x].url == url && a[x].ttl == ttl)
    && forall x :: 0 < x < |a| ==> a[x].at <= a[x - 1].at + ttl
  }

  /** The last register of `b` holds until the first of `rest`, or the end. */
  lemma SteadyUntil(b: seq<Event>, rest: seq<Event>, url: Url, ttl: int, at: int)
    requires b != [] && Steady(b + rest, url, ttl) && at <= (b + rest)[|b + rest| - 1].at + ttl
    requires forall e :: e in rest ==> at <= e.at
    ensures var e := b[|b| - 1]; e.Registered? && e.url == url && e.ttl == ttl && at <= e.at + ttl
  {
    var a, n := b + rest, |b|;
    assert a[n - 1] == b[n - 1];
    if rest != [] {
      assert a[n] == rest[0] && a[n].at <= a[n - 1].at + ttl;
    }
  }

  lemma LaterEvents(h: seq<Event>, service: string, iid: string, l: nat)
    requires l < |h| && Clocked(h, h[|h| - 1].at)
    ensures forall e :: e in Abouts(h[l..], service, iid) ==> h[l].at <= e.at
  {
    AboutsAreIn(h[l..], service, iid);
    forall e | e in h[l..] ensures h[l].at <= e.at {
      var j :| 0 <= j < |h[l..]| && h[l..][j] == e;
      assert e == h[l + j];
    }
  }

  lemma AboutsBegin(h: seq<Event>, service: string, iid: string, k: nat, l: nat)
    requires k < l <= |h| && About(h[k], service, iid)
    ensures Abouts(h[k..l], service, iid) != []
  {
    AboutsAreIn(h[k..l], service, iid);
    assert h[k..l][0] == h[k];
  }

  /** The instance is listed while its last register before `l` has not expired. */
  lemma ListedByLast(h: seq<Event>, service: string, iid: string, k: nat, l: nat, url: Url, ttl: int)
    requires k <= l < |h| && Clocked(h, h[|h| - 1].at) && Abouts(h[k..l], service, iid) != []
    requires var b := Abouts(h[k..l], service, iid); var e := b[|b| - 1];
             e.Registered? && e.url == url && e.ttl == ttl && h[l].at <= e.at + ttl
    ensures url in Listing(After(h[..l]), service, h[l].at)
  {
    assert h[..l] == h[..k] + h[k..l];
    AboutsJoin(h[..k], h[k..l], service, iid);
    LastAbout(h[..l], service, iid);
    LiveIsListed(h[..l], service, h[l].at, url, iid);
  }

  /** An instance whose registers come at most one time to live apart from `k` on, with no
      deregister, is in every listing up to one time to live after the last of them. */
  lemma HeartbeatsKeepListed(h: seq<Event>, service: string, iid: string, url: Url, ttl: int, k: nat, l: nat, a: seq<Event>)
    requires k < l < |h| && Clocked(h, h[|h| - 1].at) && About(h[k], service, iid)
    requires a == Abouts(h[k..], service, iid) != [] && Steady(a, url, ttl)
    requires h[l].Listed? && h[l].service == service && h[l].at <= a[|a| - 1].at + ttl
    ensures url in Listing(After(h[..l]), service, h[l].at)
  {
    var b, rest := Abouts(h[k..l], service, iid), Abouts(h[l..], service, iid);
    assert h[k..] == h[k..l] + h[l..];
    AboutsJoin(h[k..l], h[l..], service, iid);
    AboutsBegin(h, service, iid, k, l);
    LaterEvents(h, service, iid, l);
    SteadyUntil(b, rest, url, ttl, h[l].at);
    ListedByLast(h, service, iid, k, l, url, ttl);
  }

  /** The registers of a heartbeat loop in its first `n` rounds; some of them may fail. */
  function Beats(service: string, iid: string, url: Url, ttl: int, clock: nat -> int, succeeds: nat -> bool, n: nat): seq<Event> {
    if n == 0 then []
    else
      Beats(service, iid, url, ttl, clock, succeeds, n - 1)
      + if succeeds(n - 1) then [Registered(service, iid, url, ttl, clock(n - 1))] else []
  }

  lemma BeatApplies(h: seq<Event>, service: string, iid: string, url: Url, ttl: int, clock: nat -> int, succeeds: nat -> bool, n: nat)
    ensures After(h + Beats(service, iid, url, ttl, clock, succeeds, n + 1))
            == var data := After(h + Beats(service, iid, url, ttl, clock, succeeds, n));
               if succeeds(n) then Apply(data, Registered(service, iid, url, ttl, clock(n))) else data
  {
    var before, beat := Beats(service, iid, url, ttl, clock, succeeds, n), Registered(service, iid, url, ttl, clock(n));
    if succeeds(n) {
      AgreesExtended(h + before, beat, service, iid);
      assert h + (before + [beat]) == h + before + [beat];
    } else {
      assert before + [] == before;
    }
  }

  /** `rounds` rounds of the heartbeat loop, on a registry with history `h`.  A register that
      fails leaves the registry alone and does not end the loop. */
  method RunHeartbeat(registry: LocalServiceRegistry, service: string, iid: string, url: Url, ttl: int,
                      clock: nat -> int, succeeds: nat -> bool, rounds: nat, ghost h: seq<Event>)
    requires registry.data == After(h)
    modifies registry
    ensures registry.data == After(h + Beats(service, iid, url, ttl, clock, succeeds, rounds))
  {
    assert h + [] == h;
    for n := 0 to rounds
      invariant registry.data == After(h + Beats(service, iid, url, ttl, clock, succeeds, n))
    {
      BeatApplies(h, service, iid, url, ttl, clock, succeeds, n);
      if succeeds(n) {
        registry.Register(service, iid, url, ttl, clock(n));
      }
    }
  }

  /** Some round among the `m` from `j` on succeeds. */
  ghost predicate SomeBeat(succeeds: nat -> bool, j: nat, m: nat) {
    exists i: nat :: j <= i < j + m && succeeds(i)
  }

  ghost predicate Regular(clock: nat -> int, period: int) {
    forall j: nat, k: nat :: j <= k ==> clock(j) <= clock(k) <= clock(j) + (k - j) * period
  }

  /** The last successful round before `n`. */
  function LastBeat(succeeds: nat -> bool, n: nat): (r: Option<nat>)
    ensures r.Some? ==> r.value < n && succeeds(r.value) && forall i: nat :: r.value < i < n ==> !succeeds(i)
    ensures r.None? ==> forall i: nat :: i < n ==> !succeeds(i)
  {
    if n == 0 then None else if succeeds(n - 1) then Some(n - 1) else LastBeat(succeeds, n - 1)
  }

  lemma GapBound(clock: nat -> int, succeeds: nat -> bool, i: nat, n: nat, m: nat, period: nat, ttl: int)
    requires Regular(clock, period) && m * period <= ttl && SomeBeat(succeeds, i + 1, m)
    requires i < n && forall j: nat :: i < j < n ==> !succeeds(j)
    ensures clock(n) <= clock(i) + ttl
  {
    assert n - i <= m;
    Products(n - i, m, period);
  }

  lemma Products(a: nat, b: nat, x: nat)
    requires a <= b
    ensures a * x <= b * x
  {
    assert b * x == a * x + (b - a) * x;
  }

  lemma SteadyGrows(a: seq<Event>, e: Event, url: Url, ttl: int)
    requires Steady(a, url, ttl) && e.Registered? && e.url == url && e.ttl == ttl
    requires a != [] ==> e.at <= a[|a| - 1].at + ttl
    ensures Steady(a + [e], url, ttl)
  {
  }

  /** The last of the beats was sent in the last successful round. */
  ghost predicate EndsAt(a: seq<Event>, clock: nat -> int, last: Option<nat>) {
    (a == [] <==> last.None?) && (a != [] ==> a[|a| - 1].at == clock(last.value))
  }

  lemma {:induction false} BeatsEnd(service: string, iid: string, url: Url, ttl: int, clock: nat -> int, succeeds: nat -> bool, n: nat)
    ensures EndsAt(Beats(service, iid, url, ttl, clock, succeeds, n), clock, LastBeat(succeeds, n))
  {
    if n > 0 {
      BeatsEnd(service, iid, url, ttl, clock, succeeds, n - 1);
    }
  }

  /** A loop that beats once a period and never fails `m` times in a row is steady if `m`
      periods fit into the time to live. */
  lemma {:induction false} BeatsAreSteady(service: string, iid: string, url: Url, ttl: int, clock: nat -> int, succeeds: nat -> bool,
                                          n: nat, m: nat, period: nat)
    requires Regular(clock, period) && m * period <= ttl && forall j: nat :: SomeBeat(succeeds, j, m)
    ensures Steady(Beats(service, iid, url, ttl, clock, succeeds, n), url, ttl)
  {
    if n > 0 {
      var i: nat := n - 1;
      var a := Beats(service, iid, url, ttl, clock, succeeds, i);
      BeatsAreSteady(service, iid, url, ttl, clock, succeeds, i, m, period);
      if succeeds(i) {
        BeatsEnd(service, iid, url, ttl, clock, succeeds, i);
        var last := LastBeat(succeeds, i);
        if last.Some? {
          GapBound(clock, succeeds, last.value, i, m, period, ttl);
        }
        SteadyGrows(a, Registered(service, iid, url, ttl, clock(i)), url, ttl);
      } else {
        assert a + [] == a;
      }
    }
  }

  /** So an instance that heartbeats is listed although up to m - 1 heartbeats in a row fail. */
  lemma HeartbeatLoopKeepsListed(h: seq<Event>, service: string, iid: string, url: Url, ttl: int, k: nat, l: nat,
                                 clock: nat -> int, succeeds: nat -> bool, n: nat, m: nat, period: nat)
    requires k < l < |h| && Clocked(h, h[|h| - 1].at) && About(h[k], service, iid)
    requires Abouts(h[k..], service, iid) == Beats(service, iid, url, ttl, clock, succeeds, n) != []
    requires Regular(clock, period) && m * period <= ttl && forall j: nat :: SomeBeat(succeeds, j, m)
    requires h[l].Listed? && h[l].service == service
    requires LastBeat(succeeds, n).Some? && h[l].at <= clock(LastBeat(succeeds, n).value) + ttl
    ensures url in Listing(After(h[..l]), service, h[l].at)
  {
    BeatsAreSteady(service, iid, url, ttl, clock, succeeds, n, m, period);
    BeatsEnd(service, iid, url, ttl, clock, succeeds, n);
    HeartbeatsKeepListed(h, service, iid, url, ttl, k, l, Beats(service, iid, url, ttl, clock, succeeds, n));
  }

  /** Later than its time to live after the last heartbeat an instance is gone; so is its
      url unless another live instance registered the same one. */
  lemma SilenceRemoves(h: seq<Event>, service: string, iid: string, k: nat, now: int)
    requires k < |h| && Clocked(h, now)
    requires About(h[k], service, iid) && h[k].Registered? && h[k].at + h[k].ttl < now
    requires forall j :: k < j < |h| ==> !About(h[j], service, iid)
    ensures forall e :: e in Unexpired(Bucket(After(h), service), now) ==> e.iid != iid
    ensures h[k].url in Listing(After(h), service, now) <==>
            exists other :: other != iid && LiveWith(h, service, now, h[k].url, other)
  {
    LastWordIs(h, service, iid, k);
    ListAgreesWithHistory(h, service, now);
    ListedUrls(h, service, now, h[k].url);
  }

  // ---------------------------------------------------------------- the order of a listing

  /** Registered, and neither deregistered nor purged since: a listing purges an entry whose
      time to live is over, a later register does not. */
  predicate Present(h: seq<Event>, service: string, iid: string) {
    h != [] &&
    var before, e := h[..|h| - 1], h[|h| - 1];
    if About(e, service, iid) then e.Registered?
    else
      && Present(before, service, iid)
      && (e.Listed? && e.service == service ==> LastWord(before, service, iid).Some? && LastWord(before, service, iid).value.1 >= e.at)
  }

  /** The register by which a present instance came in. */
  function Joined(h: seq<Event>, service: string, iid: string): nat {
    if h == [] then 0
    else if !Present(h[..|h| - 1], service, iid) then |h| - 1
    else Joined(h[..|h| - 1], service, iid)
  }

  ghost predicate Before(b: seq<Entry>, e: Entry, f: Entry) {
    exists k, l :: 0 <= k < l < |b| && b[k] == e && b[l] == f
  }

  /** Members of the first, in the order of the second. */
  ghost predicate InOrderOf(b': seq<Entry>, b: seq<Entry>) {
    && (forall e :: e in b' ==> e in b)
    && forall i, j :: 0 <= i < j < |b'| ==> Before(b, b'[i], b'[j])
  }

  lemma DropKeepsOrder(b: seq<Entry>, iid: string)
    ensures InOrderOf(Drop(b, iid), b)
  {
    var m := Index(b, iid);
    var b' := Drop(b, iid);
    forall i, j | 0 <= i < j < |b'| ensures Before(b, b'[i], b'[j]) {
      var k, l := if i < m then i else i + 1, if j < m then j else j + 1;
      assert m == |b| || (b[k] == b'[i] && b[l] == b'[j]);
    }
  }

  lemma {:induction false} UnexpiredKeepsOrder(b: seq<Entry>, now: int)
    ensures InOrderOf(Unexpired(b, now), b)
  {
    if b != [] {
      var rest, b' := b[1..], Unexpired(b, now);
      UnexpiredKeepsOrder(rest, now);
      var off := |b'| - |Unexpired(rest, now)|;
      assert forall e :: e in rest ==> e in b;
      forall i, j | 0 <= i < j < |b'| ensures Before(b, b'[i], b'[j]) {
        if i < off {
          assert b'[j] in rest;
          var l :| 0 <= l < |rest| && rest[l] == b'[j];
          assert b[0] == b'[i] && b[l + 1] == b'[j];
        } else {
          assert b'[i] == Unexpired(rest, now)[i - off] && b'[j] == Unexpired(rest, now)[j - off];
          var k, l :| 0 <= k < l < |rest| && rest[k] == b'[i] && rest[l] == b'[j];
          assert b[k + 1] == b'[i] && b[l + 1] == b'[j];
        }
      }
    }
  }

  /** A bucket read off the history: who is in it, with which url and expiry, in which order. */
  ghost predicate Arranged(h: seq<Event>, service: string, b: seq<Entry>) {
    && DistinctIids(b)
    && (forall e :: e in b ==> Present(h, service, e.iid) && LastWord(h, service, e.iid) == Some((e.url, e.until)))
    && (forall iid: string :: Present(h, service, iid) ==> exists e :: e in b && e.iid == iid)
    && (forall e :: e in b ==> Joined(h, service, e.iid) < |h|)
    && (forall i, j :: 0 <= i < j < |b| ==> Joined(h, service, b[i].iid) < Joined(h, service, b[j].iid))
  }

  /** One more event. */
  lemma OneMore(before: seq<Event>, e: Event, h: seq<Event>, service: string)
    requires h == before + [e]
    ensures forall iid :: Joined(h, service, iid) == if Present(before, service, iid) then Joined(before, service, iid) else |before|
    ensures forall iid :: LastWord(h, service, iid)
                          == if !About(e, service, iid) then LastWord(before, service, iid)
                             else if e.Registered? then Some((e.url, e.at + e.ttl)) else None
    ensures forall iid :: Present(h, service, iid) <==>
              if About(e, service, iid) then e.Registered?
              else
                && Present(before, service, iid)
                && (e.Listed? && e.service == service ==>
                      LastWord(before, service, iid).Some? && LastWord(before, service, iid).value.1 >= e.at)
  {
    assert h[..|h| - 1] == before;
  }

  lemma PutPlaces(b: seq<Entry>, e: Entry)
    ensures var b' := Put(b, e);
            && |b| <= |b'| && (forall k :: 0 <= k < |b| ==> b'[k].iid == b[k].iid)
            && (|b'| > |b| ==> |b'| == |b| + 1 && b'[|b|] == e && forall k :: 0 <= k < |b| ==> b[k].iid != e.iid)
  {
  }

  lemma RegisterKeepsOrder(before: seq<Event>, service: string, b: seq<Entry>, e: Event, h: seq<Event>, b': seq<Entry>)
    requires Arranged(before, service, b) && h == before + [e] && e.Registered? && e.service == service
    requires b' == Put(b, Entry(e.iid, e.url, e.at + e.ttl))
    ensures forall i, j :: 0 <= i < j < |b'| ==> Joined(h, service, b'[i].iid) < Joined(h, service, b'[j].iid)
  {
    PutPlaces(b, Entry(e.iid, e.url, e.at + e.ttl));
    OneMore(before, e, h, service);
    forall i, j | 0 <= i < j < |b'| ensures Joined(h, service, b'[i].iid) < Joined(h, service, b'[j].iid) {
      assert b[i] in b;
      if j < |b| {
        assert b[j] in b;
      } else {
        NewIsAbsent(before, service, b, e.iid);
      }
    }
  }

  lemma NewIsAbsent(before: seq<Event>, service: string, b: seq<Entry>, iid: string)
    requires Arranged(before, service, b) && forall k :: 0 <= k < |b| ==> b[k].iid != iid
    ensures !Present(before, service, iid)
  {
  }

  lemma RegisterArranges(before: seq<Event>, service: string, b: seq<Entry>, e: Event, h: seq<Event>)
    requires Arranged(before, service, b) && e.Registered? && e.service == service && h == before + [e]
    ensures Arranged(h, service, Put(b, Entry(e.iid, e.url, e.at + e.ttl)))
  {
    var f := Entry(e.iid, e.url, e.at + e.ttl);
    PutHas(b, f);
    OneMore(before, e, h, service);
    RegisterKeepsOrder(before, service, b, e, h, Put(b, f));
    assert f in Put(b, f);
  }

  lemma RemovalArranges(before: seq<Event>, service: string, b: seq<Entry>, e: Event, h: seq<Event>, b': seq<Entry>)
    requires Arranged(before, service, b) && !e.Registered? && e.service == service && h == before + [e]
    requires DistinctIids(b') && InOrderOf(b', b)
    requires e.Deregistered? ==> forall f :: f in b' <==> f in b && f.iid != e.iid
    requires e.Listed? ==> forall f :: f in b' <==> f in b && f.until >= e.at
    ensures Arranged(h, service, b')
  {
    OneMore(before, e, h, service);
    forall i, j | 0 <= i < j < |b'| ensures Joined(h, service, b'[i].iid) < Joined(h, service, b'[j].iid) {
      assert Before(b, b'[i], b'[j]);
      assert b'[i] in b && b'[j] in b;
    }
  }

  lemma OtherArranges(before: seq<Event>, service: string, b: seq<Entry>, e: Event, h: seq<Event>)
    requires Arranged(before, service, b) && e.service != service && h == before + [e]
    ensures Arranged(h, service, b)
  {
    OneMore(before, e, h, service);
  }

  /** Whatever the clock does, a bucket holds the instances present, each once, in the order in
      which they came in: a register of a present one changes its entry and not its place. */
  lemma {:induction false} BucketsAreArranged(h: seq<Event>, service: string)
    ensures Arranged(h, service, Bucket(After(h), service))
  {
    if h != [] {
      var before, e := h[..|h| - 1], h[|h| - 1];
      var b := Bucket(After(before), service);
      BucketsAreArranged(before, service);
      assert h == before + [e];
      if e.service != service {
        OtherArranges(before, service, b, e, h);
      } else {
        match e
        case Registered(s, iid, url, ttl, at) => RegisterArranges(before, service, b, e, h);
        case Deregistered(s, iid, at) =>
          DropHas(b, iid);
          DropKeepsOrder(b, iid);
          RemovalArranges(before, service, b, e, h, Drop(b, iid));
        case Listed(s, at) =>
          UnexpiredHas(b, at);
          UnexpiredKeepsOrder(b, at);
          RemovalArranges(before, service, b, e, h, Unexpired(b, at));
      }
    }
  }

  /** The instances that are present and not expired, in the order in which they came in. */
  ghost predicate LiveInOrder(h: seq<Event>, service: string, now: int, live: seq<Entry>) {
    && (forall e :: e in live ==>
          Present(h, service, e.iid) && LastWord(h, service, e.iid) == Some((e.url, e.until)) && e.until >= now)
    && (forall iid: string :: Present(h, service, iid) && LastWord(h, service, iid).Some? && LastWord(h, service, iid).value.1 >= now ==>
          exists e :: e in live && e.iid == iid)
    && forall i, j :: 0 <= i < j < |live| ==> Joined(h, service, live[i].iid) < Joined(h, service, live[j].iid)
  }

  /** A listing gives their urls. */
  lemma ListingIsInOrder(h: seq<Event>, service: string, now: int)
    ensures exists live :: LiveInOrder(h, service, now, live) && Listing(After(h), service, now) == Urls(live)
  {
    var b := Bucket(After(h), service);
    var live := Unexpired(b, now);
    BucketsAreArranged(h, service);
    UnexpiredHas(b, now);
    UnexpiredKeepsOrder(b, now);
    forall i, j | 0 <= i < j < |live| ensures Joined(h, service, live[i].iid) < Joined(h, service, live[j].iid) {
      assert Before(b, live[i], live[j]);
    }
    assert LiveInOrder(h, service, now, live);
  }
}
