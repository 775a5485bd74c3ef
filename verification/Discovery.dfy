/** The discovery loop: what the registry lists becomes the pool of the balancer. */
module Discovery {
  import opened Options
  import opened Balancer
  import Registry

  ghost function Discovered(p: Pool, listed: seq<Url>): Pool
    requires Wf(p)
  {
    if listed == [] then p else Refreshed(p, listed)
  }

  /** One turn of the loop. */
  method DiscoveryTick(registry: Registry.LocalServiceRegistry, balancer: UpstreamBalancer, service: string, now: int)
    requires balancer.Valid()
    modifies registry, balancer
    ensures balancer.Valid()
    ensures balancer.State() == Discovered(old(balancer.State()), Registry.Listing(old(registry.data), service, now))
    ensures registry.data == Registry.Apply(old(registry.data), Registry.Listed(service, now))
  {
    var urls := registry.List(service, now);
    if urls != [] {
      balancer.Refresh(urls);
    }
  }

  lemma FirstOfIs(s: seq<Url>, u: Url, k: nat)
    requires k < |s| && s[k] == u && forall j :: 0 <= j < k ==> s[j] != u
    ensures u in s && FirstOf(s, u) == k
  {
    assert u in s;
  }

  lemma FirstOfPrefix(s: seq<Url>, u: Url)
    requires s != [] && u in s[..|s| - 1]
    ensures u in s && FirstOf(s, u) == FirstOf(s[..|s| - 1], u)
  {
    var init := s[..|s| - 1];
    var k := FirstOf(init, u);
    assert s[k] == u;
    forall j | 0 <= j < k ensures s[j] != u {
      assert s[j] == init[j];
    }
    FirstOfIs(s, u, k);
  }

  lemma {:induction false} DedupPairInOrder(s: seq<Url>, i: nat, j: nat)
    requires i < j < |Dedup(s)|
    ensures FirstOf(s, Dedup(s)[i]) < FirstOf(s, Dedup(s)[j])
  {
    var n := |s| - 1;
    var init, d := s[..n], Dedup(s[..n]);
    assert Dedup(s)[i] == d[i] && d[i] in init;
    FirstOfPrefix(s, d[i]);
    if j < |d| {
      assert Dedup(s)[j] == d[j] && d[j] in init;
      FirstOfPrefix(s, d[j]);
      DedupPairInOrder(init, i, j);
    } else {
      assert Dedup(s)[j] == s[n] && s[n] !in init;
      forall m | 0 <= m < n ensures s[m] != s[n] {
        assert s[m] == init[m];
      }
      FirstOfIs(s, s[n], n);
    }
  }

  /** Deduplication keeps first occurrences in their order. */
  lemma DedupKeepsOrder(s: seq<Url>)
    ensures var d := Dedup(s);
            forall i, j :: 0 <= i < j < |d| ==> FirstOf(s, d[i]) < FirstOf(s, d[j])
  {
    forall i, j | 0 <= i < j < |Dedup(s)| ensures FirstOf(s, Dedup(s)[i]) < FirstOf(s, Dedup(s)[j]) {
      DedupPairInOrder(s, i, j);
    }
  }

  /** After a discovery tick with some instance live, the pool holds exactly the urls of live
      instances, each once in listing order; known urls keep their health record, new ones
      start healthy. With none live nothing changes; the pool never becomes empty. */
  lemma PoolFollowsRegistry(h: seq<Registry.Event>, service: string, now: int, p: Pool)
    requires Registry.Clocked(h, now) && Wf(p)
    ensures var q := Discovered(p, Registry.Listing(Registry.After(h), service, now));
            && Wf(q)
            && (p.urls != [] ==> q.urls != [])
            && ((forall u, iid :: !Registry.LiveWith(h, service, now, u, iid)) ==> q == p)
            && ((exists u, iid :: Registry.LiveWith(h, service, now, u, iid)) ==>
                  && q.rr == 0
                  && q.urls == Dedup(Registry.Listing(Registry.After(h), service, now))
                  && Distinct(q.urls)
                  && (forall u :: u in q.urls <==> exists iid :: Registry.LiveWith(h, service, now, u, iid))
                  && (forall u :: u in q.urls ==> q.states[u] == if u in p.urls then p.states[u] else FRESH))
  {
    var listed := Registry.Listing(Registry.After(h), service, now);
    forall u ensures u in listed <==> exists iid :: Registry.LiveWith(h, service, now, u, iid) {
      Registry.ListedUrls(h, service, now, u);
    }
    assert listed != [] ==> listed[0] in listed;
    if u, iid :| Registry.LiveWith(h, service, now, u, iid) {
      assert u in listed;
    }
  }

  /** A crashed instance leaves the pool at the first tick later than its time to live after
      its last heartbeat, if another instance is live and none shares its url. */
  lemma CrashedInstanceLeaves(h: seq<Registry.Event>, service: string, now: int, p: Pool, iid: string, k: nat, other: string, url: Url)
    requires Registry.Clocked(h, now) && Wf(p)
    requires k < |h| && Registry.About(h[k], service, iid) && h[k].Registered? && h[k].at + h[k].ttl < now
    requires forall j :: k < j < |h| ==> !Registry.About(h[j], service, iid)
    requires Registry.LiveWith(h, service, now, url, other)
    requires forall i :: i != iid ==> !Registry.LiveWith(h, service, now, h[k].url, i)
    ensures h[k].url !in Discovered(p, Registry.Listing(Registry.After(h), service, now)).urls
  {
    PoolFollowsRegistry(h, service, now, p);
    Registry.LastWordIs(h, service, iid, k);
  }
}
