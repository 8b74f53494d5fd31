/** The service worker: its install handler seeds the current cache generation, and its
    fetch handler answers every request cache-first. The network's answers come in as
    parameters; a deterministic network is a function from URL to outcome. */
module ServiceWorker {
  import opened Http
  import opened CacheStorage

  /** `CACHE_NAME`, the generation the install handler seeds. */
  const CurrentCache: CacheName := "v3"

  /** The generation the fetch handler stores into on a miss: a literal of its own in the
      handler, equal to `CACHE_NAME` in this version. */
  const MissCache: CacheName := "v3"

  /** The custom not-found page, looked up on an upstream 404. */
  const FallbackUrl: Url := "/my404.html"

  /** `urlsToCache`, the seed list; it includes the fallback page. */
  const UrlsToCache: seq<Url> := ["/wonderful.jpg", "/cat.jpg", FallbackUrl]

  /** `new Response('That totally failed')`: status 200 by default, with that body. */
  const FailureResponse: Response := Response(200, "That totally failed")

  /** The configuration the handlers rely on: the seed list names three distinct URLs and
      includes the fallback page, and the fetch handler stores into the seeded generation. */
  lemma SeedConfiguration()
    ensures |UrlsToCache| == 3 && FallbackUrl in UrlsToCache
    ensures forall i, j :: 0 <= i < j < |UrlsToCache| ==> UrlsToCache[i] != UrlsToCache[j]
    ensures MissCache == CurrentCache
    ensures !IsNotFound(Received(FailureResponse)) && IsOk(FailureResponse)
  {
  }

  /** The install handler: opens the current generation, then `addAll` of the seed list,
      which stores every seed response or, when any fetch fails or is not ok, none. */
  method Install(store: Store, net: Url -> Fetched) returns (installed: bool)
    requires store.Valid()
    modifies store
    ensures store.Valid()
    ensures installed <==> AllFetchedOk(UrlsToCache, net)
    ensures store.order == OpenOrder(old(store.order), CurrentCache)
    ensures installed ==> store.caches == old(store.caches)[CurrentCache := PutAll(CacheOf(old(store.caches), CurrentCache), UrlsToCache, net)]
    ensures !installed ==> store.caches == OpenCaches(old(store.caches), CurrentCache)
    ensures forall u :: u !in UrlsToCache ==> store.Match(u) == old(store.Match(u))
    ensures installed ==> forall u :: u in UrlsToCache && old(store.Match(u)).None? ==> store.Match(u) == Some(net(u).response)
  {
    installed := OpenAndAddAll(store, CurrentCache, UrlsToCache, net);
  }

  /** `caches.open(name).then(cache => cache.addAll(urls))`. */
  method OpenAndAddAll(store: Store, name: CacheName, urls: seq<Url>, net: Url -> Fetched) returns (ok: bool)
    requires store.Valid()
    modifies store
    ensures store.Valid()
    ensures ok <==> AllFetchedOk(urls, net)
    ensures store.order == OpenOrder(old(store.order), name)
    ensures ok ==> store.caches == old(store.caches)[name := PutAll(CacheOf(old(store.caches), name), urls, net)]
    ensures !ok ==> store.caches == OpenCaches(old(store.caches), name)
    ensures forall u :: u !in urls ==> store.Match(u) == old(store.Match(u))
    ensures ok ==> forall u :: u in urls && old(store.Match(u)).None? ==> store.Match(u) == Some(net(u).response)
  {
    ghost var caches0 := store.caches;
    store.Open(name);
    ghost var order1, caches1 := store.order, store.caches;
    ok := store.AddAll(name, urls, net);
    if ok {
      assert caches1[name] == CacheOf(caches0, name);
      assert store.caches == caches0[name := PutAll(CacheOf(caches0, name), urls, net)];
      SeedLookups(order1, caches1, store.caches, name, urls, net);
    }
  }

  /** The store-on-miss tail of the fetch handler, from `caches.open('v3')` on: `openOk`
      tells whether the open succeeds and `fetched` is what the fetch issued inside it
      settles to (not made when the open fails); `putOk` tells whether `cache.put`
      succeeds. Any failure is caught and answered with the fixed failure response. */
  method StoreAndReturn(store: Store, request: Url, openOk: bool, fetched: Fetched, putOk: bool)
    returns (reply: Response)
    requires store.Valid() && store.Match(request).None?
    modifies store
    ensures store.Valid()
    ensures !openOk ==> reply == FailureResponse && unchanged(store)
    ensures openOk ==> store.order == OpenOrder(old(store.order), MissCache)
    ensures openOk && PutAccepts(fetched, putOk) ==>
              && reply == fetched.response
              && store.caches == PutIn(OpenCaches(old(store.caches), MissCache), MissCache, request, fetched.response)
              && store.Match(request) == Some(fetched.response)
    ensures openOk && !PutAccepts(fetched, putOk) ==>
              reply == FailureResponse && store.caches == OpenCaches(old(store.caches), MissCache)
    ensures !(openOk && PutAccepts(fetched, putOk)) ==> forall u :: store.Match(u) == old(store.Match(u))
    ensures forall u :: u != request ==> store.Match(u) == old(store.Match(u))
  {
    if !openOk {
      return FailureResponse;
    }
    store.Open(MissCache);
    if !PutAccepts(fetched, putOk) {
      return FailureResponse;
    }
    store.Put(MissCache, request, fetched.response);
    reply := fetched.response;
  }

  /** The fetch handler as written: a hit in any cache is answered as stored; on a miss the
      request is fetched (`first`); a 404 is answered with whatever `caches.match` finds for
      the fallback page, unless that lookup rejects (`matchOk` false) and the failure
      response is sent; otherwise `'v3'` is opened (`openOk`), the request is fetched a
      second time (`second`), and that second response is put (`putOk`) and returned.
      `None` stands for the undefined value `caches.match` resolves to when the fallback
      page is in no cache. `fetches` counts the network calls made. */
  method HandleFetch(store: Store, request: Url, first: Fetched, second: Fetched, matchOk: bool, openOk: bool, putOk: bool)
    returns (reply: Option<Response>, ghost fetches: nat)
    requires store.Valid()
    modifies store
    ensures store.Valid()
    ensures old(store.Match(request)).Some? ==>
              reply == old(store.Match(request)) && fetches == 0 && unchanged(store)
    ensures old(store.Match(request)).None? && first.NetworkError? ==>
              reply == Some(FailureResponse) && fetches == 1 && unchanged(store)
    ensures old(store.Match(request)).None? && IsNotFound(first) ==>
              && fetches == 1 && unchanged(store)
              && (matchOk ==> reply == old(store.Match(FallbackUrl)))
              && (!matchOk ==> reply == Some(FailureResponse))
    ensures old(store.Match(request)).None? && first.Received? && !IsNotFound(first) ==>
              && (!openOk ==> reply == Some(FailureResponse) && fetches == 1 && unchanged(store))
              && (openOk ==> fetches == 2 && store.order == OpenOrder(old(store.order), MissCache))
              && (openOk && PutAccepts(second, putOk) ==>
                    && reply == Some(second.response)
                    && store.caches == PutIn(OpenCaches(old(store.caches), MissCache), MissCache, request, second.response)
                    && store.Match(request) == reply)
              && (openOk && !PutAccepts(second, putOk) ==>
                    reply == Some(FailureResponse) && store.caches == OpenCaches(old(store.caches), MissCache))
    ensures reply.None? ==> old(store.Match(request)).None? && IsNotFound(first) && matchOk && old(store.Match(FallbackUrl)).None?
    ensures forall u :: u != request ==> store.Match(u) == old(store.Match(u))
  {
    var hit := store.Match(request);
    if hit.Some? {
      return hit, 0;
    }
    if first.NetworkError? {
      return Some(FailureResponse), 1;
    }
    if first.response.status == 404 {
      if !matchOk {
        return Some(FailureResponse), 1;
      }
      return store.Match(FallbackUrl), 1;
    }
    var r := StoreAndReturn(store, request, openOk, second, putOk);
    reply := Some(r);
    fetches := if openOk then 2 else 1;
  }

  /** The fetch handler with the miss path fetching once: the first response decides
      between the fallback page and store-and-return, and is the one stored and returned. */
  method HandleFetchOnce(store: Store, request: Url, fetched: Fetched, matchOk: bool, openOk: bool, putOk: bool)
    returns (reply: Option<Response>)
    requires store.Valid()
    modifies store
    ensures store.Valid()
    ensures old(store.Match(request)).Some? ==> reply == old(store.Match(request)) && unchanged(store)
    ensures old(store.Match(request)).None? && fetched.NetworkError? ==>
              reply == Some(FailureResponse) && unchanged(store)
    ensures old(store.Match(request)).None? && IsNotFound(fetched) ==>
              && unchanged(store)
              && (matchOk ==> reply == old(store.Match(FallbackUrl)))
              && (!matchOk ==> reply == Some(FailureResponse))
    ensures old(store.Match(request)).None? && fetched.Received? && !IsNotFound(fetched) ==>
              && (!openOk ==> reply == Some(FailureResponse) && unchanged(store))
              && (openOk ==> store.order == OpenOrder(old(store.order), MissCache))
              && (openOk && PutAccepts(fetched, putOk) ==>
                    && reply == Some(fetched.response)
                    && store.caches == PutIn(OpenCaches(old(store.caches), MissCache), MissCache, request, fetched.response)
                    && store.Match(request) == reply)
              && (openOk && !PutAccepts(fetched, putOk) ==>
                    reply == Some(FailureResponse) && store.caches == OpenCaches(old(store.caches), MissCache))
    ensures old(store.Match(request)).None? && reply.Some? && reply.value.status == 404 ==>
              reply == old(store.Match(FallbackUrl))
    ensures store.Match(request) != old(store.Match(request)) ==>
              fetched.Received? && !IsNotFound(fetched) && store.Match(request) == Some(fetched.response)
    ensures forall u :: u != request ==> store.Match(u) == old(store.Match(u))
  {
    var hit := store.Match(request);
    if hit.Some? {
      return hit;
    }
    if fetched.NetworkError? {
      return Some(FailureResponse);
    }
    if fetched.response.status == 404 {
      if !matchOk {
        return Some(FailureResponse);
      }
      return store.Match(FallbackUrl);
    }
    var r := StoreAndReturn(store, request, openOk, fetched, putOk);
    reply := Some(r);
  }

  /** The double fetch as written lets a 404 through: after a first fetch answered 200 and a
      second answered 404, the handler returns the 404 and stores it, so every later request
      for that URL is answered with it from the cache. */
  method DoubleFetchStoresNotFound(store: Store, request: Url) returns (reply: Option<Response>)
    requires store.Valid() && store.Match(request).None?
    modifies store
    ensures reply == Some(Response(404, "Not Found"))
    ensures store.Match(request) == Some(Response(404, "Not Found"))
  {
    ghost var fetches;
    reply, fetches := HandleFetch(store, request, Received(Response(200, "page")), Received(Response(404, "Not Found")), true, true, true);
  }

  /** Every cache other than `name` that holds `url` was created after `name`, so a
      lookup of `url` reaches `name` first whenever `name` holds it. */
  predicate NoOlderHolder(order: seq<CacheName>, caches: map<CacheName, Cache>, name: CacheName, url: Url)
  {
    forall i :: 0 <= i < |order| && order[i] != name && Holds(caches, order[i], url) ==>
      exists j :: 0 <= j < i && order[j] == name
  }

  /** After a successful install, the fallback page is answered from the current generation
      as fetched, provided no generation created before it holds the page (`caches.match`
      would answer from that one first). Whether the current generation held it before, or
      a later one holds it, does not matter. */
  lemma InstalledFallback(order: seq<CacheName>, caches: map<CacheName, Cache>, net: Url -> Fetched)
    requires AllFetchedOk(UrlsToCache, net) && NoOlderHolder(order, caches, CurrentCache, FallbackUrl)
    ensures MatchIn(OpenOrder(order, CurrentCache),
                    caches[CurrentCache := PutAll(CacheOf(caches, CurrentCache), UrlsToCache, net)],
                    FallbackUrl)
            == Some(net(FallbackUrl).response)
  {
    SeedConfiguration();
    var order' := OpenOrder(order, CurrentCache);
    var after := caches[CurrentCache := PutAll(CacheOf(caches, CurrentCache), UrlsToCache, net)];
    var k :| 0 <= k < |order'| && order'[k] == CurrentCache;
    assert Holds(after, order'[k], FallbackUrl);
    assert forall i :: 0 <= i < |order'| && order'[i] != CurrentCache && Holds(after, order'[i], FallbackUrl) ==>
             exists j :: 0 <= j < i && order'[j] == CurrentCache by {
      forall i | 0 <= i < |order'| && order'[i] != CurrentCache && Holds(after, order'[i], FallbackUrl)
        ensures exists j :: 0 <= j < i && order'[j] == CurrentCache
      {
        assert i < |order| && order'[i] == order[i];
        var j :| 0 <= j < i && order[j] == CurrentCache;
        assert order'[j] == order[j];
      }
    }
  }

  /** After a successful install on storage where no older generation holds the fallback
      page, a miss answered 404 by the network is served the seeded fallback page; a
      rejected fallback lookup is answered with the failure response. */
  method SeededFallbackServed(store: Store, net: Url -> Fetched, request: Url, first: Fetched, second: Fetched, matchOk: bool, openOk: bool, putOk: bool)
    returns (installed: bool, reply: Option<Response>)
    requires store.Valid()
    requires NoOlderHolder(store.order, store.caches, CurrentCache, FallbackUrl)
    requires store.Match(request).None? && request !in UrlsToCache
    requires IsNotFound(first)
    modifies store
    ensures installed <==> AllFetchedOk(UrlsToCache, net)
    ensures installed && matchOk ==> reply == Some(net(FallbackUrl).response)
    ensures !matchOk ==> reply == Some(FailureResponse)
  {
    ghost var order0, caches0 := store.order, store.caches;
    installed := Install(store, net);
    if installed {
      InstalledFallback(order0, caches0, net);
    }
    ghost var fetches;
    reply, fetches := HandleFetch(store, request, first, second, matchOk, openOk, putOk);
  }

  /** Installing a second time with the same deterministic network leaves the storage
      exactly as one install leaves it. */
  method InstallTwice(store: Store, net: Url -> Fetched) returns (once: bool, twice: bool)
    requires store.Valid()
    modifies store
    ensures once == twice && (once <==> AllFetchedOk(UrlsToCache, net))
    ensures store.order == OpenOrder(old(store.order), CurrentCache)
    ensures once ==> store.caches == old(store.caches)[CurrentCache := PutAll(CacheOf(old(store.caches), CurrentCache), UrlsToCache, net)]
    ensures !once ==> store.caches == OpenCaches(old(store.caches), CurrentCache)
  {
    ghost var order0, caches0 := store.order, store.caches;
    once := Install(store, net);
    twice := Install(store, net);
    AddAllTwice(order0, caches0, CurrentCache, UrlsToCache, net);
  }

  /** A request stored on a miss is a hit the next time: served the same response with no
      network call, the storage unchanged. */
  method StoredThenServed(store: Store, request: Url, first: Fetched, second: Fetched, later1: Fetched, later2: Fetched)
    returns (reply: Option<Response>, again: Option<Response>, ghost laterFetches: nat)
    requires store.Valid() && store.Match(request).None?
    requires first.Received? && !IsNotFound(first) && PutAccepts(second, true)
    modifies store
    ensures reply == Some(second.response) && again == reply && laterFetches == 0
    ensures store.order == OpenOrder(old(store.order), MissCache)
    ensures store.caches == PutIn(OpenCaches(old(store.caches), MissCache), MissCache, request, second.response)
  {
    ghost var f1;
    reply, f1 := HandleFetch(store, request, first, second, true, true, true);
    again, laterFetches := HandleFetch(store, request, later1, later2, true, true, true);
  }
}
