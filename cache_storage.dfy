/** The browser's cache storage (the `caches` global): named caches, each a map from a
    request URL to a stored response. The names keep their creation order, because
    `caches.match` searches the caches in that order and answers with the first hit. */
module CacheStorage {
  import opened Http

  type Url = string
  type CacheName = string
  type Cache = map<Url, Response>

  /** Every existing cache is named exactly once in the creation order. */
  ghost predicate WellFormed(order: seq<CacheName>, caches: map<CacheName, Cache>)
  {
    && (forall i, j :: 0 <= i < j < |order| ==> order[i] != order[j])
    && (forall n :: n in caches <==> n in order)
  }

  /** Cache `name` exists and has an entry for `url`. */
  predicate Holds(caches: map<CacheName, Cache>, name: CacheName, url: Url)
  {
    name in caches && url in caches[name]
  }

  /** `caches.match(url)`: the entry for `url` of the first cache, in creation order,
      that has one; `None` (the promise resolves to undefined) when no cache has one. */
  function MatchIn(order: seq<CacheName>, caches: map<CacheName, Cache>, url: Url): (r: Option<Response>)
    ensures r.None? <==> forall i :: 0 <= i < |order| ==> !Holds(caches, order[i], url)
    ensures r.Some? ==> exists i :: 0 <= i < |order| && Holds(caches, order[i], url)
                          && r.value == caches[order[i]][url]
                          && forall j :: 0 <= j < i ==> !Holds(caches, order[j], url)
    decreases |order|
  {
    if |order| == 0 then None
    else if Holds(caches, order[0], url) then Some(caches[order[0]][url])
    else
      var r := MatchIn(order[1..], caches, url);
      assert forall i :: 0 < i < |order| ==> order[i] == order[1..][i - 1];
      r
  }

  /** The cache `caches.open(name)` hands out: the existing one, or a new empty one. */
  function CacheOf(caches: map<CacheName, Cache>, name: CacheName): (c: Cache)
  {
    if name in caches then caches[name] else map[]
  }

  /** The creation order after `caches.open(name)`. */
  function OpenOrder(order: seq<CacheName>, name: CacheName): (r: seq<CacheName>)
    ensures |r| == if name in order then |order| else |order| + 1
    ensures name in r && r[..|order|] == order
  {
    if name in order then order else order + [name]
  }

  /** The caches after `caches.open(name)`. */
  function OpenCaches(caches: map<CacheName, Cache>, name: CacheName): (r: map<CacheName, Cache>)
    ensures r.Keys == caches.Keys + {name}
    ensures forall n :: n in caches ==> r[n] == caches[n]
    ensures name !in caches ==> r[name] == map[]
  {
    caches[name := CacheOf(caches, name)]
  }

  /** Opening a cache changes no lookup: a cache it creates is empty and comes last. */
  lemma MatchAfterOpen(order: seq<CacheName>, caches: map<CacheName, Cache>, name: CacheName, url: Url)
    requires WellFormed(order, caches)
    ensures MatchIn(OpenOrder(order, name), OpenCaches(caches, name), url) == MatchIn(order, caches, url)
  {
    if name in order {
      assert OpenCaches(caches, name) == caches;
    } else {
      MatchAppendEmpty(order, caches, name, url);
    }
  }

  /** Opening a cache keeps every cache named exactly once in the creation order. */
  lemma OpenKeepsWellFormed(order: seq<CacheName>, caches: map<CacheName, Cache>, name: CacheName)
    requires WellFormed(order, caches)
    ensures WellFormed(OpenOrder(order, name), OpenCaches(caches, name))
  {
    if name !in order {
      var order' := order + [name];
      forall i, j | 0 <= i < j < |order'| ensures order'[i] != order'[j] {
        assert order'[i] == order[i];
        if j < |order| {
          assert order'[j] == order[j];
        } else {
          assert order'[j] == name;
        }
      }
      assert forall n :: n in order' <==> n in order || n == name;
    }
  }

  lemma {:induction false} MatchAppendEmpty(order: seq<CacheName>, caches: map<CacheName, Cache>, name: CacheName, url: Url)
    requires name !in order
    ensures MatchIn(order + [name], caches[name := map[]], url) == MatchIn(order, caches, url)
    decreases |order|
  {
    if |order| == 0 {
      assert order + [name] == [name];
      assert !Holds(caches[name := map[]], name, url);
    } else {
      assert (order + [name])[1..] == order[1..] + [name];
      assert order[0] != name;
      assert Holds(caches[name := map[]], order[0], url) == Holds(caches, order[0], url);
      MatchAppendEmpty(order[1..], caches, name, url);
    }
  }

  /** `cache.put(url, r)` on the cache `name`. */
  function PutIn(caches: map<CacheName, Cache>, name: CacheName, url: Url, r: Response): (after: map<CacheName, Cache>)
    requires name in caches
    ensures after.Keys == caches.Keys
    ensures forall n :: n in caches && n != name ==> after[n] == caches[n]
    ensures after[name].Keys == caches[name].Keys + {url} && after[name][url] == r
    ensures forall u :: u in caches[name] && u != url ==> after[name][u] == caches[name][u]
  {
    caches[name := caches[name][url := r]]
  }

  /** A lookup of `url` depends only on which caches hold `url` and what they hold for it. */
  lemma {:induction false} MatchCongruent(order: seq<CacheName>, c1: map<CacheName, Cache>, c2: map<CacheName, Cache>, url: Url)
    requires forall n :: Holds(c1, n, url) <==> Holds(c2, n, url)
    requires forall n :: Holds(c1, n, url) ==> Holds(c2, n, url) && c1[n][url] == c2[n][url]
    ensures MatchIn(order, c1, url) == MatchIn(order, c2, url)
    decreases |order|
  {
    if |order| > 0 {
      MatchCongruent(order[1..], c1, c2, url);
    }
  }

  /** A put changes no lookup of another URL. */
  lemma MatchOtherAfterPut(order: seq<CacheName>, caches: map<CacheName, Cache>, name: CacheName, url: Url, r: Response, other: Url)
    requires name in caches && other != url
    ensures MatchIn(order, PutIn(caches, name, url, r), other) == MatchIn(order, caches, other)
  {
    MatchCongruent(order, PutIn(caches, name, url, r), caches, other);
  }

  /** When exactly one cache holds `url`, the lookup answers with its entry. */
  lemma MatchOnlyHolder(order: seq<CacheName>, caches: map<CacheName, Cache>, name: CacheName, url: Url)
    requires WellFormed(order, caches) && Holds(caches, name, url)
    requires forall n :: n != name ==> !Holds(caches, n, url)
    ensures MatchIn(order, caches, url) == Some(caches[name][url])
  {
    var k :| 0 <= k < |order| && order[k] == name;
    assert Holds(caches, order[k], url);
  }

  /** After a miss, a put into an existing cache makes the lookup answer with exactly the
      response put. */
  lemma MatchAfterPutOnMiss(order: seq<CacheName>, caches: map<CacheName, Cache>, name: CacheName, url: Url, r: Response)
    requires WellFormed(order, caches) && name in caches
    requires MatchIn(order, caches, url).None?
    ensures MatchIn(order, PutIn(caches, name, url, r), url) == Some(r)
  {
    var after := PutIn(caches, name, url, r);
    var k :| 0 <= k < |order| && order[k] == name;
    assert Holds(after, order[k], url);
    assert forall j :: 0 <= j < |order| && order[j] != name ==> !Holds(after, order[j], url);
  }

  /** `cache.addAll(urls)` succeeds only when every fetch is received with an ok status
      that is not a partial (206) response. */
  predicate AllFetchedOk(urls: seq<Url>, net: Url -> Fetched)
  {
    forall u :: u in urls ==> net(u).Received? && IsOk(net(u).response) && !IsPartial(net(u).response)
  }

  /** `cache.put` of what a fetch settled to goes through: the fetch was received, its
      response is not partial (a 206 is rejected), and `putOk` (every other reason a put
      can reject, such as quota) holds. */
  predicate PutAccepts(fetched: Fetched, putOk: bool)
  {
    fetched.Received? && !IsPartial(fetched.response) && putOk
  }

  /** The puts `cache.addAll(urls)` performs, in list order, once every fetch has been received. */
  function PutAll(cache: Cache, urls: seq<Url>, net: Url -> Fetched): (r: Cache)
    requires forall u :: u in urls ==> net(u).Received?
    ensures r.Keys == cache.Keys + (set u | u in urls)
    ensures forall u :: u in urls ==> r[u] == net(u).response
    ensures forall u :: u in cache && u !in urls ==> r[u] == cache[u]
    decreases |urls|
  {
    if |urls| == 0 then cache
    else
      assert forall u :: u in urls[1..] ==> u in urls;
      var r := PutAll(cache[urls[0] := net(urls[0]).response], urls[1..], net);
      assert forall u :: u in urls ==> u == urls[0] || u in urls[1..];
      r
  }

  /** With a deterministic network, adding the same URLs a second time changes nothing. */
  lemma PutAllIdempotent(cache: Cache, urls: seq<Url>, net: Url -> Fetched)
    requires forall u :: u in urls ==> net(u).Received?
    ensures PutAll(PutAll(cache, urls, net), urls, net) == PutAll(cache, urls, net)
  {
  }

  /** Adding a list of URLs to the last-opened cache `name`: lookups of other URLs do not
      change, and a listed URL held by no cache before is then answered as fetched. */
  lemma SeedLookups(order: seq<CacheName>, before: map<CacheName, Cache>, after: map<CacheName, Cache>, name: CacheName, urls: seq<Url>, net: Url -> Fetched)
    requires WellFormed(order, before) && name in before
    requires forall u :: u in urls ==> net(u).Received?
    requires after == before[name := PutAll(before[name], urls, net)]
    ensures forall u :: u !in urls ==> MatchIn(order, after, u) == MatchIn(order, before, u)
    ensures forall u :: u in urls && MatchIn(order, before, u).None? ==> MatchIn(order, after, u) == Some(net(u).response)
  {
    forall u | u !in urls ensures MatchIn(order, after, u) == MatchIn(order, before, u) {
      MatchCongruent(order, after, before, u);
    }
    forall u | u in urls && MatchIn(order, before, u).None?
      ensures MatchIn(order, after, u) == Some(net(u).response)
    {
      assert WellFormed(order, after);
      assert Holds(after, name, u);
      MatchOnlyHolder(order, after, name, u);
    }
  }

  /** Opening a cache and adding a list of URLs to it a second time, with the same
      deterministic network, leaves the storage as the first time left it. */
  lemma AddAllTwice(order: seq<CacheName>, caches: map<CacheName, Cache>, name: CacheName, urls: seq<Url>, net: Url -> Fetched)
    ensures OpenOrder(OpenOrder(order, name), name) == OpenOrder(order, name)
    ensures OpenCaches(OpenCaches(caches, name), name) == OpenCaches(caches, name)
    ensures AllFetchedOk(urls, net) ==>
              var once := caches[name := PutAll(CacheOf(caches, name), urls, net)];
              once[name := PutAll(CacheOf(once, name), urls, net)] == once
  {
    if AllFetchedOk(urls, net) {
      PutAllIdempotent(CacheOf(caches, name), urls, net);
    }
  }

  /** The browser's cache storage. `order` lists the cache names in creation order and
      `caches` maps each name to its entries. */
  class Store {
    var order: seq<CacheName>
    var caches: map<CacheName, Cache>

    ghost predicate Valid()
      reads this
    {
      WellFormed(order, caches)
    }

    /** An origin with no caches yet. */
    constructor ()
      ensures Valid() && order == [] && caches == map[]
    {
      order := [];
      caches := map[];
    }

    /** `caches.match(url)` across all caches. */
    function Match(url: Url): (r: Option<Response>)
      reads this
    {
      MatchIn(order, caches, url)
    }

    /** `caches.open(name)`: creates the cache, empty and last in order, when it is absent. */
    method Open(name: CacheName)
      requires Valid()
      modifies this
      ensures Valid()
      ensures order == OpenOrder(old(order), name) && caches == OpenCaches(old(caches), name)
      ensures forall u :: Match(u) == old(Match(u))
    {
      OpenKeepsWellFormed(order, caches, name);
      forall u ensures MatchIn(OpenOrder(order, name), OpenCaches(caches, name), u) == MatchIn(order, caches, u) {
        MatchAfterOpen(order, caches, name, u);
      }
      order := OpenOrder(order, name);
      caches := OpenCaches(caches, name);
    }

    /** `cache.put(url, r)` on the open cache `name`: replaces or adds that one entry. */
    method Put(name: CacheName, url: Url, r: Response)
      requires Valid() && name in caches
      modifies this
      ensures Valid()
      ensures order == old(order) && caches == PutIn(old(caches), name, url, r)
      ensures forall u :: u != url ==> Match(u) == old(Match(u))
      ensures old(Match(url)).None? ==> Match(url) == Some(r)
    {
      forall u | u != url ensures MatchIn(order, PutIn(caches, name, url, r), u) == MatchIn(order, caches, u) {
        MatchOtherAfterPut(order, caches, name, url, r, u);
      }
      if Match(url).None? {
        MatchAfterPutOnMiss(order, caches, name, url, r);
      }
      caches := PutIn(caches, name, url, r);
    }

    /** `cache.addAll(urls)` on the open cache `name`, all or nothing: it succeeds only when
        every fetch is received with an ok status, and then stores each response. */
    method AddAll(name: CacheName, urls: seq<Url>, net: Url -> Fetched) returns (ok: bool)
      requires Valid() && name in caches
      modifies this
      ensures Valid() && order == old(order)
      ensures ok <==> AllFetchedOk(urls, net)
      ensures ok ==> caches == old(caches)[name := PutAll(old(caches)[name], urls, net)]
      ensures !ok ==> caches == old(caches)
    {
      ok := AllFetchedOk(urls, net);
      if ok {
        caches := caches[name := PutAll(caches[name], urls, net)];
      }
    }
  }
}
