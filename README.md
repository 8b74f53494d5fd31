# Service-worker response cache: a Dafny model

This project models the caching policy of a small service worker. On install, the
worker seeds the cache generation `"v3"` with three URLs, one of which is the custom
not-found page `/my404.html`. It then answers every intercepted request cache-first:
- A hit in any cache is served exactly as stored.
- On a miss the request goes to the network. An upstream 404 is replaced by whatever
  the caches hold for `/my404.html`.
- Any other status leads to a second fetch. The handler stores that second response in
  `'v3'` and returns it.
- A rejection anywhere in that chain is answered with the fixed response
  `That totally failed`.

The model has three modules:

- `Http` (`http.dfy`): responses as immutable values (status and body), and the
  outcome of one `fetch` call (`Received(response)` or `NetworkError`).
- `CacheStorage` (`cache_storage.dfy`): the browser's cache storage.
  - A `Store` class holds `order`, the cache names in creation order, and `caches`,
    a map from cache name to a map from URL to response. The methods `Open`, `Put` and
    `AddAll` update these fields in place.
  - `MatchIn` is `caches.match`: the entry of the first cache, in creation order, that
    has the URL.
  - The lemmas say exactly how opening, putting and adding change lookups.
- `ServiceWorker` (`service_worker.dfy`): the constants `CACHE_NAME`, `urlsToCache`,
  the fallback URL and the failure response.
  - The install handler `Install` and the fetch handler `HandleFetch` are methods that
    take a `Store`.
  - They get the network's answers as parameters: two outcomes per miss for the
    handler, and a deterministic `Url -> Fetched` function for install. Whether the
    fallback `caches.match`, `caches.open` and `cache.put` succeed are boolean
    parameters.
  - Client methods state the scenarios that combine the handlers.

What the code does, and the model with it, in the places where it is easy to misread:

- The code has no reaping of old generations. The activate handler only logs, so no
  deletion is modelled.
- The miss path fetches twice. The 404 test reads the first response, while the second
  is stored and returned. The model keeps both fetches; see "## Findings".
- On a 404 the handler returns whatever `caches.match('/my404.html')` resolves to.
  That can be `undefined` when no cache holds the page. The model returns
  `Option<Response>`, and `None` is that undefined value. The `.catch` does not cover
  it. If that lookup rejects instead, the `.catch` answers with the failure response.
  A `matchOk` parameter says which of the two happens.
- `caches.match` searches every cache in creation order. An older generation that
  holds a URL therefore answers before `"v3"` does.
- The miss path opens `'v3'` (a literal of its own, equal to `CACHE_NAME` here)
  before the second fetch. So a storage without `"v3"` gains an empty `"v3"` even
  when that fetch or the put fails. `Store.Open` proves that this changes no lookup.

## Model

| member | source | states |
|---|---|---|
| `ServiceWorker.CurrentCache` | app/sw.js:4 | `CACHE_NAME`: the generation install seeds is `"v3"` |
| `ServiceWorker.UrlsToCache` | app/sw.js:5-9 | `urlsToCache`: the seed list `/wonderful.jpg`, `/cat.jpg`, `/my404.html`, in that order |
| `ServiceWorker.MissCache` | app/sw.js:46 | the generation the fetch handler opens and stores into on a miss: its own literal `'v3'` |
| `ServiceWorker.FallbackUrl` | app/sw.js:41 | the not-found page looked up on an upstream 404: `/my404.html` |
| `ServiceWorker.FailureResponse` | app/sw.js:58 | `new Response('That totally failed')`: status 200 (the constructor's default) with that body |
| `ServiceWorker.SeedConfiguration` | app/sw.js:4-9 | the seed list holds three distinct URLs including the fallback page, the miss path stores into the seeded generation, and the failure response is an ok, non-404 response |
| `Http.IsNotFound` | app/sw.js:40 | the fallback test: a received response with status exactly 404, so other 4xx and 5xx statuses are not caught |
| `Http.IsOk` | app/sw.js:15 | `response.ok`: status 200-299, the first part of what `cache.addAll` requires of each response |
| `Http.IsPartial` | app/sw.js:50 | a 206 response, which `cache.put` here rejects, as `cache.addAll` does for the seed list at line 15 |
| `CacheStorage.AllFetchedOk` | app/sw.js:15 | the success rule of `cache.addAll`: every listed fetch is received with an ok status other than 206 |
| `CacheStorage.PutAccepts` | app/sw.js:50 | the success rule of `cache.put`: the fetch was received, its response is not a 206, and no other storage failure (`putOk`) occurs |
| `CacheStorage.Store.Match` | app/sw.js:26 | `caches.match` over the store's own fields: `MatchIn` of its creation order and caches |
| `CacheStorage.MatchIn` | app/sw.js:26 | the lookup finds something iff some cache holds the URL, and then it is that URL's entry in the earliest-created cache holding it |
| `CacheStorage.MatchCongruent` | app/sw.js:26 | a lookup depends only on which caches hold the URL and what they hold for it |
| `CacheStorage.MatchOnlyHolder` | app/sw.js:26 | when exactly one cache holds a URL, the lookup returns that cache's entry |
| `CacheStorage.OpenOrder` | app/sw.js:13 | after `caches.open` the old creation order is a prefix of the new one, the name is in it, and it grew by one exactly when the name was new |
| `CacheStorage.OpenCaches` | app/sw.js:13 | `caches.open` adds the name (as an empty cache when new) and changes no existing cache |
| `CacheStorage.MatchAfterOpen` | app/sw.js:46 | opening a cache changes no lookup |
| `CacheStorage.OpenKeepsWellFormed` | app/sw.js:13 | opening a cache keeps every existing cache named exactly once in the creation order |
| `CacheStorage.MatchAppendEmpty` | app/sw.js:13 | a new empty cache placed last answers no lookup |
| `CacheStorage.PutIn` | app/sw.js:50 | `cache.put` changes only the named cache, and in it only the URL's entry, which becomes the response |
| `CacheStorage.MatchOtherAfterPut` | app/sw.js:50 | a put for one URL changes no lookup of any other URL |
| `CacheStorage.MatchAfterPutOnMiss` | app/sw.js:50 | after a miss, a put into an existing cache makes the lookup return exactly the response put |
| `CacheStorage.PutAll` | app/sw.js:15 | adding a URL list gives a cache whose keys are the old keys plus the listed URLs, each listed URL mapped to its fetched response and every other entry kept |
| `CacheStorage.PutAllIdempotent` | app/sw.js:15 | with a deterministic network, adding the same list again changes nothing |
| `CacheStorage.AddAllTwice` | app/sw.js:13-15 | opening a cache and adding the same list again with the same network leaves the creation order and every cache as the first time left them |
| `CacheStorage.SeedLookups` | app/sw.js:13-15 | adding a list changes no lookup of unlisted URLs, and a listed URL no cache held is then answered as fetched |
| `CacheStorage.Store.Open` | app/sw.js:13 | `caches.open`: an absent cache is created empty and last; no lookup changes |
| `CacheStorage.Store.Put` | app/sw.js:50 | `cache.put`: exactly that entry of that cache is set; other URLs' lookups are unchanged; a former miss now returns the response |
| `CacheStorage.Store.AddAll` | app/sw.js:15 | `cache.addAll` succeeds iff every fetch is received with status 200-299 and not 206; then every response is stored, else nothing changes |
| `ServiceWorker.OpenAndAddAll` | app/sw.js:13-16 | opening then adding: new state given exactly, unlisted URLs' lookups unchanged, and listed URLs no cache held are answered as fetched |
| `ServiceWorker.Install` | app/sw.js:11-18 | install succeeds iff every seed fetch is received with status 200-299 and not 206; `"v3"` then holds each seed URL with its response, all other caches are untouched, and lookups of other URLs do not change |
| `ServiceWorker.StoreAndReturn` | app/sw.js:46-59 | the store-on-miss tail: a failed open, fetch or put (including a 206 response, which put rejects) gives the failure response; a failed open leaves the store unchanged, and a later failure leaves it as `caches.open('v3')` left it, which is unchanged when `'v3'` already existed; otherwise `'v3'` maps the request to the fetched response, which is returned; no other URL's lookup changes |
| `ServiceWorker.HandleFetch` | app/sw.js:20-62 | hit: the stored response, no fetch, store unchanged; miss with a rejected first fetch: failure response, store unchanged; miss with first status 404: the lookup of `/my404.html`, or the failure response when that lookup rejects, store unchanged; other status: open failure gives the failure response with the store unchanged, else a second fetch whose response is stored under the request in `'v3'` (only that entry changes) and returned, or the failure response if it fails, is a 206 or the put fails; `None` only when the 404 fallback page is in no cache |
| `ServiceWorker.HandleFetchOnce` | app/sw.js:36-59 | the single fetched response does both jobs: a rejection gives the failure response and a 404 gives the fallback lookup (the failure response when it rejects), each with the store unchanged; otherwise a failed open gives the failure response with the store unchanged, else the fetched response is stored under the request in `'v3'` (only that entry changes) and returned, or the failure response if the put fails; so a miss never stores a 404 from the network and never returns a 404 other than the fallback page's lookup |
| `ServiceWorker.DoubleFetchStoresNotFound` | app/sw.js:36-53 | as written, a miss whose first fetch is 200 and second is 404 returns the 404 and stores it for the request |
| `ServiceWorker.NoOlderHolder` | app/sw.js:41 | every cache other than the given one that holds the URL was created after it, so `caches.match` reaches the given cache first |
| `ServiceWorker.InstalledFallback` | app/sw.js:5-15 | after a successful install, whether or not `"v3"` already held `/my404.html`, the lookup of that page returns the freshly seeded response, provided no generation created before `"v3"` holds it (later ones may) |
| `ServiceWorker.SeededFallbackServed` | app/sw.js:5-59 | after a successful install on storage where no generation created before `"v3"` holds the fallback page (re-installing over a `"v3"` that holds it, and later generations that hold it, included), a miss answered 404 returns the seeded `/my404.html` response, and the failure response when that lookup rejects |
| `ServiceWorker.InstallTwice` | app/sw.js:13-15 | a second install with the same network succeeds exactly when the first did and leaves the storage exactly as one install leaves it |
| `ServiceWorker.StoredThenServed` | app/sw.js:26-53 | a request stored on a miss is served next time as the same response with no network call, and the storage stays as the first request left it: only the request's entry in `'v3'` was added (and `'v3'`, empty, when it was absent) |

## Findings

| source | as written | input that shows it | evidently intended | confidence | as-written member | corrected member |
|---|---|---|---|---|---|---|
| app/sw.js:36-53 | the 404 test reads the first fetch, but the response stored and returned comes from a second fetch of the same request | a miss whose first fetch answers 200 and whose second answers 404: the 404 is returned and cached, so every later request for that URL gets the 404 from the cache | one fetch whose response both decides the not-found fallback and is the one stored and returned | medium, not executed | `ServiceWorker.DoubleFetchStoresNotFound` | `ServiceWorker.HandleFetchOnce` |

`HandleFetch` stays the model of the handler as written. It is the one the install and
replay scenarios drive. `HandleFetchOnce` is the corrected handler. It shares the
store-on-miss tail (`StoreAndReturn`) with `HandleFetch`.

## Left out

- `app/register-sw.js`: registering the worker is a browser call with a log
  callback on success or failure.
- The activate handler (`app/sw.js:65-67`): it only logs. The model does not invent
  the deletion of old generations, because the code has none.
- Logging, `event.waitUntil`, `event.respondWith` and `self.addEventListener`. Each
  handler is one sequential step over the store. Promise interleaving between
  concurrent requests is not modelled.
- Request and response objects: headers, request methods, `Vary`, and single-use
  bodies. A request is its URL and a response is a status and a body, so
  `response.clone()` is the identity.
- The lifecycle consequence of a failed install (the browser discards the worker).
  `Install` only reports `installed`.
- What happens when the first `caches.match` rejects. No `.catch` is attached to it,
  and the Cache API internals are not part of this model.
- `CacheStorage.Store.AddAll`: does not model the rejection of duplicate requests. The seed list has
  none.
- `ServiceWorker.Install`: does not model a failing `caches.open` or a storage failure
  (quota) during `addAll`. Only fetch outcomes can make install fail.
- `ServiceWorker.HandleFetch`: models the rejection of a 206 response by `cache.put`,
  but collapses every other reason why `caches.open` or `cache.put` can reject (quota,
  a `Vary: *` header) into the two booleans `openOk` and `putOk`.
