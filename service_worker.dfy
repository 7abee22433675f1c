/**
 * The offline service worker: which requests it answers and with which
 * caching strategy, the removal of old caches on activation, and the
 * three strategies (cache first for the app's static files, network first
 * with an offline answer for the API, stale-while-revalidate for the rest).
 *
 * URL parsing is outside: a request carries its URL, protocol and path.
 * The network is a parameter (nothing when the fetch fails). The three
 * caches of this version are fields; the other caches of the origin are
 * known by name only.
 */
module ServiceWorker {
  import opened Common
  import opened Strings

  const CacheVersion: string := "v1.0.0"
  const StaticCache: string := "emanuai-static-" + CacheVersion
  const DynamicCache: string := "emanuai-dynamic-" + CacheVersion
  const DataCache: string := "emanuai-data-" + CacheVersion

  /** The app shell stored at install. */
  const StaticAssets: seq<string> := ["/", "/index.html", "/manifest.json", "/icons/icon-192x192.png", "/icons/icon-512x512.png"]

  /** Path fragments of the API, answered network first. */
  const ApiPatterns: seq<string> := ["/functions/v1/ai-assistant", "/rest/v1/"]

  /** File extensions answered cache first. */
  const StaticExtensions: seq<string> := [".js", ".css", ".png", ".jpg", ".jpeg", ".svg", ".woff", ".woff2", ".ico"]

  datatype Request = Request(httpMethod: string, url: string, protocol: string, pathname: string)

  datatype Response = Response(status: int, body: string, contentType: Option<string>)

  /** `response.ok`. */
  predicate Ok(r: Response)
  {
    200 <= r.status <= 299
  }

  /** The path holds one of the API fragments. */
  predicate IsApi(path: string)
  {
    exists i :: 0 <= i < |ApiPatterns| && Contains(path, ApiPatterns[i])
  }

  /** `isStaticAsset`: a listed extension, or the root or index page. */
  predicate IsStaticAsset(path: string)
  {
    (exists i :: 0 <= i < |StaticExtensions| && EndsWith(path, StaticExtensions[i]))
    || path == "/" || path == "/index.html"
  }

  datatype Strategy = NotHandled | NetworkFirst | CacheFirst | StaleWhileRevalidate

  /** The fetch handler's choice; the API check comes before the static check. */
  function Route(req: Request): (s: Strategy)
    ensures s == NotHandled <==> req.httpMethod != "GET" || !StartsWith(req.protocol, "http")
    ensures s == NetworkFirst <==> s != NotHandled && IsApi(req.pathname)
    ensures s == CacheFirst <==> s != NotHandled && !IsApi(req.pathname) && IsStaticAsset(req.pathname)
    ensures s == StaleWhileRevalidate <==> s != NotHandled && !IsApi(req.pathname) && !IsStaticAsset(req.pathname)
  {
    if req.httpMethod != "GET" then NotHandled
    else if !StartsWith(req.protocol, "http") then NotHandled
    else if IsApi(req.pathname) then NetworkFirst
    else if IsStaticAsset(req.pathname) then CacheFirst
    else StaleWhileRevalidate
  }

  /** A script under the REST API is still answered network first: the API check wins. */
  lemma ApiBeforeStatic(req: Request)
    requires req.httpMethod == "GET" && StartsWith(req.protocol, "http")
    requires StartsWith(req.pathname, "/rest/v1/") && EndsWith(req.pathname, ".js")
    ensures IsStaticAsset(req.pathname) && Route(req) == NetworkFirst
  {
    ContainsAt(req.pathname, ApiPatterns[1], 0);
    assert EndsWith(req.pathname, StaticExtensions[0]);
  }

  /** The app's pages and files are served cache first over http and https. */
  lemma ShellIsCacheFirst(req: Request)
    requires req.httpMethod == "GET" && (req.protocol == "https:" || req.protocol == "http:")
    requires req.pathname == "/" || req.pathname == "/index.html"
    ensures Route(req) == CacheFirst
  {
    assert StartsWith(req.protocol, "http") by {
      assert req.protocol[..4] == "http";
    }
    forall i | 0 <= i < |ApiPatterns| ensures !Contains(req.pathname, ApiPatterns[i]) {
      assert ApiPatterns[0][11] == 'v' && ApiPatterns[1][6] == 'v';
      MissingCharNoContain(req.pathname, ApiPatterns[i], 'v');
    }
  }

  /** A text without a character of a fragment does not hold the fragment. */
  lemma {:induction false} MissingCharNoContain(s: string, sub: string, c: char)
    requires c in sub && c !in s
    ensures !Contains(s, sub)
    decreases |s|
  {
    if |s| > 0 {
      assert c !in s[1..];
      MissingCharNoContain(s[1..], sub, c);
    }
  }

  /** A cache activation deletes: one of this app's, but not of the current version. */
  predicate Obsolete(name: string)
  {
    StartsWith(name, "emanuai-") && name != StaticCache && name != DynamicCache && name != DataCache
  }

  /** The caches left after activation. */
  function AfterActivate(names: seq<string>): (r: seq<string>)
    ensures forall n :: n in r <==> n in names && !Obsolete(n)
  {
    Filter(names, (n: string) => !Obsolete(n))
  }

  /** The current caches and every cache of another app survive activation. */
  lemma ActivateKeeps(names: seq<string>, n: string)
    requires n in names
    ensures n == StaticCache || n == DynamicCache || n == DataCache || !StartsWith(n, "emanuai-") ==> n in AfterActivate(names)
  {
  }

  /** Deleting and keeping split the cache names between them. */
  lemma ActivatePartition(names: seq<string>)
    ensures |AfterActivate(names)| + |Filter(names, Obsolete)| == |names|
  {
    FilterPartition(names, (n: string) => !Obsolete(n), Obsolete);
  }

  const OfflineAsset: Response := Response(503, "Offline - asset not cached", None)
  const Offline: Response := Response(503, "Offline", None)
  /** The JSON answer for the assistant while offline. */
  const OfflineAssistant: Response := Response(
    503,
    "{\"error\":\"offline\",\"message\":\"Jste offline. AI asistent vy\U{017E}aduje p\U{0159}ipojen\U{00ED} k internetu.\"}",
    Some("application/json"))

  /** `caches.open`: the named cache is created when missing. */
  function Opened(names: seq<string>, name: string): (r: seq<string>)
    ensures name in r && forall n :: n in names ==> n in r
    ensures name in names ==> r == names
    ensures forall n :: n in r ==> n in names || n == name
  {
    if name in names then names else names + [name]
  }

  /** The cache after `addAll`: each fetched URL in turn stored over what was there. */
  function Stored(entries: map<string, Response>, urls: seq<string>, network: string -> Option<Response>): map<string, Response>
  {
    if |urls| == 0 then entries
    else
      var before := Stored(entries, urls[..|urls| - 1], network);
      var u := urls[|urls| - 1];
      if network(u).Some? then before[u := network(u).value] else before
  }

  /** `cache.addAll` once every fetch has succeeded: the responses are stored in order. */
  method AddAll(entries: map<string, Response>, urls: seq<string>, network: string -> Option<Response>) returns (added: map<string, Response>)
    requires forall i :: 0 <= i < |urls| ==> network(urls[i]).Some?
    ensures added == Stored(entries, urls, network)
  {
    added := entries;
    var i := 0;
    while i < |urls|
      invariant 0 <= i <= |urls|
      invariant added == Stored(entries, urls[..i], network)
    {
      assert urls[..i + 1][..i] == urls[..i];
      added := added[urls[i] := network(urls[i]).value];
      i := i + 1;
    }
    assert urls[..i] == urls;
  }

  /** `addAll` adds exactly the fetched URLs, each with its own response, and keeps the rest. */
  lemma {:induction false} StoredShape(entries: map<string, Response>, urls: seq<string>, network: string -> Option<Response>)
    ensures forall u :: u in Stored(entries, urls, network) <==> u in entries || (u in urls && network(u).Some?)
    ensures forall u :: u in urls && network(u).Some? ==> Stored(entries, urls, network)[u] == network(u).value
    ensures forall u :: u in entries && !(u in urls && network(u).Some?) ==> Stored(entries, urls, network)[u] == entries[u]
  {
    if |urls| > 0 {
      var init := urls[..|urls| - 1];
      StoredShape(entries, init, network);
      assert urls == init + [urls[|urls| - 1]];
      assert forall u :: u in urls <==> u in init || u == urls[|urls| - 1];
    }
  }

  /** The worker's caches and the names of all caches of the origin. */
  class Worker {
    var staticEntries: map<string, Response>
    var dynamicEntries: map<string, Response>
    var dataEntries: map<string, Response>
    var cacheNames: seq<string>

    /** Only successful responses are ever stored. */
    predicate Valid()
      reads this
    {
      (forall u :: u in staticEntries ==> Ok(staticEntries[u]))
      && (forall u :: u in dynamicEntries ==> Ok(dynamicEntries[u]))
      && (forall u :: u in dataEntries ==> Ok(dataEntries[u]))
    }

    /** `caches.match`: the first cache holding the URL, looked up in the order static, dynamic, data. */
    function Match(url: string): (r: Option<Response>)
      reads this
      ensures r.Some? <==> url in staticEntries || url in dynamicEntries || url in dataEntries
      ensures Valid() && r.Some? ==> Ok(r.value)
    {
      if url in staticEntries then Some(staticEntries[url])
      else if url in dynamicEntries then Some(dynamicEntries[url])
      else if url in dataEntries then Some(dataEntries[url])
      else None
    }

    constructor (existing: seq<string>)
      ensures staticEntries == map[] && dynamicEntries == map[] && dataEntries == map[]
      ensures cacheNames == existing && Valid()
    {
      staticEntries := map[];
      dynamicEntries := map[];
      dataEntries := map[];
      cacheNames := existing;
    }

    /** `install`: the shell is stored only when every asset is fetched successfully (`addAll`). */
    method Install(network: string -> Option<Response>) returns (installed: bool)
      requires Valid()
      modifies this
      ensures Valid()
      ensures installed <==> forall i :: 0 <= i < |StaticAssets| ==> network(StaticAssets[i]).Some? && Ok(network(StaticAssets[i]).value)
      ensures installed ==> forall i :: 0 <= i < |StaticAssets| ==> StaticAssets[i] in staticEntries && staticEntries[StaticAssets[i]] == network(StaticAssets[i]).value
      ensures installed ==> forall u :: u in staticEntries <==> u in old(staticEntries) || u in StaticAssets
      ensures !installed ==> staticEntries == old(staticEntries)
      ensures dynamicEntries == old(dynamicEntries) && dataEntries == old(dataEntries)
      ensures cacheNames == Opened(old(cacheNames), StaticCache)
    {
      cacheNames := Opened(cacheNames, StaticCache);
      installed := forall i :: 0 <= i < |StaticAssets| ==> network(StaticAssets[i]).Some? && Ok(network(StaticAssets[i]).value);
      if installed {
        var added := AddAll(staticEntries, StaticAssets, network);
        StoredShape(staticEntries, StaticAssets, network);
        staticEntries := added;
      }
    }

    /** `activate`: every obsolete cache is deleted. */
    method Activate()
      modifies this
      ensures cacheNames == AfterActivate(old(cacheNames))
      ensures staticEntries == old(staticEntries) && dynamicEntries == old(dynamicEntries) && dataEntries == old(dataEntries)
    {
      cacheNames := AfterActivate(cacheNames);
    }

    /**
     * `cacheFirst`: a cached response is returned as is; otherwise the
     * network's, stored when successful; a failed fetch gives a 503.
     */
    method ServeCacheFirst(req: Request, network: Option<Response>) returns (resp: Response)
      requires Valid()
      modifies this
      ensures Valid()
      ensures old(Match(req.url)).Some? ==> resp == old(Match(req.url)).value && staticEntries == old(staticEntries)
      ensures old(Match(req.url)).None? && network.Some? ==> resp == network.value
      ensures old(Match(req.url)).None? && network.None? ==> resp == OfflineAsset && staticEntries == old(staticEntries)
      ensures old(Match(req.url)).None? && network.Some? ==>
        staticEntries == if Ok(network.value) then old(staticEntries)[req.url := network.value] else old(staticEntries)
      ensures cacheNames == if old(Match(req.url)).None? && network.Some? && Ok(network.value)
                            then Opened(old(cacheNames), StaticCache) else old(cacheNames)
      ensures dynamicEntries == old(dynamicEntries) && dataEntries == old(dataEntries)
    {
      var cached := Match(req.url);
      if cached.Some? {
        return cached.value;
      }
      if network.None? {
        return OfflineAsset;
      }
      resp := network.value;
      if Ok(resp) {
        cacheNames := Opened(cacheNames, StaticCache);
        staticEntries := staticEntries[req.url := resp];
      }
    }

    /**
     * `networkFirstWithFallback`: the network's answer, stored when
     * successful; offline, the cached one, else the assistant's JSON 503 or
     * a plain 503.
     */
    method ServeNetworkFirst(req: Request, network: Option<Response>) returns (resp: Response)
      requires Valid()
      modifies this
      ensures Valid()
      ensures network.Some? ==> resp == network.value
      ensures network.Some? ==> dataEntries == if Ok(network.value) then old(dataEntries)[req.url := network.value] else old(dataEntries)
      ensures network.None? ==> dataEntries == old(dataEntries)
      ensures network.None? && old(Match(req.url)).Some? ==> resp == old(Match(req.url)).value
      ensures network.None? && old(Match(req.url)).None? ==>
        resp == if Contains(req.url, "ai-assistant") then OfflineAssistant else Offline
      ensures cacheNames == if network.Some? && Ok(network.value) then Opened(old(cacheNames), DataCache) else old(cacheNames)
      ensures staticEntries == old(staticEntries) && dynamicEntries == old(dynamicEntries)
    {
      if network.Some? {
        resp := network.value;
        if Ok(resp) {
          cacheNames := Opened(cacheNames, DataCache);
          dataEntries := dataEntries[req.url := resp];
        }
        return;
      }
      var cached := Match(req.url);
      if cached.Some? {
        return cached.value;
      }
      resp := if Contains(req.url, "ai-assistant") then OfflineAssistant else Offline;
    }

    /**
     * `staleWhileRevalidate`, on the dynamic cache only: a cached response
     * is returned at once while the network's refreshes the cache; without
     * one the network's answer is returned, and a failed fetch leaves no
     * response at all.
     */
    method ServeStaleWhileRevalidate(req: Request, network: Option<Response>) returns (resp: Option<Response>)
      requires Valid()
      modifies this
      ensures Valid()
      ensures req.url in old(dynamicEntries) ==> resp == Some(old(dynamicEntries)[req.url])
      ensures req.url !in old(dynamicEntries) ==> resp == network
      ensures dynamicEntries == if network.Some? && Ok(network.value) then old(dynamicEntries)[req.url := network.value] else old(dynamicEntries)
      ensures staticEntries == old(staticEntries) && dataEntries == old(dataEntries)
      ensures cacheNames == Opened(old(cacheNames), DynamicCache)
    {
      cacheNames := Opened(cacheNames, DynamicCache);
      var cached := if req.url in dynamicEntries then Some(dynamicEntries[req.url]) else None;
      if network.Some? && Ok(network.value) {
        dynamicEntries := dynamicEntries[req.url := network.value];
      }
      resp := if cached.Some? then cached else network;
    }
  }
}
