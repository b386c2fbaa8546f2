/** The service worker of public/sw.js: the cache names, what `install`
    precaches, how `activate` prunes old caches, and how `fetch` routes a
    request to one of three strategies. The CacheStorage is a map from cache
    name to a map from request URL to response, plus the order in which the
    caches were created, which decides what `caches.match` finds first. The
    network is an input: the response a fetch would get, or `None` when it
    fails. */
module ServiceWorker {
  import opened Wrappers

  const CacheVersion := "v1"
  const StaticCache := "static-" + CacheVersion
  const RuntimeCache := "runtime-" + CacheVersion
  const OfflineUrl := "/offline"

  /** The list handed to `cache.addAll` on install. */
  const Precache: seq<string> := ["/", OfflineUrl, "/favicon.ico", "/favicon.svg",
                                  "/apple-touch-icon.png", "/web-app-manifest-512x512.png", "/favicon-96x96.png"]

  /** An opaque response; `ok` is its 2xx flag, which `addAll` requires. */
  datatype Response = Response(ok: bool, id: nat)

  /** A request as the handler reads it: method, mode, URL (the cache key),
      its pathname (as the URL parser reports it) and destination. URLs, here
      and in the install list, are written relative to the worker's origin, as
      `addAll` and `caches.match` resolve them. */
  datatype Request = Request(httpMethod: string, mode: string, url: string, path: string, destination: string)

  datatype Strategy = Passthrough | NetworkFirst | CacheFirst(cache: string)

  /** What the `fetch` listener does: leave the request to the browser, or
      answer it (`None` is `respondWith` given `undefined`). */
  datatype Reply = NotHandled | RespondWith(response: Option<Response>)

  predicate StartsWith(s: string, prefix: string) {
    |prefix| <= |s| && s[..|prefix|] == prefix
  }

  /** A static asset: under `/_next/static/`, or a style, script, image or font. */
  predicate StaticAsset(r: Request) {
    StartsWith(r.path, "/_next/static/") || r.destination in ["style", "script", "image", "font"]
  }

  /** Lines 41-80: non-GET requests are not intercepted; navigations go
      network-first even when they also look static; static assets go
      cache-first into the static cache, everything else cache-first into the
      runtime cache. */
  function Classify(r: Request): (s: Strategy)
    ensures s.Passthrough? <==> r.httpMethod != "GET"
    ensures s.NetworkFirst? <==> r.httpMethod == "GET" && r.mode == "navigate"
    ensures s == CacheFirst(StaticCache) <==> r.httpMethod == "GET" && r.mode != "navigate" && StaticAsset(r)
    ensures s == CacheFirst(RuntimeCache) <==> r.httpMethod == "GET" && r.mode != "navigate" && !StaticAsset(r)
  {
    if r.httpMethod != "GET" then Passthrough
    else if r.mode == "navigate" then NetworkFirst
    else if StaticAsset(r) then CacheFirst(StaticCache)
    else CacheFirst(RuntimeCache)
  }

  predicate Current(name: string) {
    name == StaticCache || name == RuntimeCache
  }

  /** The filter of line 30: the keys other than the two current cache names,
      in their order. */
  function Obsolete(keys: seq<string>): (r: seq<string>)
    ensures forall k :: k in r <==> k in keys && !Current(k)
    ensures |r| <= |keys|
  {
    if keys == [] then []
    else if Current(keys[0]) then Obsolete(keys[1..])
    else [keys[0]] + Obsolete(keys[1..])
  }

  /** `keys` without the members of `gone`, in order. */
  function Without(keys: seq<string>, gone: set<string>): (r: seq<string>)
    ensures forall k :: k in r <==> k in keys && k !in gone
  {
    if keys == [] then []
    else if keys[0] in gone then Without(keys[1..], gone)
    else [keys[0]] + Without(keys[1..], gone)
  }

  ghost predicate NoDuplicates(s: seq<string>) {
    forall i, j :: 0 <= i < j < |s| ==> s[i] != s[j]
  }

  lemma {:induction false} WithoutNoDuplicates(keys: seq<string>, gone: set<string>)
    requires NoDuplicates(keys)
    ensures NoDuplicates(Without(keys, gone))
  {
    if keys != [] {
      assert NoDuplicates(keys[1..]) by {
        forall i, j | 0 <= i < j < |keys[1..]| ensures keys[1..][i] != keys[1..][j] {
          assert keys[1..][i] == keys[i + 1] && keys[1..][j] == keys[j + 1];
        }
      }
      WithoutNoDuplicates(keys[1..], gone);
      if keys[0] !in gone {
        assert keys[0] !in keys[1..];
        var r := Without(keys[1..], gone);
        forall i, j | 0 <= i < j < |[keys[0]] + r| ensures ([keys[0]] + r)[i] != ([keys[0]] + r)[j] {
          if i == 0 { assert ([keys[0]] + r)[j] == r[j - 1]; assert r[j - 1] in r; }
          else { assert ([keys[0]] + r)[i] == r[i - 1] && ([keys[0]] + r)[j] == r[j - 1]; }
        }
      }
    }
  }

  lemma {:induction false} WithoutNothing(keys: seq<string>)
    ensures Without(keys, {}) == keys
  {
    if keys != [] {
      WithoutNothing(keys[1..]);
      assert [keys[0]] + keys[1..] == keys;
    }
  }

  lemma {:induction false} WithoutSnoc(keys: seq<string>, gone: set<string>, k: string)
    ensures Without(keys, gone + {k}) == Without(Without(keys, gone), {k})
  {
    if keys != [] {
      WithoutSnoc(keys[1..], gone, k);
    }
  }

  /** `caches.match(url)`: the entry of the first cache, in creation order,
      that holds `url`. */
  function MatchIn(caches: map<string, map<string, Response>>, order: seq<string>, url: string): (r: Option<Response>)
    ensures r.Some? ==> exists i :: 0 <= i < |order| && order[i] in caches && url in caches[order[i]] &&
                                    r.value == caches[order[i]][url] &&
                                    forall j :: 0 <= j < i ==> !(order[j] in caches && url in caches[order[j]])
    ensures r.None? ==> forall i :: 0 <= i < |order| ==> !(order[i] in caches && url in caches[order[i]])
  {
    if order == [] then None
    else if order[0] in caches && url in caches[order[0]] then Some(caches[order[0]][url])
    else
      assert forall j :: 1 <= j < |order| ==> order[j] == order[1..][j - 1];
      MatchIn(caches, order[1..], url)
  }

  /** `cache.put(url, response)` on the named cache, creating it if needed. */
  function Stored(caches: map<string, map<string, Response>>, name: string, url: string, resp: Response):
    (r: map<string, map<string, Response>>)
    ensures r.Keys == caches.Keys + {name}
    ensures url in r[name] && r[name][url] == resp
    ensures forall u :: u in r[name] && u != url ==> name in caches && u in caches[name] && r[name][u] == caches[name][u]
    ensures forall n :: n in caches && n != name ==> r[n] == caches[n]
  {
    var prior := if name in caches then caches[name] else map[];
    caches[name := prior[url := resp]]
  }

  /** Whatever a later `put` into the runtime cache does, a URL the static
      cache holds is still answered from the static cache while that cache was
      created first, as the install creates it: a navigation that later falls
      back to the cache gets the precached copy, not the newer runtime one. */
  lemma StaticShadowsRuntime(caches: map<string, map<string, Response>>, order: seq<string>,
                             url: string, resp: Response)
    requires |order| > 0 && order[0] == StaticCache && StaticCache in caches && url in caches[StaticCache]
    ensures MatchIn(Stored(caches, RuntimeCache, url, resp), order, url) == Some(caches[StaticCache][url])
  {
  }

  /** After a `put`, matching the URL finds something. */
  lemma PutThenMatch(caches: map<string, map<string, Response>>, order: seq<string>,
                     name: string, url: string, resp: Response)
    requires name in order
    ensures MatchIn(Stored(caches, name, url, resp), order, url).Some?
  {
    var r := Stored(caches, name, url, resp);
    var i :| 0 <= i < |order| && order[i] == name;
    assert order[i] in r && url in r[order[i]];
  }

  /** Every URL of the install list is fetched and 2xx. */
  predicate PrecacheAvailable(net: map<string, Response>) {
    forall u :: u in Precache ==> u in net && net[u].ok
  }

  /** What `cache.addAll` writes when it succeeds. */
  function PrecacheEntries(net: map<string, Response>): (m: map<string, Response>)
    requires PrecacheAvailable(net)
    ensures m.Keys == set u | u in Precache
  {
    map u | u in Precache :: net[u]
  }

  /** The install list is seven URLs, the root and the offline page among
      them, and the two current cache names differ. */
  lemma InstallList()
    ensures |Precache| == 7 && "/" in Precache && OfflineUrl in Precache
    ensures StaticCache == "static-v1" && RuntimeCache == "runtime-v1" && StaticCache != RuntimeCache
  {
    assert Precache[0] == "/" && Precache[1] == OfflineUrl;
    assert StaticCache[0] != RuntimeCache[0];
  }

  /** The set of members of a sequence. */
  function Elements(s: seq<string>): (r: set<string>)
    ensures forall x :: x in r <==> x in s
  {
    if s == [] then {} else Elements(s[..|s| - 1]) + {s[|s| - 1]}
  }

  lemma ElementsSnoc(s: seq<string>, x: string)
    ensures Elements(s + [x]) == Elements(s) + {x}
  {
    assert (s + [x])[..|s|] == s;
  }

  lemma RemoveOneMore(m: map<string, map<string, Response>>, gone: set<string>, x: string)
    ensures (m - gone) - {x} == m - (gone + {x})
  {
  }

  /** Deleting `names[i]` after `names[..i]` deletes `names[..i + 1]`. */
  lemma DeleteStep(m: map<string, map<string, Response>>, keys: seq<string>, names: seq<string>, i: nat)
    requires i < |names|
    ensures (m - Elements(names[..i])) - {names[i]} == m - Elements(names[..i + 1])
    ensures Without(Without(keys, Elements(names[..i])), {names[i]}) == Without(keys, Elements(names[..i + 1]))
  {
    assert names[..i + 1] == names[..i] + [names[i]];
    ElementsSnoc(names[..i], names[i]);
    WithoutSnoc(keys, Elements(names[..i]), names[i]);
    RemoveOneMore(m, Elements(names[..i]), names[i]);
  }

  lemma KeepCurrent(m: map<string, map<string, Response>>, gone: set<string>)
    requires forall k :: k in m ==> (k in gone <==> !Current(k))
    ensures m - gone == map n | n in m && Current(n) :: m[n]
  {
  }

  class Worker {
    var caches: map<string, map<string, Response>>
    /** Cache names in creation order. */
    var order: seq<string>

    ghost predicate Valid()
      reads this
    {
      (forall k :: k in caches <==> k in order) && NoDuplicates(order)
    }

    function Match(url: string): Option<Response>
      reads this
    {
      MatchIn(caches, order, url)
    }

    constructor ()
      ensures Valid() && caches == map[] && order == []
    {
      caches, order := map[], [];
    }

    /** `caches.open(name)`: creates an empty cache at the end of the order
        when there is none. */
    method Open(name: string)
      requires Valid()
      modifies this
      ensures Valid()
      ensures name in old(caches) ==> caches == old(caches) && order == old(order)
      ensures name !in old(caches) ==> caches == old(caches)[name := map[]] && order == old(order) + [name]
    {
      if name !in caches {
        caches := caches[name := map[]];
        order := order + [name];
      }
    }

    /** `caches.open(name).then(cache => cache.put(url, resp))`. */
    method Put(name: string, url: string, resp: Response)
      requires Valid()
      modifies this
      ensures Valid()
      ensures caches == Stored(old(caches), name, url, resp)
      ensures order == if name in old(caches) then old(order) else old(order) + [name]
    {
      Open(name);
      caches := caches[name := caches[name][url := resp]];
    }

    /** The `install` listener: open the static cache and `addAll` the list,
        which stores all seven responses or, if any fetch fails or is not 2xx,
        none. `ok` says whether installation succeeds. */
    method Install(net: map<string, Response>) returns (ok: bool)
      requires Valid()
      modifies this
      ensures Valid()
      ensures ok <==> PrecacheAvailable(net)
      ensures StaticCache in caches
      ensures forall n :: n in old(caches) && n != StaticCache ==> n in caches && caches[n] == old(caches)[n]
      ensures caches.Keys == old(caches).Keys + {StaticCache}
      ensures order == if StaticCache in old(caches) then old(order) else old(order) + [StaticCache]
      ensures var before := if StaticCache in old(caches) then old(caches)[StaticCache] else map[];
              caches[StaticCache] == if ok then before + PrecacheEntries(net) else before
    {
      Open(StaticCache);
      ok := PrecacheAvailable(net);
      if ok {
        caches := caches[StaticCache := caches[StaticCache] + PrecacheEntries(net)];
      }
    }

    /** `caches.delete(name)`. */
    method Delete(name: string)
      requires Valid()
      modifies this
      ensures Valid()
      ensures caches == old(caches) - {name} && order == Without(old(order), {name})
    {
      WithoutNoDuplicates(order, {name});
      caches := caches - {name};
      order := Without(order, {name});
    }

    /** The `activate` listener: delete every cache but the two current ones,
        which are kept as they are, in their order. */
    method Activate()
      requires Valid()
      modifies this
      ensures Valid()
      ensures caches == map n | n in old(caches) && Current(n) :: old(caches)[n]
      ensures order == Without(old(order), set k | k in old(order) && !Current(k))
    {
      var doomed := Obsolete(order);
      DeleteAll(doomed);
      assert Elements(doomed) == set k | k in old(order) && !Current(k);
      KeepCurrent(old(caches), Elements(doomed));
    }

    /** `Promise.all(names.map(key => caches.delete(key)))`. */
    method DeleteAll(names: seq<string>)
      requires Valid()
      modifies this
      ensures Valid()
      ensures caches == old(caches) - Elements(names)
      ensures order == Without(old(order), Elements(names))
    {
      WithoutNothing(order);
      assert Elements(names[..0]) == {};
      var i := 0;
      while i < |names|
        invariant 0 <= i <= |names|
        invariant Valid()
        invariant caches == old(caches) - Elements(names[..i])
        invariant order == Without(old(order), Elements(names[..i]))
      {
        DeleteStep(old(caches), old(order), names, i);
        Delete(names[i]);
        i := i + 1;
      }
      assert names[..i] == names;
    }

    /** The `fetch` listener; `net` is what the network gives this request. */
    method HandleFetch(req: Request, net: Option<Response>) returns (reply: Reply)
      requires Valid()
      modifies this
      ensures Valid()
      ensures Classify(req).Passthrough? ==> reply == NotHandled && caches == old(caches) && order == old(order)
      ensures Classify(req).NetworkFirst? ==>
                reply == RespondWith(if net.Some? then net
                                     else if MatchIn(old(caches), old(order), req.url).Some?
                                     then MatchIn(old(caches), old(order), req.url)
                                     else MatchIn(old(caches), old(order), OfflineUrl)) &&
                caches == (if net.Some? then Stored(old(caches), RuntimeCache, req.url, net.value) else old(caches)) &&
                order == (if net.Some? && RuntimeCache !in old(caches) then old(order) + [RuntimeCache] else old(order))
      ensures Classify(req).CacheFirst? ==>
                reply == RespondWith(if MatchIn(old(caches), old(order), req.url).Some?
                                     then MatchIn(old(caches), old(order), req.url) else net) &&
                caches == (if net.Some? then Stored(old(caches), Classify(req).cache, req.url, net.value)
                           else old(caches)) &&
                order == (if net.Some? && Classify(req).cache !in old(caches)
                          then old(order) + [Classify(req).cache] else old(order))
    {
      var strategy := Classify(req);
      match strategy {
        case Passthrough =>
          reply := NotHandled;
        case NetworkFirst =>
          if net.Some? {
            Put(RuntimeCache, req.url, net.value);
            reply := RespondWith(net);
          } else {
            var cached := Match(req.url);
            if cached.Some? {
              reply := RespondWith(cached);
            } else {
              reply := RespondWith(Match(OfflineUrl));
            }
          }
        case CacheFirst(name) =>
          var cached := Match(req.url);
          if net.Some? {
            Put(name, req.url, net.value);
          }
          reply := RespondWith(if cached.Some? then cached else net);
      }
    }
  }
}
