/** service-worker.js: the cache store as a state machine (install fills
    the static cache, activate evicts foreign caches, fetch goes to the
    network first and falls back on the caches, CACHE_URLS pre-warms the
    dynamic cache), and the push and notification-click decisions. */
module ServiceWorker {
  import opened Wrappers
  import JsStrings

  /** Declared by the worker but never used to open or keep a cache. */
  const CACHE_NAME: string := "world-connect-v1.0.0"
  const STATIC_CACHE: string := "world-connect-static-v1"
  const DYNAMIC_CACHE: string := "world-connect-dynamic-v1"

  /** The application shell that install stores. */
  const STATIC_FILES: seq<string> := [
    "/", "/index.html", "/manifest.json", "/wc.png",
    "/js/config.js", "/js/utils.js", "/js/auth.js", "/js/messages.js",
    "/js/posts.js", "/js/admin.js", "/js/app.js",
    "https://cdn.tailwindcss.com",
    "https://unpkg.com/lucide@latest",
    "https://cdn.jsdelivr.net/npm/@supabase/supabase-js@2.38.4/dist/umd/supabase.min.js"
  ]

  /** The document served when a page navigation finds nothing. */
  const OFFLINE_PAGE: string := "/index.html"

  /** A network answer; `varyAll` says its Vary header lists `*`. */
  datatype Response = Response(status: int, varyAll: bool, body: string)

  /** Response.ok: a status in the range 200 to 299. */
  predicate IsOk(r: Response) {
    200 <= r.status <= 299
  }

  /** A response Cache.addAll stores: an ok status that is not a partial
      (206) answer, and no `Vary: *` header. Any other response makes the
      whole batch reject. */
  predicate AddAllAccepts(r: Response) {
    IsOk(r) && r.status != 206 && !r.varyAll
  }

  datatype Request = Request(verb: string, url: string, destination: string)

  /** One named cache: request URL to stored response. */
  type Cache = map<string, Response>

  /** The outcome of fetch(url) for every URL: None when the promise
      rejects (no network), otherwise the response, whatever its status. */
  type Network = string -> Option<Response>

  predicate AllFetchedOk(urls: seq<string>, net: Network) {
    forall u :: u in urls ==> net(u).Some? && AddAllAccepts(net(u).value)
  }

  /** Cache.addAll: fetches every URL; when all answer with a response
      addAll accepts and no URL is named twice (a repeated request makes the batch throw
      InvalidStateError) every response is stored, otherwise the batch
      rejects (None) and nothing is stored. */
  function AddAll(c: Cache, urls: seq<string>, net: Network): (r: Option<Cache>)
    ensures r.Some? <==> AllFetchedOk(urls, net) && Distinct(urls)
    ensures r.Some? ==> r.value.Keys == c.Keys + (set u | u in urls)
    ensures r.Some? ==> forall u :: u in urls ==> r.value[u] == net(u).value
    ensures r.Some? ==> forall k :: k in c && k !in urls ==> r.value[k] == c[k]
  {
    if AllFetchedOk(urls, net) && Distinct(urls) then
      Some(c + map u | u in urls && net(u).Some? :: net(u).value)
    else None
  }

  /** The static cache after install: the shell added to what it held,
      or left as it was when any shell file failed to load. */
  function Installed(c: Cache, net: Network): (r: Cache)
    ensures AllFetchedOk(STATIC_FILES, net) ==> r.Keys == c.Keys + (set u | u in STATIC_FILES)
    ensures AllFetchedOk(STATIC_FILES, net) ==> forall u :: u in STATIC_FILES ==> r[u] == net(u).value
    ensures !AllFetchedOk(STATIC_FILES, net) ==> r == c
    ensures forall k :: k in c && k !in STATIC_FILES ==> k in r && r[k] == c[k]
  {
    StaticFilesDistinct();
    AddAll(c, STATIC_FILES, net).GetOr(c)
  }

  /** Opening the static cache and then adding the shell to it leaves the
      store with the installed static cache. */
  lemma InstallStore(store: map<string, Cache>, net: Network)
    ensures var c := OpenedCache(store, STATIC_CACHE);
            var s := store[STATIC_CACHE := c];
            s[STATIC_CACHE := AddAll(s[STATIC_CACHE], STATIC_FILES, net).GetOr(s[STATIC_CACHE])]
              == store[STATIC_CACHE := Installed(c, net)]
  {
  }

  /** Opening a cache and then adding a batch to it leaves the store with
      the batch added to the opened cache. */
  lemma OpenThenAddAll(store: map<string, Cache>, name: string, urls: seq<string>, net: Network)
    ensures var c := OpenedCache(store, name);
            var s := store[name := c];
            s[name := AddAll(s[name], urls, net).GetOr(s[name])] == store[name := AddAll(c, urls, net).GetOr(c)]
  {
  }

  /** The shell names no file twice, so its batch is never refused for a
      repeated request. */
  lemma StaticFilesDistinct()
    ensures Distinct(STATIC_FILES)
  {
  }

  /** caches.keys() after caches.open(name): a new name goes last. */
  function OpenedNames(names: seq<string>, name: string): (r: seq<string>)
    ensures name in r && (forall n :: n in names ==> n in r)
    ensures forall n :: n in r ==> n in names || n == name
  {
    if name in names then names else names + [name]
  }

  /** The cache caches.open(name) hands out: the existing one, or a new
      empty one. */
  function OpenedCache(store: map<string, Cache>, name: string): (c: Cache)
    ensures name in store ==> c == store[name]
    ensures name !in store ==> c == map[]
  {
    if name in store then store[name] else map[]
  }

  /** cache.put(url, response) on the cache named `name`, created first:
      that entry now holds `response`, and every other entry of every
      cache is as before. */
  function StoreAfterPut(store: map<string, Cache>, name: string, url: string, response: Response): (r: map<string, Cache>)
    ensures r.Keys == store.Keys + {name}
    ensures url in r[name] && r[name][url] == response
    ensures r[name].Keys == OpenedCache(store, name).Keys + {url}
    ensures forall k :: k in OpenedCache(store, name) && k != url ==> r[name][k] == store[name][k]
    ensures forall n :: n in store && n != name ==> r[n] == store[n]
  {
    store[name := OpenedCache(store, name)[url := response]]
  }

  /** Index i is the first cache, in creation order, that holds `url`. */
  predicate FirstHolder(names: seq<string>, store: map<string, Cache>, url: string, i: int)
    requires forall n :: n in names ==> n in store
  {
    && 0 <= i < |names|
    && url in store[names[i]]
    && forall j :: 0 <= j < i ==> url !in store[names[j]]
  }

  /** caches.match(url): searches the caches in creation order and
      answers from the first one that holds the URL. */
  function Match(names: seq<string>, store: map<string, Cache>, url: string): (r: Option<Response>)
    requires forall n :: n in names ==> n in store
    ensures r.None? <==> forall i :: 0 <= i < |names| ==> url !in store[names[i]]
    ensures r.Some? ==> exists i :: FirstHolder(names, store, url, i) && r.value == store[names[i]][url]
  {
    if names == [] then None
    else if url in store[names[0]] then
      assert FirstHolder(names, store, url, 0);
      Some(store[names[0]][url])
    else
      var r := Match(names[1..], store, url);
      MatchStep(names, store, url, r);
      r
  }

  lemma MatchStep(names: seq<string>, store: map<string, Cache>, url: string, r: Option<Response>)
    requires forall n :: n in names ==> n in store
    requires names != [] && url !in store[names[0]]
    requires r.None? <==> forall i :: 0 <= i < |names| - 1 ==> url !in store[names[1..][i]]
    requires r.Some? ==> exists i :: FirstHolder(names[1..], store, url, i) && r.value == store[names[1..][i]][url]
    ensures r.None? <==> forall i :: 0 <= i < |names| ==> url !in store[names[i]]
    ensures r.Some? ==> exists i :: FirstHolder(names, store, url, i) && r.value == store[names[i]][url]
  {
    if r.Some? {
      var i :| FirstHolder(names[1..], store, url, i) && r.value == store[names[1..][i]][url];
      assert FirstHolder(names, store, url, i + 1);
    } else {
      forall i | 0 <= i < |names| ensures url !in store[names[i]] {
        if i > 0 { assert names[i] == names[1..][i - 1]; }
      }
    }
  }

  datatype FetchOutcome =
    | PassThrough                             // not intercepted: the browser fetches on its own
    | FromNetwork(response: Response)         // the network answered; a clone went to the dynamic cache
    | CacheHit(response: Response)            // no network; a cache held the request
    | OfflineFallback(page: Option<Response>) // no network, nothing cached, a page navigation
    | NoResponse                              // no network, nothing cached, anything else

  predicate Intercepted(req: Request) {
    req.verb == "GET" && !JsStrings.Contains(req.url, "supabase.co")
  }

  /** The response the fetch listener settles on, given the cache store
      and the outcome of the network fetch. */
  function Route(names: seq<string>, store: map<string, Cache>, req: Request, net: Option<Response>): (o: FetchOutcome)
    requires forall n :: n in names ==> n in store
    ensures o.PassThrough? <==> !Intercepted(req)
    ensures Intercepted(req) && net.Some? ==> o == FromNetwork(net.value)
    ensures Intercepted(req) && net.None? && Match(names, store, req.url).Some? ==>
              o == CacheHit(Match(names, store, req.url).value)
    ensures o.OfflineFallback? <==>
              Intercepted(req) && net.None? && Match(names, store, req.url).None? && req.destination == "document"
    ensures o.OfflineFallback? ==> o.page == Match(names, store, OFFLINE_PAGE)
    ensures o.NoResponse? <==>
              Intercepted(req) && net.None? && Match(names, store, req.url).None? && req.destination != "document"
  {
    if req.verb != "GET" then PassThrough
    else if JsStrings.Contains(req.url, "supabase.co") then PassThrough
    else match net
      case Some(response) => FromNetwork(response)
      case None =>
        match Match(names, store, req.url)
        case Some(cached) => CacheHit(cached)
        case None =>
          if req.destination == "document" then OfflineFallback(Match(names, store, OFFLINE_PAGE))
          else NoResponse
  }

  predicate IsCurrent(name: string) {
    name == STATIC_CACHE || name == DYNAMIC_CACHE
  }

  /** The names that survive activation, in their original order. */
  function Survivors(names: seq<string>): (r: seq<string>)
    ensures forall n :: n in r <==> n in names && IsCurrent(n)
  {
    if names == [] then []
    else (if IsCurrent(names[0]) then [names[0]] else []) + Survivors(names[1..])
  }

  lemma {:induction false} SurvivorsSnoc(names: seq<string>, n: string)
    ensures Survivors(names + [n]) == Survivors(names) + (if IsCurrent(n) then [n] else [])
  {
    if names != [] {
      assert (names + [n])[1..] == names[1..] + [n];
      SurvivorsSnoc(names[1..], n);
    }
  }

  /** The list with every occurrence of `name` taken out. */
  function Without(names: seq<string>, name: string): (r: seq<string>)
    ensures forall n :: n in r <==> n in names && n != name
  {
    if names == [] then []
    else (if names[0] == name then [] else [names[0]]) + Without(names[1..], name)
  }

  lemma {:induction false} WithoutAppend(a: seq<string>, b: seq<string>, name: string)
    ensures Without(a + b, name) == Without(a, name) + Without(b, name)
  {
    if a != [] {
      assert (a + b)[1..] == a[1..] + b;
      WithoutAppend(a[1..], b, name);
    } else {
      assert a + b == b;
    }
  }

  lemma {:induction false} WithoutAbsent(names: seq<string>, name: string)
    requires name !in names
    ensures Without(names, name) == names
  {
    if names != [] {
      WithoutAbsent(names[1..], name);
    }
  }

  predicate Distinct(names: seq<string>) {
    forall i, j :: 0 <= i < j < |names| ==> names[i] != names[j]
  }

  datatype Action = Action(action: string, title: string)

  datatype Notification = Notification(
    title: string, body: string, icon: string, badge: string, tag: string,
    data: map<string, string>, actions: seq<Action>,
    requireInteraction: bool, vibrate: seq<int>)

  /** A parsed push payload; only the fields the worker reads are kept.
      JOther is any JSON value that is neither null nor an object. */
  datatype Json =
    | JNull
    | JObject(title: Option<string>, body: Option<string>, tag: Option<string>, data: Option<map<string, string>>)
    | JOther

  /** event.data: the payload text, parsed; None when it is not JSON. */
  datatype PushData = PushData(json: Option<Json>)

  const DEFAULT_NOTIFICATION := Notification(
    "World Connect", "Vous avez un nouveau message", "/wc.png", "/wc.png", "world-connect",
    map[], [Action("open", "Ouvrir"), Action("close", "Fermer")], false, [200, 100, 200])

  /** The notification the push listener shows, or None when the listener
      throws before showing one: json() on a payload that is not JSON,
      or reading a field of the JSON value null. */
  function PushNotification(data: Option<PushData>): (n: Option<Notification>)
    ensures n.None? <==> data.Some? && (data.value.json.None? || data.value.json.value.JNull?)
    ensures n.Some? ==> n.value.icon == "/wc.png" && n.value.badge == "/wc.png"
    ensures n.Some? ==> n.value.actions == [Action("open", "Ouvrir"), Action("close", "Fermer")]
    ensures n.Some? ==> !n.value.requireInteraction && n.value.vibrate == [200, 100, 200]
    ensures n.Some? && (data.None? || data.value.json.value.JOther?) ==> n.value == DEFAULT_NOTIFICATION
    ensures n.Some? && data.Some? && data.value.json.value.JObject? ==>
              var j := data.value.json.value;
              && n.value.title == JsStrings.OrElse(j.title, "World Connect")
              && n.value.body == JsStrings.OrElse(j.body, "Vous avez un nouveau message")
              && n.value.tag == JsStrings.OrElse(j.tag, "world-connect")
              && n.value.data == j.data.GetOr(map[])
  {
    match data
    case None => Some(DEFAULT_NOTIFICATION)
    case Some(PushData(json)) =>
      match json
      case None => None
      case Some(JNull) => None
      case Some(JOther) => Some(DEFAULT_NOTIFICATION)
      case Some(JObject(title, body, tag, bag)) =>
        Some(DEFAULT_NOTIFICATION.(
          title := JsStrings.OrElse(title, "World Connect"),
          body := JsStrings.OrElse(body, "Vous avez un nouveau message"),
          tag := JsStrings.OrElse(tag, "world-connect"),
          data := bag.GetOr(map[])))
  }

  datatype ClickDecision = ClickDecision(closeNotification: bool, openWindow: Option<string>)

  /** notificationclick: the notification is always closed; a window at
      '/' is created for the 'open' button or a click on the body (empty
      action), and for nothing else. */
  function NotificationClick(action: string): (d: ClickDecision)
    ensures d.closeNotification
    ensures d.openWindow.Some? <==> action == "open" || action == ""
    ensures d.openWindow.Some? ==> d.openWindow.value == "/"
  {
    ClickDecision(true, if action == "open" || action == "" then Some("/") else None)
  }

  /** A message posted by a page; urls is None when the message has none. */
  datatype ClientMessage = ClientMessage(msgType: string, urls: Option<seq<string>>)

  /** The worker's cache store: caches.keys() in creation order, and the
      contents of each cache. */
  class CacheStorage {
    var names: seq<string>
    var store: map<string, Cache>

    ghost predicate Valid()
      reads this
    {
      Distinct(names) && forall n :: n in store <==> n in names
    }

    constructor ()
      ensures Valid() && names == [] && store == map[]
    {
      names := [];
      store := map[];
    }

    /** caches.open(name). */
    method Open(name: string)
      requires Valid()
      modifies this
      ensures Valid()
      ensures names == OpenedNames(old(names), name)
      ensures store == old(store)[name := OpenedCache(old(store), name)]
    {
      if name !in store {
        names := names + [name];
        store := store[name := map[]];
      }
    }

    /** caches.delete(name). */
    method Delete(name: string)
      requires Valid()
      modifies this
      ensures Valid()
      ensures names == Without(old(names), name)
      ensures store == old(store) - {name}
    {
      WithoutDistinct(names, name);
      names := Without(names, name);
      store := store - {name};
    }

    /** install: opens the static cache and adds the shell to it. A failed
        addAll is caught and logged, so the static cache then stays as
        caches.open left it. */
    method Install(net: Network)
      requires Valid()
      modifies this
      ensures Valid()
      ensures names == OpenedNames(old(names), STATIC_CACHE)
      ensures store == old(store)[STATIC_CACHE := Installed(OpenedCache(old(store), STATIC_CACHE), net)]
    {
      ghost var before := store;
      Open(STATIC_CACHE);
      AddAllTo(STATIC_CACHE, STATIC_FILES, net);
      InstallStore(before, net);
    }

    /** cache.addAll(urls) on the open cache `name`; a rejected batch
        leaves the cache as it was. */
    method AddAllTo(name: string, urls: seq<string>, net: Network)
      requires Valid() && name in store
      modifies this
      ensures Valid() && names == old(names)
      ensures store == old(store)[name := AddAll(old(store)[name], urls, net).GetOr(old(store)[name])]
    {
      var added := AddAll(store[name], urls, net);
      if added.Some? {
        store := store[name := added.value];
      }
    }

    /** activate: deletes every cache whose name is neither the static
        nor the dynamic cache name; the survivors keep their order and
        their contents. */
    method Activate()
      requires Valid()
      modifies this
      ensures Valid()
      ensures names == Survivors(old(names))
      ensures forall n :: n in store <==> n in old(store) && IsCurrent(n)
      ensures forall n :: n in store ==> store[n] == old(store)[n]
      ensures CACHE_NAME !in store
    {
      var cacheNames := names;
      var i := 0;
      while i < |cacheNames|
        invariant 0 <= i <= |cacheNames|
        invariant Valid()
        invariant names == Survivors(cacheNames[..i]) + cacheNames[i..]
        invariant forall n :: n in store ==> n in old(store) && store[n] == old(store)[n]
      {
        DeleteIfStale(cacheNames, i);
        i := i + 1;
      }
      assert cacheNames[..i] == cacheNames;
      assert !IsCurrent(CACHE_NAME);
    }

    /** One round of activate's loop: the i-th name of the snapshot is
        deleted unless it is the static or the dynamic cache. */
    method DeleteIfStale(cacheNames: seq<string>, i: int)
      requires Valid() && Distinct(cacheNames) && 0 <= i < |cacheNames|
      requires names == Survivors(cacheNames[..i]) + cacheNames[i..]
      modifies this
      ensures Valid()
      ensures names == Survivors(cacheNames[..i + 1]) + cacheNames[i + 1..]
      ensures store == if IsCurrent(cacheNames[i]) then old(store) else old(store) - {cacheNames[i]}
    {
      ActivateStep(cacheNames, i);
      if !IsCurrent(cacheNames[i]) {
        Delete(cacheNames[i]);
      }
    }

    /** caches.open(name) followed by cache.put(url, response). */
    method Put(name: string, url: string, response: Response)
      requires Valid()
      modifies this
      ensures Valid()
      ensures names == OpenedNames(old(names), name)
      ensures store == StoreAfterPut(old(store), name, url, response)
    {
      Open(name);
      store := store[name := store[name][url := response]];
    }

    /** fetch: the routing decision of Route; only a network answer
        changes the store, by putting a clone of the response into the
        dynamic cache under the request URL. */
    method Fetch(req: Request, net: Option<Response>) returns (o: FetchOutcome)
      requires Valid()
      modifies this
      ensures Valid()
      ensures o == Route(old(names), old(store), req, net)
      ensures o.FromNetwork? ==> names == OpenedNames(old(names), DYNAMIC_CACHE)
      ensures o.FromNetwork? ==> store == StoreAfterPut(old(store), DYNAMIC_CACHE, req.url, o.response)
      ensures !o.FromNetwork? ==> names == old(names) && store == old(store)
    {
      if req.verb != "GET" {
        return PassThrough;
      }
      if JsStrings.Contains(req.url, "supabase.co") {
        return PassThrough;
      }
      match net {
        case Some(response) =>
          var responseClone := response;
          Put(DYNAMIC_CACHE, req.url, responseClone);
          o := FromNetwork(response);
        case None =>
          var cachedResponse := Match(names, store, req.url);
          if cachedResponse.Some? {
            o := CacheHit(cachedResponse.value);
          } else if req.destination == "document" {
            o := OfflineFallback(Match(names, store, OFFLINE_PAGE));
          } else {
            o := NoResponse;
          }
      }
    }

    /** message: SKIP_WAITING asks for immediate activation; CACHE_URLS
        opens the dynamic cache and adds the listed URLs to it (a failed
        addAll leaves it as created). Other messages change nothing. */
    method OnMessage(data: Option<ClientMessage>, net: Network) returns (skipWaiting: bool)
      requires Valid()
      modifies this
      ensures Valid()
      ensures skipWaiting <==> data.Some? && data.value.msgType == "SKIP_WAITING"
      ensures !(data.Some? && data.value.msgType == "CACHE_URLS") ==> names == old(names) && store == old(store)
      ensures data.Some? && data.value.msgType == "CACHE_URLS" ==> names == OpenedNames(old(names), DYNAMIC_CACHE)
      ensures data.Some? && data.value.msgType == "CACHE_URLS" ==>
                var created := OpenedCache(old(store), DYNAMIC_CACHE);
                var added := if data.value.urls.Some? then AddAll(created, data.value.urls.value, net) else None;
                store == old(store)[DYNAMIC_CACHE := added.GetOr(created)]
    {
      skipWaiting := data.Some? && data.value.msgType == "SKIP_WAITING";
      if data.Some? && data.value.msgType == "CACHE_URLS" {
        Open(DYNAMIC_CACHE);
        var urls := data.value.urls;
        if urls.Some? {
          ghost var before := old(store);
          AddAllTo(DYNAMIC_CACHE, urls.value, net);
          OpenThenAddAll(before, DYNAMIC_CACHE, urls.value, net);
        }
      }
    }
  }

  lemma {:induction false} WithoutDistinct(names: seq<string>, name: string)
    requires Distinct(names)
    ensures Distinct(Without(names, name))
  {
    if names != [] {
      WithoutDistinct(names[1..], name);
      assert names[0] !in names[1..] by {
        forall k | 0 <= k < |names| - 1 ensures names[1..][k] != names[0] {
          assert names[1..][k] == names[k + 1];
        }
      }
      var rest := Without(names[1..], name);
      if names[0] != name {
        var r := [names[0]] + rest;
        forall i, j | 0 <= i < j < |r| ensures r[i] != r[j] {
          if i == 0 {
            assert r[j] == rest[j - 1];
          } else {
            assert r[i] == rest[i - 1] && r[j] == rest[j - 1];
          }
        }
      } else {
        assert Without(names, name) == rest;
      }
    }
  }

  lemma DropAbsent(a: seq<string>, name: string, b: seq<string>)
    requires name !in a && name !in b
    ensures Without(a + ([name] + b), name) == a + b
  {
    var tail := [name] + b;
    assert tail[0] == name && tail[1..] == b;
    assert Without(tail, name) == Without(b, name);
    WithoutAbsent(b, name);
    WithoutAppend(a, tail, name);
    WithoutAbsent(a, name);
  }

  /** One round of activate's loop: removing a stale name from the list
      the loop maintains leaves the survivors of one more name. */
  lemma ActivateStep(cacheNames: seq<string>, i: int)
    requires Distinct(cacheNames) && 0 <= i < |cacheNames|
    ensures Survivors(cacheNames[..i + 1]) + cacheNames[i + 1..] ==
              if IsCurrent(cacheNames[i]) then Survivors(cacheNames[..i]) + cacheNames[i..]
              else Without(Survivors(cacheNames[..i]) + cacheNames[i..], cacheNames[i])
  {
    var name := cacheNames[i];
    var pre := Survivors(cacheNames[..i]);
    var post := cacheNames[i + 1..];
    assert cacheNames[..i + 1] == cacheNames[..i] + [name];
    SurvivorsSnoc(cacheNames[..i], name);
    assert cacheNames[i..] == [name] + post;
    if !IsCurrent(name) {
      assert name !in post by {
        forall k | i + 1 <= k < |cacheNames| ensures cacheNames[k] != name {
        }
      }
      DropAbsent(pre, name, post);
    } else {
      assert pre + [name] + post == pre + ([name] + post);
    }
  }

  /** After the network answered a request, the same request made
      offline is answered from the caches and never falls back; it gets
      the fresh response unless a cache created before the dynamic one
      already held the URL. */
  lemma OfflineAfterOnline(names: seq<string>, store: map<string, Cache>, req: Request, response: Response)
    requires Distinct(names) && forall n :: n in store <==> n in names
    requires Intercepted(req)
    ensures var names' := OpenedNames(names, DYNAMIC_CACHE);
            var store' := StoreAfterPut(store, DYNAMIC_CACHE, req.url, response);
            && Route(names', store', req, None).CacheHit?
            && ((forall i, d :: 0 <= i < d < |names'| && names'[d] == DYNAMIC_CACHE ==> req.url !in store'[names'[i]]) ==>
                  Route(names', store', req, None) == CacheHit(response))
  {
    var names' := OpenedNames(names, DYNAMIC_CACHE);
    var store' := StoreAfterPut(store, DYNAMIC_CACHE, req.url, response);
    var d :| 0 <= d < |names'| && names'[d] == DYNAMIC_CACHE;
    assert req.url in store'[names'[d]];
    var m := Match(names', store', req.url);
    assert m.Some?;
    if forall i, d :: 0 <= i < d < |names'| && names'[d] == DYNAMIC_CACHE ==> req.url !in store'[names'[i]] {
      MatchAt(names', store', req.url, d);
    }
  }

  /** The cache at index d answers caches.match when none before it
      holds the URL. */
  lemma MatchAt(names: seq<string>, store: map<string, Cache>, url: string, d: int)
    requires forall n :: n in names ==> n in store
    requires 0 <= d < |names| && url in store[names[d]]
    requires forall i :: 0 <= i < d ==> url !in store[names[i]]
    ensures Match(names, store, url) == Some(store[names[d]][url])
  {
    var m := Match(names, store, url);
    var i :| FirstHolder(names, store, url, i) && m.value == store[names[i]][url];
    assert i == d;
  }
}
