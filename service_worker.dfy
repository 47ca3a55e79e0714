/**
 * The three handlers of public/sw.js, each run as one atomic step on the
 * browser's cache storage: `install` stores the application shell in the
 * current cache generation, `fetch` goes to the network first and falls back
 * to the caches, and `activate` deletes every cache of an older generation.
 */
module ServiceWorker {
  import opened Wrappers
  import opened Sequences
  import opened CacheApi

  /** The current cache generation. */
  const CACHE_NAME: string := "appV1"

  /** The application shell stored on install. */
  const PRECACHE_URLS: seq<string> := ["/manifest.json", "/static/js/bundle.js", "/index.html", "/"]

  const OFFLINE_TEXT: string := "You are offline and this content is not cached."

  /** `new Response(text)`: status 200 unless told otherwise. */
  const OFFLINE_RESPONSE: Response := Response(200, OFFLINE_TEXT)

  // ---------------------------------------------------------------- install

  /** The storage after `install`: the current cache exists, and holds the whole shell or none of it. */
  function Installed(s: Storage, net: string -> FetchResult): (r: Storage)
    ensures WellFormed(s) ==> WellFormed(r)
    ensures CACHE_NAME in r.caches
    ensures AllFetchedOk(PRECACHE_URLS, net) ==>
              forall i :: 0 <= i < |PRECACHE_URLS| ==>
                Lookup(r, CACHE_NAME, PRECACHE_URLS[i]) == Some(net(PRECACHE_URLS[i]).response)
    ensures !AllFetchedOk(PRECACHE_URLS, net) ==> forall n, u :: Lookup(r, n, u) == Lookup(s, n, u)
    ensures forall n, u :: (n != CACHE_NAME || u !in PRECACHE_URLS) ==> Lookup(r, n, u) == Lookup(s, n, u)
  {
    AddedAll(Opened(s, CACHE_NAME), CACHE_NAME, PRECACHE_URLS, net)
  }

  /**
   * The `install` handler. A failed `addAll` is caught and logged, so the
   * handler never rejects; `logged` says whether the error was logged.
   */
  method Install(caches: CacheStorage, net: string -> FetchResult) returns (logged: bool)
    requires caches.Valid()
    modifies caches
    ensures caches.Valid()
    ensures logged == !AllFetchedOk(PRECACHE_URLS, net)
    ensures caches.State() == Installed(old(caches.State()), net)
  {
    caches.Open(CACHE_NAME);
    var added := caches.AddAll(CACHE_NAME, PRECACHE_URLS, net);
    logged := !added;
  }

  /** Install stores all four shell entries or leaves every cache entry as it was. */
  lemma InstallAllOrNothing(s: Storage, net: string -> FetchResult)
    ensures || (forall i :: 0 <= i < |PRECACHE_URLS| ==>
                  Lookup(Installed(s, net), CACHE_NAME, PRECACHE_URLS[i]).Some?)
            || (forall n, u :: Lookup(Installed(s, net), n, u) == Lookup(s, n, u))
    ensures (forall i :: 0 <= i < |PRECACHE_URLS| ==>
               Lookup(Installed(s, net), CACHE_NAME, PRECACHE_URLS[i]) == Some(net(PRECACHE_URLS[i]).response))
            <== AllFetchedOk(PRECACHE_URLS, net)
  {
  }

  /** One shell URL answered with a partial (206) response: `addAll` rejects, the error is logged, nothing is stored. */
  lemma PartialShellRejected(s: Storage)
    ensures var net := (u: string) => if u == "/" then Fetched(Response(206, "")) else Fetched(Response(200, ""));
            && !AllFetchedOk(PRECACHE_URLS, net)
            && forall n, u :: Lookup(Installed(s, net), n, u) == Lookup(s, n, u)
  {
    var net := (u: string) => if u == "/" then Fetched(Response(206, "")) else Fetched(Response(200, ""));
    assert PRECACHE_URLS[3] == "/";
    assert net(PRECACHE_URLS[3]).response.status == 206;
  }

  // ------------------------------------------------------------------ fetch

  /** What the `fetch` handler answers, and the storage it leaves. */
  datatype Reply = Reply(response: Response, state: Storage)

  /**
   * The `fetch` handler: network first; a network response is returned and
   * put into the current cache; on a network error the caches are searched,
   * and the offline response is the last resort, so the handler never rejects.
   */
  function FetchReply(s: Storage, request: Request, outcome: FetchResult): (r: Reply)
    ensures outcome.Fetched? ==> r.response == outcome.response
    ensures outcome.Fetched? ==> CACHE_NAME in r.state.caches
    ensures outcome.Fetched? && Storable(request, outcome.response) ==>
              Lookup(r.state, CACHE_NAME, request.url) == Some(outcome.response)
    ensures outcome.Fetched? ==>
              forall n, u :: (n != CACHE_NAME || u != request.url || !Storable(request, outcome.response)) ==>
                Lookup(r.state, n, u) == Lookup(s, n, u)
    ensures outcome.NetworkError? ==> r.state == s
    ensures WellFormed(s) ==> WellFormed(r.state)
  {
    match outcome
    case Fetched(response) =>
      Reply(response, Stored(Opened(s, CACHE_NAME), CACHE_NAME, request, response))
    case NetworkError =>
      match MatchIn(s, request)
      case Some(cached) => Reply(cached, s)
      case None => Reply(OFFLINE_RESPONSE, s)
  }

  /**
   * Offline, a GET request that some cache holds is answered from the first
   * cache in creation order that holds it, whatever its generation; any other
   * request gets the offline response.
   */
  lemma FetchOffline(s: Storage, request: Request)
    requires WellFormed(s)
    ensures request.verb == "GET" && (exists n :: Lookup(s, n, request.url).Some?) ==>
              exists i :: 0 <= i < |s.names| &&
                Lookup(s, s.names[i], request.url) == Some(FetchReply(s, request, NetworkError).response) &&
                forall k :: 0 <= k < i ==> Lookup(s, s.names[k], request.url).None?
    ensures request.verb != "GET" || (forall n :: Lookup(s, n, request.url).None?) ==>
              FetchReply(s, request, NetworkError).response == OFFLINE_RESPONSE
  {
    MatchSpec(s, request);
  }

  /** The fallback hits a cache of an older generation when only that one holds the URL. */
  lemma MatchSearchesEveryCache()
    ensures var stale := Response(200, "v0");
            var s := Storage(["appV0", CACHE_NAME], map["appV0" := map["/menu" := stale], CACHE_NAME := map[]]);
            && WellFormed(s)
            && FetchReply(s, Request("GET", "/menu"), NetworkError).response == stale
  {
    var stale := Response(200, "v0");
    var s := Storage(["appV0", CACHE_NAME], map["appV0" := map["/menu" := stale], CACHE_NAME := map[]]);
    assert Lookup(s, "appV0", "/menu") == Some(stale);
  }

  /** The `fetch` handler, run as one step: `response` is what `respondWith` receives. */
  method HandleFetch(caches: CacheStorage, request: Request, outcome: FetchResult) returns (response: Response)
    requires caches.Valid()
    modifies caches
    ensures caches.Valid()
    ensures response == FetchReply(old(caches.State()), request, outcome).response
    ensures caches.State() == FetchReply(old(caches.State()), request, outcome).state
  {
    match outcome
    case Fetched(fetched) =>
      caches.Open(CACHE_NAME);
      var _ := caches.Put(CACHE_NAME, request, fetched);
      response := fetched;
    case NetworkError =>
      var cached := caches.Match(request);
      if cached.Some? {
        response := cached.value;
      } else {
        response := OFFLINE_RESPONSE;
      }
  }

  // --------------------------------------------------------------- activate

  /** The names among `ns` that `activate` deletes. */
  function Stale(ns: seq<string>): set<string>
  {
    set n | n in ns && n != CACHE_NAME
  }

  /** The storage after `activate` has visited the names `ns`, in this order. */
  function DeleteStale(s: Storage, ns: seq<string>): (r: Storage)
    ensures WellFormed(s) ==> WellFormed(r)
    ensures forall u :: Lookup(r, CACHE_NAME, u) == Lookup(s, CACHE_NAME, u)
    decreases |ns|
  {
    if ns == [] then s
    else
      var before := DeleteStale(s, ns[..|ns| - 1]);
      var name := ns[|ns| - 1];
      if name != CACHE_NAME then Deleted(before, name) else before
  }

  /** One more visited name: the storage that deleting it, when it is stale, leaves is the next `DeleteStale`. */
  lemma DeleteStaleStep(s: Storage, ns: seq<string>, i: nat, before: Storage, after: Storage)
    requires i < |ns|
    requires before == DeleteStale(s, ns[..i])
    requires after == if ns[i] != CACHE_NAME then Deleted(before, ns[i]) else before
    ensures after == DeleteStale(s, ns[..i + 1])
  {
    assert ns[..i + 1][..i] == ns[..i];
  }

  /** Visiting `ns` is deleting, all at once, the stale names among them. */
  lemma {:induction false} DeleteStaleShape(s: Storage, ns: seq<string>)
    ensures DeleteStale(s, ns) == Storage(Keep(s.names, Stale(ns)), s.caches - Stale(ns))
    decreases |ns|
  {
    if ns == [] {
      KeepNothing(s.names);
      assert Stale(ns) == {};
      assert s.caches - {} == s.caches;
    } else {
      var init, name := ns[..|ns| - 1], ns[|ns| - 1];
      assert ns == init + [name];
      DeleteStaleShape(s, init);
      if name != CACHE_NAME {
        assert Stale(ns) == Stale(init) + {name};
        KeepTwice(s.names, Stale(init), {name});
        assert s.caches - Stale(init) - {name} == s.caches - Stale(ns);
      } else {
        assert Stale(ns) == Stale(init);
      }
    }
  }

  /** The storage after `activate`, which visits `caches.keys()`. */
  function Activated(s: Storage): Storage
  {
    DeleteStale(s, s.names)
  }

  /**
   * After `activate` only the current generation is left, if it existed,
   * with its contents unchanged.
   */
  lemma ActivatedSpec(s: Storage)
    requires WellFormed(s)
    ensures WellFormed(Activated(s))
    ensures forall n :: n in Activated(s).caches <==> n == CACHE_NAME && n in s.caches
    ensures Activated(s).names == if CACHE_NAME in s.caches then [CACHE_NAME] else []
    ensures forall u :: Lookup(Activated(s), CACHE_NAME, u) == Lookup(s, CACHE_NAME, u)
  {
    var r := Activated(s);
    DeleteStaleShape(s, s.names);
    forall n
      ensures n in r.names <==> n == CACHE_NAME && n in s.names
    {
      KeepMembership(s.names, Stale(s.names), n);
    }
    OnlyElement(r.names, CACHE_NAME);
  }

  /** Running `activate` a second time changes nothing. */
  lemma ActivateIdempotent(s: Storage)
    ensures Activated(Activated(s)) == Activated(s)
  {
    var r := Activated(s);
    DeleteStaleShape(s, s.names);
    forall n | n in r.names
      ensures n == CACHE_NAME
    {
      KeepMembership(s.names, Stale(s.names), n);
    }
    assert Stale(r.names) == {};
    DeleteStaleShape(r, r.names);
    KeepNothing(r.names);
    assert r.caches - {} == r.caches;
  }

  /** After `activate`, the offline fallback can only answer from the current generation. */
  lemma MatchAfterActivate(s: Storage, request: Request)
    requires WellFormed(s)
    ensures MatchIn(Activated(s), request) ==
              if request.verb == "GET" then Lookup(s, CACHE_NAME, request.url) else None
  {
    ActivatedSpec(s);
    var r := Activated(s);
    if CACHE_NAME in s.caches {
      assert r.names[1..] == [];
      assert FirstHit(r.names, r, request.url) == Lookup(r, CACHE_NAME, request.url);
    }
  }

  /** The callback `activate` maps over the names: it deletes the name unless it is the current generation. */
  method DeleteIfStale(caches: CacheStorage, name: string) returns (deleted: bool)
    requires caches.Valid()
    modifies caches
    ensures caches.Valid()
    ensures deleted <==> name != CACHE_NAME && name in old(caches.caches)
    ensures caches.State() == if name != CACHE_NAME then Deleted(old(caches.State()), name) else old(caches.State())
  {
    deleted := false;
    if name != CACHE_NAME {
      deleted := caches.Delete(name);
    }
  }

  /** The `activate` handler: runs the callback on every name of `caches.keys()`, in order. */
  method Activate(caches: CacheStorage)
    requires caches.Valid()
    modifies caches
    ensures caches.Valid()
    ensures caches.State() == Activated(old(caches.State()))
  {
    ghost var s0 := caches.State();
    var cacheNames := caches.names;
    var i := 0;
    while i < |cacheNames|
      invariant 0 <= i <= |cacheNames|
      invariant caches.Valid()
      invariant caches.State() == DeleteStale(s0, cacheNames[..i])
    {
      ghost var before := caches.State();
      var _ := DeleteIfStale(caches, cacheNames[i]);
      DeleteStaleStep(s0, cacheNames, i, before, caches.State());
      i := i + 1;
    }
    assert cacheNames[..i] == cacheNames;
  }

}
