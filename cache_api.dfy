/**
 * The part of the browser's Cache API that public/sw.js relies on, after the
 * W3C Service Workers specification: section 5.4 (Cache: `put`, `addAll`)
 * and section 5.5 (CacheStorage: `open`, `match`, `keys`, `delete`).
 * Storage keeps its cache names in creation order, because `match` searches
 * the caches in that order. A cache maps a request URL to its response.
 */
module CacheApi {
  import opened Wrappers
  import opened Sequences

  datatype Request = Request(verb: string, url: string)

  datatype Response = Response(status: int, body: string)

  /** What the network gives back for one request: a response (of any status) or a network error. */
  datatype FetchResult = Fetched(response: Response) | NetworkError

  type Cache = map<string, Response>

  /** The name to cache map: the names in creation order, and the cache of each name. */
  datatype Storage = Storage(names: seq<string>, caches: map<string, Cache>)

  /** The names are distinct and are exactly the caches that exist. */
  ghost predicate WellFormed(s: Storage)
  {
    && NoDuplicates(s.names)
    && (forall n :: n in s.names <==> n in s.caches)
  }

  /** The response stored for `url` in the cache called `name`, if any. */
  function Lookup(s: Storage, name: string, url: string): Option<Response>
  {
    if name in s.caches && url in s.caches[name] then Some(s.caches[name][url]) else None
  }

  /** `caches.open(name)`: the existing cache, or a new empty one added after the others. */
  function Opened(s: Storage, name: string): (r: Storage)
    ensures WellFormed(s) ==> WellFormed(r)
    ensures name in r.caches
    ensures name in s.caches ==> r == s
    ensures name !in s.caches ==> r.names == s.names + [name] && r.caches == s.caches[name := map[]]
    ensures forall n, u :: Lookup(r, n, u) == Lookup(s, n, u)
  {
    if name in s.caches then s else Storage(s.names + [name], s.caches[name := map[]])
  }

  /** `cache.put` rejects with a TypeError for a request other than GET and for a partial (206) response. */
  predicate Storable(request: Request, response: Response)
  {
    request.verb == "GET" && response.status != 206
  }

  /** `cache.put(request, response)` on the cache called `name`: a rejected put changes nothing. */
  function Stored(s: Storage, name: string, request: Request, response: Response): (r: Storage)
    requires name in s.caches
    ensures WellFormed(s) ==> WellFormed(r)
    ensures r.names == s.names
    ensures Storable(request, response) ==> Lookup(r, name, request.url) == Some(response)
    ensures forall n, u :: (n != name || u != request.url || !Storable(request, response)) ==>
              Lookup(r, n, u) == Lookup(s, n, u)
  {
    if Storable(request, response) then
      Storage(s.names, s.caches[name := s.caches[name][request.url := response]])
    else s
  }

  /** An ok status, 200 to 299. */
  predicate OkStatus(status: int)
  {
    200 <= status <= 299
  }

  /**
   * Every URL was fetched with an ok status other than 206, which `cache.addAll`
   * needs before it adds anything: it rejects a response that is not ok or is partial.
   */
  predicate AllFetchedOk(urls: seq<string>, net: string -> FetchResult)
  {
    forall i :: 0 <= i < |urls| ==>
      && net(urls[i]).Fetched?
      && OkStatus(net(urls[i]).response.status)
      && net(urls[i]).response.status != 206
  }

  /** `cache.addAll(urls)` on the cache called `name`: all the responses are added, or none. */
  function AddedAll(s: Storage, name: string, urls: seq<string>, net: string -> FetchResult): (r: Storage)
    requires name in s.caches
    ensures WellFormed(s) ==> WellFormed(r)
    ensures r.names == s.names
    ensures AllFetchedOk(urls, net) ==>
              forall i :: 0 <= i < |urls| ==> Lookup(r, name, urls[i]) == Some(net(urls[i]).response)
    ensures !AllFetchedOk(urls, net) ==> r == s
    ensures forall n, u :: (n != name || u !in urls) ==> Lookup(r, n, u) == Lookup(s, n, u)
  {
    if AllFetchedOk(urls, net) then
      var batch := map u | u in urls && net(u).Fetched? :: net(u).response;
      Storage(s.names, s.caches[name := s.caches[name] + batch])
    else s
  }

  /** `caches.delete(name)`: the name and its cache are gone; the other caches and their order stay. */
  function Deleted(s: Storage, name: string): (r: Storage)
    ensures WellFormed(s) ==> WellFormed(r)
    ensures name !in r.caches
    ensures r.names == Keep(s.names, {name})
    ensures r.caches.Keys == s.caches.Keys - {name}
    ensures forall n :: n in r.caches ==> r.caches[n] == s.caches[n]
    ensures forall n, u :: n != name ==> Lookup(r, n, u) == Lookup(s, n, u)
  {
    var r := Storage(Keep(s.names, {name}), s.caches - {name});
    assert WellFormed(s) ==> WellFormed(r) by {
      if WellFormed(s) {
        KeepNoDuplicates(s.names, {name});
        forall n
          ensures n in r.names <==> n in r.caches
        {
          KeepMembership(s.names, {name}, n);
        }
      }
    }
    r
  }

  /** The first cache, in creation order among `names`, that holds `url`. */
  function FirstHit(names: seq<string>, s: Storage, url: string): Option<Response>
  {
    if names == [] then None
    else if Lookup(s, names[0], url).Some? then Lookup(s, names[0], url)
    else FirstHit(names[1..], s, url)
  }

  /** `caches.match(request)`: searches every cache, in creation order; never matches a request other than GET. */
  function MatchIn(s: Storage, request: Request): Option<Response>
  {
    if request.verb != "GET" then None else FirstHit(s.names, s, request.url)
  }

  /** `FirstHit` finds an entry exactly when one of the named caches holds the URL, and it is the first such. */
  lemma {:induction false} FirstHitSpec(names: seq<string>, s: Storage, url: string)
    ensures FirstHit(names, s, url).None? <==> forall i :: 0 <= i < |names| ==> Lookup(s, names[i], url).None?
    ensures FirstHit(names, s, url).Some? ==>
              exists i :: 0 <= i < |names| && Lookup(s, names[i], url) == FirstHit(names, s, url) &&
                          forall k :: 0 <= k < i ==> Lookup(s, names[k], url).None?
  {
    if names != [] {
      FirstHitSpec(names[1..], s, url);
      if Lookup(s, names[0], url).None? {
        if FirstHit(names, s, url).Some? {
          var i :| 0 <= i < |names[1..]| && Lookup(s, names[1..][i], url) == FirstHit(names, s, url) &&
                   forall k :: 0 <= k < i ==> Lookup(s, names[1..][k], url).None?;
          assert Lookup(s, names[i + 1], url) == FirstHit(names, s, url);
          forall k | 0 <= k < i + 1
            ensures Lookup(s, names[k], url).None?
          {
            if k > 0 {
              assert names[k] == names[1..][k - 1];
            }
          }
        }
        forall i | 0 <= i < |names[1..]|
          ensures names[1..][i] == names[i + 1]
        {
        }
      } else {
        assert Lookup(s, names[0], url) == FirstHit(names, s, url);
      }
    }
  }

  /**
   * On well-formed storage, `match` of a GET request fails exactly when no cache
   * holds the URL, and otherwise answers with the first cache, in creation
   * order, that holds it.
   */
  lemma MatchSpec(s: Storage, request: Request)
    requires WellFormed(s)
    ensures MatchIn(s, request).None? <==>
              request.verb != "GET" || forall n :: Lookup(s, n, request.url).None?
    ensures MatchIn(s, request).Some? ==>
              exists i :: 0 <= i < |s.names| && Lookup(s, s.names[i], request.url) == MatchIn(s, request) &&
                          forall k :: 0 <= k < i ==> Lookup(s, s.names[k], request.url).None?
  {
    FirstHitSpec(s.names, s, request.url);
    if request.verb == "GET" && (exists n :: Lookup(s, n, request.url).Some?) {
      var n :| Lookup(s, n, request.url).Some?;
      assert n in s.names;
      var i :| 0 <= i < |s.names| && s.names[i] == n;
      assert Lookup(s, s.names[i], request.url).Some?;
    }
  }

  /** The browser's CacheStorage object, updated in place by its methods. */
  class CacheStorage {
    var names: seq<string>
    var caches: map<string, Cache>

    function State(): Storage
      reads this
    {
      Storage(names, caches)
    }

    ghost predicate Valid()
      reads this
    {
      WellFormed(State())
    }

    /** Storage with no caches. */
    constructor ()
      ensures Valid()
      ensures State() == Storage([], map[])
    {
      names := [];
      caches := map[];
    }

    method Open(name: string)
      requires Valid()
      modifies this
      ensures Valid()
      ensures State() == Opened(old(State()), name)
    {
      if name !in caches {
        names := names + [name];
        caches := caches[name := map[]];
      }
    }

    /** Returns whether the put was accepted. */
    method Put(name: string, request: Request, response: Response) returns (stored: bool)
      requires Valid() && name in caches
      modifies this
      ensures Valid()
      ensures stored == Storable(request, response)
      ensures State() == Stored(old(State()), name, request, response)
    {
      stored := Storable(request, response);
      if stored {
        caches := caches[name := caches[name][request.url := response]];
      }
    }

    /** Returns whether every fetch succeeded and the batch was added. */
    method AddAll(name: string, urls: seq<string>, net: string -> FetchResult) returns (added: bool)
      requires Valid() && name in caches
      modifies this
      ensures Valid()
      ensures added == AllFetchedOk(urls, net)
      ensures State() == AddedAll(old(State()), name, urls, net)
    {
      added := AllFetchedOk(urls, net);
      if added {
        var batch := map u | u in urls && net(u).Fetched? :: net(u).response;
        caches := caches[name := caches[name] + batch];
      }
    }

    /** `caches.match(request)`: walks the caches in creation order and stops at the first hit. */
    method Match(request: Request) returns (cached: Option<Response>)
      ensures cached == MatchIn(State(), request)
    {
      if request.verb != "GET" {
        return None;
      }
      var i := 0;
      while i < |names|
        invariant 0 <= i <= |names|
        invariant FirstHit(names[i..], State(), request.url) == FirstHit(names, State(), request.url)
      {
        var name := names[i];
        if name in caches && request.url in caches[name] {
          return Some(caches[name][request.url]);
        }
        assert names[i..][1..] == names[i + 1..];
        i := i + 1;
      }
      return None;
    }

    /** Returns whether a cache of that name existed. */
    method Delete(name: string) returns (found: bool)
      requires Valid()
      modifies this
      ensures Valid()
      ensures found == (name in old(caches))
      ensures State() == Deleted(old(State()), name)
    {
      found := name in caches;
      ghost var before := State();
      names := Keep(names, {name});
      caches := caches - {name};
      assert State() == Deleted(before, name);
    }
  }
}
