/**
 * The TMDb client of lib/tmdb.php: credential gating, the cache-first request
 * procedure, query-parameter and header assembly, and poster URLs.
 *
 * The network (`curl`) is an oracle from the request sent to the response
 * received; `json_encode` of the parameters (used only in the cache key) is a
 * parameter; the body of a response is kept as the value `json_decode` made of it.
 */
module Tmdb {
  import opened Wrappers
  import opened Strings
  import opened Json
  import opened Query
  import opened Cache

  const ApiBase: string := "https://api.themoviedb.org/3"
  const ApiBaseV4: string := "https://api.themoviedb.org/4"
  const DefaultCacheTtl: int := 86400
  const CacheNamespace: string := "tmdb"

  /** The environment values the client reads (null when unset). */
  datatype Config = Config(
    apiKey: Option<string>,      // TMDB_API_KEY
    readToken: Option<string>,   // TMDB_READ_ACCESS_TOKEN
    appUrl: Option<string>,      // APP_URL
    cacheTtl: Option<string>)    // TMDB_CACHE_TTL

  datatype Request = Request(verb: string, url: string, headers: seq<string>)

  /** What the transport reports: an error, or a status with the decoded body (JNull when it is not JSON). */
  datatype Response = TransportError | Http(status: int, body: Json)

  /** tmdb_cache_ttl: the configured value cast to int, 86400 when unset. */
  function CacheTtl(c: Config): (ttl: int)
    ensures c.cacheTtl.None? ==> ttl == DefaultCacheTtl
    ensures c.cacheTtl.Some? ==> ttl == ToInt(c.cacheTtl.value)
  {
    if c.cacheTtl.Some? then ToInt(c.cacheTtl.value) else DefaultCacheTtl
  }

  /** The two early returns: no credentials at all, or a v4 call without a read token. */
  predicate Gated(c: Config, useV4: bool) {
    (!Truthy(c.apiKey) && !Truthy(c.readToken)) || (useV4 && !Truthy(c.readToken))
  }

  function BaseUrl(useV4: bool, path: string): string {
    (if useV4 then ApiBaseV4 else ApiBase) + path
  }

  /** The cache key `method:url:json(params)`; the API key is not part of it. */
  function CacheKey(verb: string, url: string, paramsJson: string): string {
    verb + ":" + url + ":" + paramsJson
  }

  /** `array_merge(['api_key' => $apiKey], $params)` for v3 calls with a key; the parameters unchanged otherwise. */
  function QueryParams(params: Params, c: Config, useV4: bool): (qp: Params)
    requires UniqueKeys(params)
    ensures UniqueKeys(qp)
    ensures !useV4 && Truthy(c.apiKey) ==> qp != [] && qp[0].0 == "api_key"
    ensures !useV4 && Truthy(c.apiKey) ==> Lookup(qp, "api_key") == Some(Lookup(params, "api_key").GetOr(c.apiKey.value))
    ensures !useV4 && Truthy(c.apiKey) ==> qp[1..] == Remove(params, "api_key")
    ensures forall k :: k != "api_key" ==> Lookup(qp, k) == Lookup(params, k)
    ensures !(!useV4 && Truthy(c.apiKey)) ==> qp == params
  {
    if !useV4 && Truthy(c.apiKey) then
      var rest := Remove(params, "api_key");
      var x := ("api_key", Lookup(params, "api_key").GetOr(c.apiKey.value));
      UniqueCons(x, rest);
      forall k | k != "api_key" ensures Lookup([x] + rest, k) == Lookup(rest, k) {
        LookupCons(x, rest, k);
      }
      var qp := [x] + rest;
      qp
    else params
  }

  /** The URL requested: a query string is appended only when there are parameters. */
  function RequestUrl(url: string, qp: Params): (u: string)
    ensures qp == [] ==> u == url
    ensures qp != [] ==> u == url + "?" + Build(qp) && Build(qp) != ""
  {
    if qp != [] then url + "?" + Build(qp) else url
  }

  /** Accept and User-Agent, then `Authorization: Bearer` exactly when a read token is configured. */
  function Headers(c: Config): (hs: seq<string>)
    ensures |hs| >= 2 && hs[0] == "Accept: application/json"
    ensures Truthy(c.readToken) <==> |hs| == 3
    ensures Truthy(c.readToken) ==> hs[2] == "Authorization: Bearer " + c.readToken.value
  {
    ["Accept: application/json", "User-Agent: FilmotecaPro/1.0 (+" + c.appUrl.GetOr("http://localhost") + ")"]
    + (if Truthy(c.readToken) then ["Authorization: Bearer " + c.readToken.value] else [])
  }

  /** The body kept from a response: none after a transport error, a status of 400 or more, or a body that is not an array. */
  function Accepted(resp: Response): (r: Option<Json>)
    ensures r.Some? <==> resp.Http? && resp.status < 400 && resp.body.IsArray()
    ensures r.Some? ==> r.value == resp.body && r.value != JNull
  {
    if resp.Http? && resp.status < 400 && resp.body.IsArray() then Some(resp.body) else None
  }

  /** The request the client sends for a call that passes the gates and misses the cache. */
  function Outgoing(c: Config, verb: string, path: string, params: Params, useV4: bool): Request
    requires UniqueKeys(params)
  {
    Request(AsciiUpper(verb), RequestUrl(BaseUrl(useV4, path), QueryParams(params, c, useV4)), Headers(c))
  }

  /** The result of a call */
  datatype Outcome = Outcome(result: Json, sent: Option<Request>, files: Files)

  /**
   * tmdb_request as a function of the cache files before the call: the value
   * returned (JNull for null), the request sent if any, and the files after.
   */
  function RequestSpec(files: Files, hash: string -> string, c: Config, encode: Params -> string,
                       network: Request -> Response, verb: string, path: string, params: Params,
                       useV4: bool, now: int, storedAt: string): (o: Outcome)
    requires UniqueKeys(params)
    // gated calls touch neither the cache nor the network
    ensures Gated(c, useV4) ==> o == Outcome(JNull, None, files)
    // a cache hit is returned without a network call
    ensures !Gated(c, useV4) ==>
      var slot := SlotOf(hash, CacheNamespace, CacheKey(verb, BaseUrl(useV4, path), encode(params)));
      ReadSlot(files, slot, now) != JNull ==> o == Outcome(ReadSlot(files, slot, now), None, AfterRead(files, slot, now))
    // a miss sends exactly one request; only an accepted response is cached and returned
    ensures !Gated(c, useV4) ==>
      var slot := SlotOf(hash, CacheNamespace, CacheKey(verb, BaseUrl(useV4, path), encode(params)));
      var req := Outgoing(c, verb, path, params, useV4);
      ReadSlot(files, slot, now) == JNull ==>
        o.sent == Some(req)
        && (Accepted(network(req)).None? ==> o.result == JNull && o.files == AfterRead(files, slot, now))
        && (Accepted(network(req)).Some? ==>
              o.result == network(req).body
              && o.files == AfterRead(files, slot, now)[slot := Payload(Record(o.result, CacheTtl(c), now, storedAt))])
  {
    if Gated(c, useV4) then Outcome(JNull, None, files)
    else
      var slot := SlotOf(hash, CacheNamespace, CacheKey(verb, BaseUrl(useV4, path), encode(params)));
      var cached := ReadSlot(files, slot, now);
      var files' := AfterRead(files, slot, now);
      if cached != JNull then Outcome(cached, None, files')
      else
        var req := Outgoing(c, verb, path, params, useV4);
        match Accepted(network(req))
        case None => Outcome(JNull, Some(req), files')
        case Some(body) => Outcome(body, Some(req), files'[slot := Payload(Record(body, CacheTtl(c), now, storedAt))])
  }

  /**
   * After a successful call, the same call made again while the entry is fresh
   * is answered from the cache with the same value and sends nothing.
   */
  lemma SecondCallServedFromCache(files: Files, hash: string -> string, c: Config, encode: Params -> string,
                                  network: Request -> Response, verb: string, path: string, params: Params,
                                  useV4: bool, now: int, storedAt: string, later: int, network': Request -> Response)
    requires UniqueKeys(params)
    requires var o := RequestSpec(files, hash, c, encode, network, verb, path, params, useV4, now, storedAt);
             o.sent.Some? && o.result != JNull
    requires CacheTtl(c) <= 0 || later <= now + CacheTtl(c)
    ensures var o := RequestSpec(files, hash, c, encode, network, verb, path, params, useV4, now, storedAt);
            var o2 := RequestSpec(o.files, hash, c, encode, network', verb, path, params, useV4, later, storedAt);
            o2.sent.None? && o2.result == o.result
  {
    var slot := SlotOf(hash, CacheNamespace, CacheKey(verb, BaseUrl(useV4, path), encode(params)));
    var o := RequestSpec(files, hash, c, encode, network, verb, path, params, useV4, now, storedAt);
    GetAfterSet(AfterRead(files, slot, now), slot, o.result, CacheTtl(c), now, storedAt, later);
  }

  class Client {
    const config: Config
    const cache: FileCache
    /** json_encode of a parameter array */
    const encode: Params -> string
    /** the transport */
    const network: Request -> Response

    constructor(config: Config, cache: FileCache, encode: Params -> string, network: Request -> Response)
      ensures this.config == config && this.cache == cache && this.encode == encode && this.network == network
    {
      this.config := config;
      this.cache := cache;
      this.encode := encode;
      this.network := network;
    }

    /** tmdb_request */
    method Call(verb: string, path: string, params: Params, useV4: bool, now: int, storedAt: string)
      returns (r: Json, sent: Option<Request>)
      requires UniqueKeys(params)
      modifies cache
      ensures var o := RequestSpec(old(cache.files), cache.hash, config, encode, network, verb, path, params, useV4, now, storedAt);
              r == o.result && sent == o.sent && cache.files == o.files
    {
      r, sent := JNull, None;
      // lines 20-27: no credentials, or a v4 call without a read token
      if !((!Truthy(config.apiKey) && !Truthy(config.readToken)) || (useV4 && !Truthy(config.readToken))) {
        var url := BaseUrl(useV4, path);
        var key := CacheKey(verb, url, encode(params));
        var cached := cache.Get(CacheNamespace, key, now);
        if cached != JNull {
          r := cached;
        } else {
          var qp := QueryParams(params, config, useV4);
          var req := Request(AsciiUpper(verb), RequestUrl(url, qp), Headers(config));
          sent := Some(req);
          var resp := network(req);
          // lines 69-82: a transport error, an error status or a body that is not an array is not cached
          if !resp.TransportError? && resp.status < 400 && resp.body.IsArray() {
            cache.Set(CacheNamespace, key, resp.body, CacheTtl(config), now, storedAt);
            r := resp.body;
          }
        }
      }
    }

    /** tmdb_configuration */
    method Configuration(now: int, storedAt: string) returns (r: Json, sent: Option<Request>)
      modifies cache
      ensures var o := RequestSpec(old(cache.files), cache.hash, config, encode, network, "GET", "/configuration", [], false, now, storedAt);
              r == o.result && sent == o.sent && cache.files == o.files
    {
      r, sent := Call("GET", "/configuration", [], false, now, storedAt);
    }

    /** tmdb_get_movie */
    method GetMovie(tmdbId: int, append: string, now: int, storedAt: string) returns (r: Json, sent: Option<Request>)
      modifies cache
      ensures var o := RequestSpec(old(cache.files), cache.hash, config, encode, network, "GET", MoviePath(tmdbId), MovieParams(append), false, now, storedAt);
              r == o.result && sent == o.sent && cache.files == o.files
    {
      r, sent := Call("GET", MoviePath(tmdbId), MovieParams(append), false, now, storedAt);
    }
  }

  function MoviePath(tmdbId: int): (p: string)
    ensures StartsWith(p, "/movie/") && p[7..] == IntToString(tmdbId)
  {
    "/movie/" + IntToString(tmdbId)
  }

  /** `append_to_response` is sent only when the append list is non-empty. */
  function MovieParams(append: string): (ps: Params)
    ensures UniqueKeys(ps)
    ensures append == "" <==> ps == []
    ensures append != "" ==> Lookup(ps, "append_to_response") == Some(append) && |ps| == 1
  {
    if append != "" then [("append_to_response", append)] else []
  }

  /** The default list of appended resources. */
  const DefaultAppend: string := "credits,videos,images"

  /**
   * tmdb_build_poster_url given the configuration response (JNull when it was
   * null): the secure base URL without trailing '/', then '/', the size and the path.
   */
  function PosterUrl(path: Option<string>, size: string, configuration: Json): (r: Option<string>)
    ensures !Truthy(path) ==> r.None?
    ensures r.Some? <==> Truthy(path) && exists base :: Field2(configuration, "images", "secure_base_url") == Some(JStr(base)) && !Falsy(base)
    ensures r.Some? ==> EndsWith(r.value, "/" + size + path.value)
    ensures r.Some? ==> var base := Field2(configuration, "images", "secure_base_url").value.s;
                        StartsWith(r.value, TrimRight(base, {'/'}))
                        && |r.value| == |TrimRight(base, {'/'})| + 1 + |size| + |path.value|
  {
    if !Truthy(path) then None
    else match Field2(configuration, "images", "secure_base_url")
      case Some(JStr(base)) =>
        if Falsy(base) then None
        else
          var head := TrimRight(base, {'/'});
          var url := head + "/" + size + path.value;
          assert url[..|head|] == head;
          assert url[|url| - |"/" + size + path.value|..] == "/" + size + path.value;
          Some(url)
      case _ => None
  }
}
