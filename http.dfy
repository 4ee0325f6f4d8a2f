/**
 * lib/http.php: the CORS origin check and `http_json_response`, which merges
 * the caller's headers over the defaults, derives a weak ETag from the body and
 * answers 304 when the client already holds that ETag.
 *
 * `json_encode` and `sha1` are parameters; the emitted response is a status,
 * the header lines in order, and an optional body.
 */
module Http {
  import opened Wrappers
  import opened Strings
  import opened Json
  import opened Query

  /** `http_origin_allowed`. */
  function OriginAllowed(origin: Option<string>, allowed: seq<string>): (ok: bool)
    ensures origin.None? ==> !ok
    ensures allowed == [] ==> !ok
    ensures (origin.Some? && "*" in allowed) ==> ok
    ensures (origin.Some? && "*" !in allowed) ==> (ok <==> origin.value in allowed)
  {
    if origin.None? then false
    else if allowed == [] then false
    else if "*" in allowed then true
    else origin.value in allowed
  }

  /** `array_merge($base, $over)` on string-keyed arrays: later values win, first positions stay. */
  function Merge(base: Params, over: Params): (r: Params)
    requires UniqueKeys(base) && UniqueKeys(over)
    ensures UniqueKeys(r)
    ensures |r| >= |base| && Keys(r)[..|base|] == Keys(base)
    decreases |over|
  {
    if over == [] then base
    else
      UniqueTail(over);
      var next := Set(base, over[0].0, over[0].1);
      assert Keys(next)[..|base|] == Keys(base) by {
        if over[0].0 !in Keys(base) {
          assert Keys(next) == Keys(base) + [over[0].0];
        }
      }
      Merge(next, over[1..])
  }

  lemma UniqueTail(q: Params)
    requires UniqueKeys(q) && q != []
    ensures UniqueKeys(q[1..])
    ensures q[0].0 !in Keys(q[1..])
    ensures Keys(q) == [q[0].0] + Keys(q[1..])
  {
    assert forall i :: 0 <= i < |q[1..]| ==> q[1..][i] == q[i + 1];
  }

  /** Looking past a first pair with another key. */
  lemma LookupTail(q: Params, k: string)
    requires q != [] && q[0].0 != k
    ensures Lookup(q, k) == Lookup(q[1..], k)
  {
    assert KeyIndex(q, k) == 1 + KeyIndex(q[1..], k);
  }

  /** After a merge, a key reads as in the overriding array when it is there, else as in the base. */
  lemma {:induction false} MergeLookup(base: Params, over: Params, k: string)
    requires UniqueKeys(base) && UniqueKeys(over)
    ensures Lookup(Merge(base, over), k) == if k in Keys(over) then Lookup(over, k) else Lookup(base, k)
    decreases |over|
  {
    if over != [] {
      UniqueTail(over);
      var next := Set(base, over[0].0, over[0].1);
      MergeLookup(next, over[1..], k);
      if k == over[0].0 {
        assert over[0] in over;
      } else {
        LookupTail(over, k);
      }
    }
  }

  lemma MergeLookupAll(base: Params, over: Params)
    requires UniqueKeys(base) && UniqueKeys(over)
    ensures forall k :: Lookup(Merge(base, over), k) == if k in Keys(over) then Lookup(over, k) else Lookup(base, k)
  {
    forall k {
      MergeLookup(base, over, k);
    }
  }

  const JsonContentType := "application/json; charset=utf-8"
  /** The body sent when the payload cannot be encoded. */
  const EncodeFailureBody := "{\"error\":\"Failed to encode response\"}"

  /** A weak ETag over the body's hash. */
  function Etag(sha1: string -> string, body: string): string {
    "W/\"" + sha1(body) + "\""
  }

  function DefaultHeaders(etag: string): (h: Params)
    ensures UniqueKeys(h) && Keys(h) == ["Content-Type", "Cache-Control", "ETag"]
  {
    [("Content-Type", JsonContentType), ("Cache-Control", "public, max-age=300"), ("ETag", etag)]
  }

  /** What the client receives: a status, header lines in order and, unless 304, a body. */
  datatype Response = Response(status: int, headers: Params, body: Option<string>)

  /**
   * `http_json_response`. `encode` is `json_encode` (None when it fails);
   * `ifNoneMatch` is the request's If-None-Match header.
   */
  function JsonResponse(encode: Json -> Option<string>, sha1: string -> string, payload: Json, status: int,
                        headers: Params, ifNoneMatch: Option<string>): (r: Response)
    requires UniqueKeys(headers)
    // an encoding failure is a 500 with the fixed error body
    ensures encode(payload).None? ==> r == Response(500, [("Content-Type", JsonContentType)], Some(EncodeFailureBody))
    ensures encode(payload).Some? ==>
      var etag := Etag(sha1, encode(payload).value);
      // caller headers override the defaults; every default key is still sent
      && UniqueKeys(r.headers)
      && (forall k :: k in Keys(headers) ==> Lookup(r.headers, k) == Lookup(headers, k))
      && (forall k :: k !in Keys(headers) ==> Lookup(r.headers, k) == Lookup(DefaultHeaders(etag), k))
      // 304 without a body exactly when the trimmed If-None-Match equals the ETag
      && (r.status == 304 && r.body.None? <==> ifNoneMatch.Some? && Trim(ifNoneMatch.value) == etag)
      && (!(ifNoneMatch.Some? && Trim(ifNoneMatch.value) == etag) ==> r.status == status && r.body == encode(payload))
  {
    var encoded := encode(payload);
    if encoded.None? then Response(500, [("Content-Type", JsonContentType)], Some(EncodeFailureBody))
    else
      var etag := Etag(sha1, encoded.value);
      var merged := Merge(DefaultHeaders(etag), headers);
      MergeLookupAll(DefaultHeaders(etag), headers);
      if ifNoneMatch.Some? && Trim(ifNoneMatch.value) == etag then Response(304, merged, None)
      else Response(status, merged, encoded)
  }

  /** A conditional request that matches gets the same headers as the full response, and no body. */
  lemma NotModifiedKeepsHeaders(encode: Json -> Option<string>, sha1: string -> string, payload: Json, status: int,
                                headers: Params, ifNoneMatch: string)
    requires UniqueKeys(headers) && encode(payload).Some?
    requires Trim(ifNoneMatch) == Etag(sha1, encode(payload).value)
    ensures var full := JsonResponse(encode, sha1, payload, status, headers, None);
            var cond := JsonResponse(encode, sha1, payload, status, headers, Some(ifNoneMatch));
            cond.status == 304 && cond.body.None? && cond.headers == full.headers && full.body == encode(payload)
  {
  }

  /** One emitted header line. */
  function HeaderLine(h: (string, string)): string {
    h.0 + ": " + h.1
  }

  /** The server side of a response: the status set, the header lines sent and the body echoed. */
  class Output {
    var status: int
    var lines: seq<string>
    var body: string

    constructor()
      ensures status == 200 && lines == [] && body == ""
    {
      status := 200;
      lines := [];
      body := "";
    }

    /** `http_response_code`, then `header()` for each pair in order, then `echo` of the body. */
    method Emit(r: Response)
      modifies this
      ensures status == r.status
      ensures |lines| == |old(lines)| + |r.headers|
      ensures lines[..|old(lines)|] == old(lines)
      ensures forall i :: 0 <= i < |r.headers| ==> lines[|old(lines)| + i] == HeaderLine(r.headers[i])
      ensures body == old(body) + r.body.GetOr("")
    {
      status := r.status;
      var n := |lines|;
      for i := 0 to |r.headers|
        invariant |lines| == n + i
        invariant lines[..n] == old(lines)
        invariant forall j :: 0 <= j < i ==> lines[n + j] == HeaderLine(r.headers[j])
        invariant body == old(body) && status == r.status
      {
        lines := lines + [HeaderLine(r.headers[i])];
      }
      if r.body.Some? {
        body := body + r.body.value;
      }
    }
  }
}
