/**
 * src/api/trending.ts: the YouTube trending proxy. Requests are keyed by
 * `REGION:max`; a module-level table keeps each key's last successful answer
 * with its time, and an answer younger than ten minutes is served without
 * asking YouTube. The time and the upstream answer are parameters.
 */
module Trending {
  import opened Wrappers
  import opened Text

  /** `TTL_MS`: ten minutes. */
  const TtlMs: int := 600000

  /** One table entry `{ ts, data }`; the data is the upstream JSON, kept as text. */
  datatype Entry = Entry(ts: int, data: string)

  /** What `fetch` plus `r.json()` settled to: the parsed body with `r.ok` and `r.status`, or an exception. */
  datatype Upstream = Answered(ok: bool, status: int, data: string) | Threw

  /** The upstream request the handler sends (`regionCode`, `maxResults`, `key`). */
  datatype UpstreamQuery = UpstreamQuery(region: string, max: int, key: string)

  /** The JSON body: the upstream's own, or an error message. */
  datatype Body = Data(json: string) | ErrorBody(error: string)

  /** Status, whether the `Cache-Control` header was set, and the body. */
  datatype Reply = Reply(status: int, cacheControl: bool, body: Body)

  const MsgMissingKey: string := "Missing YOUTUBE_API_KEY"
  const MsgFetchFailed: string := "Failed to fetch trending videos"

  /** `String(req.query.region || 'US').toUpperCase()`. */
  function Region(q: Option<string>): (r: string)
    ensures !Truthy(q) ==> r == "US"
    ensures Truthy(q) ==> |r| == |q.value| && forall k :: 0 <= k < |r| ==> r[k] == UpperChar(q.value[k])
  {
    ToUpper(Or(q, "US"))
  }

  /** `Math.min(50, parseInt(String(req.query.max || '12'), 10))`; `q` is the parsed non-empty value. */
  function MaxResults(q: Option<int>): (m: int)
    ensures m <= 50
    ensures q.None? ==> m == 12
    ensures q.Some? && q.value <= 50 ==> m == q.value
    ensures q.Some? && q.value > 50 ==> m == 50
  {
    match q
    case None => 12
    case Some(n) => if n < 50 then n else 50
  }

  /** `${region}:${max}`. */
  function CacheKey(region: string, max: int): (k: string)
    ensures k == region + ":" + IntToString(max)
    ensures k[..|region|] == region && k[|region|] == ':'
  {
    region + ":" + IntToString(max)
  }

  /** Text split at a colon followed by colon-free text can be split there only. */
  lemma SplitAtLastColon(r1: string, s1: string, r2: string, s2: string)
    requires ':' !in s1 && ':' !in s2
    requires r1 + ":" + s1 == r2 + ":" + s2
    ensures r1 == r2 && s1 == s2
  {
    var k := r1 + ":" + s1;
    assert k[|r1|] == ':' && k[|r2|] == ':';
    assert forall i :: |r1| < i < |k| ==> k[i] == s1[i - |r1| - 1];
    assert forall i :: |r2| < i < |k| ==> k[i] == s2[i - |r2| - 1];
    assert |r1| == |r2|;
    assert r1 == k[..|r1|] && r2 == k[..|r2|];
    assert s1 == k[|r1| + 1..] && s2 == k[|r2| + 1..];
  }

  /** Distinct requests never share an entry: the key determines region and count, even for a region with colons. */
  lemma CacheKeyInjective(r1: string, m1: int, r2: string, m2: int)
    requires CacheKey(r1, m1) == CacheKey(r2, m2)
    ensures r1 == r2 && m1 == m2
  {
    IntToStringNoColon(m1);
    IntToStringNoColon(m2);
    SplitAtLastColon(r1, IntToString(m1), r2, IntToString(m2));
    IntToStringInjective(m1, m2);
  }

  /** The data a lookup at time `now` may serve: an entry under the key younger than the TTL. */
  function FreshHit(cache: map<string, Entry>, key: string, now: int): (r: Option<string>)
    ensures r.Some? <==> key in cache && now - cache[key].ts < TtlMs
    ensures r.Some? ==> r.value == cache[key].data
  {
    if key in cache && now - cache[key].ts < TtlMs then Some(cache[key].data) else None
  }

  /** An entry stored at `t` serves the same key until ten minutes have passed, and then no longer. */
  lemma StoredEntryServes(cache: map<string, Entry>, key: string, t: int, data: string, now: int)
    ensures FreshHit(cache[key := Entry(t, data)], key, now) == if now < t + TtlMs then Some(data) else None
  {
  }

  /** Storing one key leaves what every other key serves unchanged. */
  lemma StoreLeavesOtherKeys(cache: map<string, Entry>, key: string, e: Entry, other: string, now: int)
    requires other != key
    ensures FreshHit(cache[key := e], other, now) == FreshHit(cache, other, now)
  {
  }

  /** The module instance: the configured key and the cache table. */
  class TrendingHandler {
    const apiKey: Option<string>
    var cache: map<string, Entry>

    constructor (apiKey: Option<string>)
      ensures this.apiKey == apiKey && cache == map[]
    {
      this.apiKey := apiKey;
      cache := map[];
    }

    /**
     * `handler(req, res)`. `now` and `storedAt` are the two `Date.now()`
     * readings, before and after the fetch; `upstream` is what the fetch settles
     * to and `sent` the request made, None when no fetch happens.
     */
    method Handle(regionQuery: Option<string>, maxQuery: Option<int>, now: int, upstream: Upstream, storedAt: int)
      returns (reply: Reply, sent: Option<UpstreamQuery>)
      modifies this
      ensures old(cache).Keys <= cache.Keys
      ensures !Truthy(apiKey) ==>
        reply == Reply(500, false, ErrorBody(MsgMissingKey)) && sent.None? && cache == old(cache)
      ensures Truthy(apiKey) ==>
        var region, max := Region(regionQuery), MaxResults(maxQuery);
        var key := CacheKey(region, max);
        if FreshHit(old(cache), key, now).Some? then
          && reply == Reply(200, true, Data(FreshHit(old(cache), key, now).value))
          && sent.None? && cache == old(cache)
        else
          && sent == Some(UpstreamQuery(region, max, apiKey.value))
          && match upstream
             case Threw => reply == Reply(500, false, ErrorBody(MsgFetchFailed)) && cache == old(cache)
             case Answered(ok, status, data) =>
               if ok then reply == Reply(200, true, Data(data)) && cache == old(cache)[key := Entry(storedAt, data)]
               else reply == Reply(status, false, Data(data)) && cache == old(cache)
    {
      if !Truthy(apiKey) {
        return Reply(500, false, ErrorBody(MsgMissingKey)), None;
      }
      var region := Region(regionQuery);
      var max := MaxResults(maxQuery);
      var key := CacheKey(region, max);
      if key in cache && now - cache[key].ts < TtlMs {
        return Reply(200, true, Data(cache[key].data)), None;
      }
      sent := Some(UpstreamQuery(region, max, apiKey.value));
      match upstream {
        case Threw =>
          reply := Reply(500, false, ErrorBody(MsgFetchFailed));
        case Answered(ok, status, data) =>
          if !ok {
            reply := Reply(status, false, Data(data));
          } else {
            cache := cache[key := Entry(storedAt, data)];
            reply := Reply(200, true, Data(data));
          }
      }
    }
  }
}
