/** `GET /disasters/:id/resources`: the store's geospatial lookup of resources
    near a point, cached for an hour under the raw query text. */
module NearbyResources {
  import opened Common
  import opened Values
  import opened CacheStore

  /** The search radius passed to the store function, whatever the request says. */
  const RadiusMeters: int := 10000

  /** The arguments of `rpc('get_nearby_resources', ...)`; `lat` and `lon` are the
      query text that `parseFloat` reads. */
  datatype NearbyQuery = NearbyQuery(disasterId: string, lat: string, lon: string, radius: int)

  /** The store call: its rows, the error it reports, or an exception. */
  datatype RpcOutcome = RpcRows(data: seq<NearbyRow>) | RpcError(message: string) | RpcThrew

  /** `resources:<id>:<lat>:<lon>`, from the query strings as they were sent. */
  function NearbyKey(id: string, lat: string, lon: string): (k: string)
    ensures StartsWith(k, NearbyNs)
  {
    var rest := id + ":" + lat + ":" + lon;
    StartsWithConcat(NearbyNs, rest);
    NearbyNs + rest
  }

  /** The key is built from the raw text, so two spellings of one latitude (such as
      "40.0" and "40.00") get different keys and never share a cache row. */
  lemma SpellingsGetDistinctKeys(id: string, lat1: string, lat2: string, lon: string)
    requires lat1 != lat2
    ensures NearbyKey(id, lat1, lon) != NearbyKey(id, lat2, lon)
  {
    var k1, k2 := NearbyKey(id, lat1, lon), NearbyKey(id, lat2, lon);
    var at := |NearbyNs| + |id| + 1;
    if |lat1| == |lat2| {
      var i :| 0 <= i < |lat1| && lat1[i] != lat2[i];
      assert k1[at + i] == lat1[i];
      assert k2[at + i] == lat2[i];
    } else {
      assert |k1| != |k2|;
    }
  }

  /** `getNearbyResources`. `latQuery` and `lonQuery` are the query values (absent
      when not sent); `rpc` is what the store call gives; `sent` is the call made, if any. */
  method GetNearbyResources(cache: CacheTable, id: string, latQuery: Option<string>, lonQuery: Option<string>,
                            now: int, rpc: RpcOutcome)
    returns (reply: Reply<seq<NearbyRow>>, sent: Option<NearbyQuery>)
    requires cache.Valid()
    modifies cache
    ensures cache.Valid()
    ensures !Given(latQuery) || !Given(lonQuery) ==>
      reply == Refused(400, "Missing lat/lon query parameters") && sent == None && cache.rows == old(cache.rows)
    ensures Given(latQuery) && Given(lonQuery) ==>
      var key := NearbyKey(id, latQuery.value, lonQuery.value);
      var row := Cached(old(cache.rows), key);
      && (IsHit(row, now) ==>
            && row.value.value.NearbyPayload?
            && reply == Served(row.value.value.rows, true)
            && sent == None && cache.rows == old(cache.rows))
      && (!IsHit(row, now) ==> sent == Some(NearbyQuery(id, latQuery.value, lonQuery.value, RadiusMeters)))
      && (!IsHit(row, now) && rpc.RpcRows? ==>
            reply == Served(rpc.data, false)
            && cache.rows == Put(old(cache.rows), key, NearbyPayload(rpc.data), now, TtlMs))
      && (!IsHit(row, now) && rpc.RpcError? ==>
            reply == Refused(500, rpc.message) && cache.rows == old(cache.rows))
      && (!IsHit(row, now) && rpc.RpcThrew? ==>
            reply == Refused(500, "Resource lookup failed") && cache.rows == old(cache.rows))
  {
    sent := None;
    if !Given(latQuery) || !Given(lonQuery) {
      return Refused(400, "Missing lat/lon query parameters"), sent;
    }
    var key := NearbyKey(id, latQuery.value, lonQuery.value);
    var row := cache.Lookup(key);
    if IsHit(row, now) {
      return Served(row.value.value.rows, true), sent;
    }
    sent := Some(NearbyQuery(id, latQuery.value, lonQuery.value, RadiusMeters));
    match rpc
    case RpcError(message) =>
      reply := Refused(500, message);
    case RpcThrew =>
      reply := Refused(500, "Resource lookup failed");
    case RpcRows(data) =>
      cache.Upsert(key, NearbyPayload(data), now, TtlMs);
      reply := Served(data, false);
  }
}
