/** `POST /geocode`: a location name extracted from free text is resolved to
    coordinates through Nominatim, with a bounded retry on transient network
    errors, a second try on the text before the first comma, and the cache. */
module Geocode {
  import opened Common
  import opened Values
  import opened CacheStore

  /** `geocodeWithOSM`'s default attempt budget. */
  const MaxRetries: nat := 3

  /** A failed request, known by its `err.code` (absent for errors without one). */
  datatype NetError = NetError(code: Option<string>)

  /** What one Nominatim request gives: the result array, or an error. */
  datatype Attempt = Answered(places: seq<Place>) | Failed(err: NetError)

  /** What `geocodeWithOSM` resolves to: the first match, null, or a thrown
      error (`None` when nothing was ever tried and `null` is thrown). */
  datatype Lookup = Located(place: Place) | NoMatch | Raised(error: Option<NetError>)

  /** The lookup together with the number of requests it made. */
  datatype Run = Run(outcome: Lookup, calls: nat)

  /** The only codes after which another attempt is made. */
  predicate Transient(e: NetError) {
    e.code == Some("ECONNABORTED") || e.code == Some("ETIMEDOUT") || e.code == Some("ENOTFOUND")
  }

  /** Attempt number `attempt` is followed by another one. */
  predicate Retries(a: Attempt, attempt: nat, maxRetries: nat) {
    a.Failed? && Transient(a.err) && attempt < maxRetries
  }

  /** How an attempt that is not followed by another ends the lookup. */
  function Settle(a: Attempt): Lookup {
    match a
    case Answered(places) => if |places| > 0 then Located(places[0]) else NoMatch
    case Failed(e) => Raised(Some(e))
  }

  /** The attempts from number `attempt` on, `upstream(k)` being what request `k` gives. */
  function RetryFrom(upstream: nat -> Attempt, attempt: nat, maxRetries: nat): (r: Run)
    requires 1 <= attempt <= maxRetries
    ensures attempt <= r.calls <= maxRetries
    ensures forall k :: attempt <= k < r.calls ==> Retries(upstream(k), k, maxRetries)
    ensures !Retries(upstream(r.calls), r.calls, maxRetries)
    ensures r.outcome == Settle(upstream(r.calls))
    decreases maxRetries - attempt
  {
    var a := upstream(attempt);
    if Retries(a, attempt, maxRetries) then RetryFrom(upstream, attempt + 1, maxRetries)
    else Run(Settle(a), attempt)
  }

  /** The whole of `geocodeWithOSM(location, maxRetries)`. */
  function OsmRun(upstream: nat -> Attempt, maxRetries: nat): Run {
    if maxRetries == 0 then Run(Raised(None), 0) else RetryFrom(upstream, 1, maxRetries)
  }

  /** The retry policy: at most `maxRetries` requests; every request but the last
      failed with a transient code; an answer (even an empty one) or any other
      error ends the loop at once; a transient error on the last allowed attempt
      is thrown rather than swallowed. */
  lemma RetryPolicy(upstream: nat -> Attempt, maxRetries: nat)
    ensures var run := OsmRun(upstream, maxRetries);
      && run.calls <= maxRetries
      && (maxRetries > 0 ==> run.calls >= 1)
      && (forall k :: 1 <= k < run.calls ==> upstream(k).Failed? && Transient(upstream(k).err))
      && (run.calls >= 1 && upstream(run.calls).Answered? ==>
            run.outcome == if upstream(run.calls).places == [] then NoMatch else Located(upstream(run.calls).places[0]))
      && (run.calls >= 1 && upstream(run.calls).Failed? ==> run.outcome == Raised(Some(upstream(run.calls).err)))
      && (run.calls >= 1 && upstream(run.calls).Failed? && Transient(upstream(run.calls).err) ==> run.calls == maxRetries)
  {
  }

  /** `geocodeWithOSM`: the `for` loop over attempts with its `lastError`. */
  method GeocodeWithOsm(upstream: nat -> Attempt, maxRetries: nat) returns (run: Run)
    ensures run == OsmRun(upstream, maxRetries)
  {
    var lastError: Option<NetError> := None;
    var calls := 0;
    var attempt := 1;
    while attempt <= maxRetries
      invariant 1 <= attempt <= maxRetries + 1
      invariant calls == 0
      invariant attempt == 1 ==> lastError == None
      invariant attempt <= maxRetries ==> OsmRun(upstream, maxRetries) == RetryFrom(upstream, attempt, maxRetries)
      invariant attempt > maxRetries ==> maxRetries == 0
    {
      match upstream(attempt)
      case Answered(places) =>
        run := Run(if |places| > 0 then Located(places[0]) else NoMatch, attempt);
        return;
      case Failed(e) =>
        lastError := Some(e);
        if !Transient(e) {
          calls := attempt;
          break;
        }
        if attempt == maxRetries {
          run := Run(Raised(Some(e)), attempt);
          return;
        }
      attempt := attempt + 1;
    }
    run := Run(Raised(lastError), calls);
  }

  datatype Geocoded = GeoAnswer(locationName: string, place: Place)

  /** `geocode:<name>`: the name reads back after the namespace, so two names never share a row. */
  function GeocodeKey(name: string): (k: string)
    ensures StartsWith(k, GeocodeNs)
    ensures k[|GeocodeNs|..] == name
  {
    StartsWithConcat(GeocodeNs, name);
    GeocodeNs + name
  }

  /** `location_name.split(',')[0]`. */
  function Simplified(name: string): string {
    Split(name, ',')[0]
  }

  /** The simplified name is the text before the first comma, and is strictly
      shorter than a name that has one. */
  lemma SimplifiedIsHead(name: string)
    ensures StartsWith(name, Simplified(name))
    ensures ',' !in Simplified(name)
    ensures ',' in name ==> |Simplified(name)| < |name| && name[|Simplified(name)|] == ','
  {
    FirstPiece(name, ',');
  }

  /** A second lookup is made only when the first found nothing and the name has a comma. */
  predicate SecondTry(name: string, nominatim: string -> nat -> Attempt) {
    OsmRun(nominatim(name), MaxRetries).outcome.NoMatch? && ',' in name
  }

  /** The lookup the handler acts on: the second one when it was made. */
  function Resolved(name: string, nominatim: string -> nat -> Attempt): Lookup {
    if SecondTry(name, nominatim) then OsmRun(nominatim(Simplified(name)), MaxRetries).outcome
    else OsmRun(nominatim(name), MaxRetries).outcome
  }

  /** `geocode`. `extracted` is what the language model made of the description
      (null when it failed), and `nominatim(q)(k)` is what request `k` for `q` gives;
      `queries` lists the names passed to `geocodeWithOSM`, in order. */
  method Geocode(cache: CacheTable, description: Option<string>, extracted: Option<string>, now: int,
                 nominatim: string -> nat -> Attempt)
    returns (reply: Reply<Geocoded>, queries: seq<string>)
    requires cache.Valid()
    modifies cache
    ensures cache.Valid()
    ensures !Given(description) ==>
      reply == Refused(400, "Missing description") && queries == [] && cache.rows == old(cache.rows)
    ensures Given(description) && !Given(extracted) ==>
      reply == Refused(404, "No location found in description") && queries == [] && cache.rows == old(cache.rows)
    ensures Given(description) && Given(extracted) && IsHit(Cached(old(cache.rows), GeocodeKey(extracted.value)), now) ==>
      && old(cache.rows)[GeocodeKey(extracted.value)].value.Geocoded?
      && reply == Served(GeoAnswer(extracted.value, old(cache.rows)[GeocodeKey(extracted.value)].value.place), true)
      && queries == [] && cache.rows == old(cache.rows)
    ensures Given(description) && Given(extracted) && !IsHit(Cached(old(cache.rows), GeocodeKey(extracted.value)), now) ==>
      var name := extracted.value;
      && queries == (if SecondTry(name, nominatim) then [name, Simplified(name)] else [name])
      && match Resolved(name, nominatim)
         case Located(p) =>
           reply == Served(GeoAnswer(name, p), false)
           && cache.rows == Put(old(cache.rows), GeocodeKey(name), Geocoded(p), now, TtlMs)
         case NoMatch =>
           reply == Reply(404, Fail("Location not found", Some(name)), false) && cache.rows == old(cache.rows)
         case Raised(_) =>
           reply == Reply(500, Fail("Geocoding failed", Some(name)), false) && cache.rows == old(cache.rows)
  {
    queries := [];
    if !Given(description) {
      return Refused(400, "Missing description"), queries;
    }
    if !Given(extracted) {
      return Refused(404, "No location found in description"), queries;
    }
    var name := extracted.value;
    var key := GeocodeKey(name);
    var row := cache.Lookup(key);
    if IsHit(row, now) {
      return Served(GeoAnswer(name, row.value.value.place), true), queries;
    }
    var run := GeocodeWithOsm(nominatim(name), MaxRetries);
    queries := [name];
    if run.outcome.NoMatch? && ',' in name {
      var simplified := Simplified(name);
      run := GeocodeWithOsm(nominatim(simplified), MaxRetries);
      queries := queries + [simplified];
    }
    match run.outcome
    case Raised(_) =>
      reply := Reply(500, Fail("Geocoding failed", Some(name)), false);
    case NoMatch =>
      reply := Reply(404, Fail("Location not found", Some(name)), false);
    case Located(geo) =>
      cache.Upsert(key, Geocoded(geo), now, TtlMs);
      reply := Served(GeoAnswer(name, geo), false);
  }
}
