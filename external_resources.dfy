/** `GET /disasters/:id/external-resources`: amenities around a point, looked up
    with an Overpass query and cached for an hour. */
module ExternalResources {
  import opened Common
  import opened Values
  import opened CacheStore

  const DefaultRadiusMeters: JsNumber := JsNumber("10000")
  const DefaultType: string := "hospital"
  /** At most this many mapped elements are kept. */
  const MaxResources: nat := 20

  /** The `tags` of an Overpass element that the mapping reads. */
  datatype ElementTags = ElementTags(name: Option<string>, amenity: Option<string>, address: Option<string>)

  /** The `center` Overpass gives for ways and relations. */
  datatype Center = Center(lat: Option<JsNumber>, lon: Option<JsNumber>)

  datatype Element = Element(id: int, tags: Option<ElementTags>, lat: Option<JsNumber>, lon: Option<JsNumber>,
                             center: Option<Center>)

  /** The Overpass request: its `elements` array (absent means none), or a thrown error. */
  datatype OverpassOutcome = Elements(elements: Option<seq<Element>>) | OverpassFailed

  /** One `<element>["amenity"="<type>"](around:<radius>,<lat>,<lon>);` clause. */
  datatype AroundClause = AroundClause(element: string, amenity: string, radius: JsNumber, lat: JsNumber, lon: JsNumber)

  /** An Overpass QL union of clauses, output with centers and tags. */
  datatype OverpassQuery = OverpassQuery(timeoutSeconds: nat, clauses: seq<AroundClause>)

  /** `buildOverpassQuery`: nodes, ways and relations with the amenity, all around the same circle. */
  function BuildOverpassQuery(lat: JsNumber, lon: JsNumber, amenity: string, radius: JsNumber): (q: OverpassQuery)
    ensures q.timeoutSeconds == 25
    ensures |q.clauses| == 3
    ensures q.clauses[0].element == "node" && q.clauses[1].element == "way" && q.clauses[2].element == "relation"
    ensures forall c :: c in q.clauses ==>
              c.amenity == amenity && c.radius == radius && c.lat == lat && c.lon == lon
  {
    OverpassQuery(25, [AroundClause("node", amenity, radius, lat, lon),
                       AroundClause("way", amenity, radius, lat, lon),
                       AroundClause("relation", amenity, radius, lat, lon)])
  }

  function RenderClause(c: AroundClause): string {
    "      " + c.element + "[\"amenity\"=\"" + c.amenity + "\"](around:"
      + c.radius.text + "," + c.lat.text + "," + c.lon.text + ");\n"
  }

  function RenderClauses(cs: seq<AroundClause>): string
    decreases |cs|
  {
    if cs == [] then "" else RenderClause(cs[0]) + RenderClauses(cs[1..])
  }

  /** The query text posted to the interpreter. */
  function Render(q: OverpassQuery): string {
    "\n    [out:json][timeout:" + NatToString(q.timeoutSeconds) + "];\n    (\n"
      + RenderClauses(q.clauses) + "    );\n    out center tags;\n  "
  }

  lemma RenderThreeClauses(cs: seq<AroundClause>)
    requires |cs| == 3
    ensures RenderClauses(cs) == RenderClause(cs[0]) + RenderClause(cs[1]) + RenderClause(cs[2])
  {
    assert RenderClauses(cs[2..]) == RenderClause(cs[2]) by {
      assert cs[2..][1..] == [];
    }
    assert RenderClauses(cs[1..]) == RenderClause(cs[1]) + RenderClauses(cs[2..]) by {
      assert cs[1..][1..] == cs[2..];
    }
  }

  /** The built query renders as the template text: a 25-second timeout, then one
      line each for nodes, ways and relations, all with the same amenity and circle. */
  lemma RenderedQuery(lat: JsNumber, lon: JsNumber, amenity: string, radius: JsNumber)
    ensures Render(BuildOverpassQuery(lat, lon, amenity, radius))
        == "\n    [out:json][timeout:" + "25" + "];\n    (\n"
           + (("      " + "node" + "[\"amenity\"=\"" + amenity + "\"](around:"
                 + radius.text + "," + lat.text + "," + lon.text + ");\n")
              + ("      " + "way" + "[\"amenity\"=\"" + amenity + "\"](around:"
                 + radius.text + "," + lat.text + "," + lon.text + ");\n")
              + ("      " + "relation" + "[\"amenity\"=\"" + amenity + "\"](around:"
                 + radius.text + "," + lat.text + "," + lon.text + ");\n"))
           + "    );\n    out center tags;\n  "
  {
    var q := BuildOverpassQuery(lat, lon, amenity, radius);
    assert NatToString(25) == "25" by {
      assert NatToString(2) == "2";
    }
    RenderThreeClauses(q.clauses);
  }

  /** `(req.query.type as string) || DEFAULT_TYPE`. */
  function RequestedType(typeQuery: Option<string>): (t: string)
    ensures t != ""
    ensures Given(typeQuery) ==> t == typeQuery.value
  {
    if Given(typeQuery) then typeQuery.value else DefaultType
  }

  /** The radius: `parseInt` of the query value when one is given (`radiusParam`),
      otherwise the default. */
  function RequestedRadius(radiusParam: Option<JsNumber>): JsNumber {
    if radiusParam.Some? then radiusParam.value else DefaultRadiusMeters
  }

  /** `external_resources:<id>:<lat>:<lon>:<type>:<radius>`. */
  function ExternalKey(id: string, lat: JsNumber, lon: JsNumber, kind: string, radius: JsNumber): (k: string)
    ensures StartsWith(k, ExternalNs)
  {
    var rest := id + ":" + lat.text + ":" + lon.text + ":" + kind + ":" + radius.text;
    StartsWithConcat(ExternalNs, rest);
    ExternalNs + rest
  }

  /** `tags?.<field> || null`. */
  function TagOrNull(tags: Option<ElementTags>, field: ElementTags -> Option<string>): Option<string> {
    if tags.Some? && Given(field(tags.value)) then field(tags.value) else None
  }

  /** `el.<coord> || el.center?.<coord>`. */
  function CoordOrCenter(own: Option<JsNumber>, center: Option<JsNumber>): Option<JsNumber> {
    if own.Some? && Truthy(own.value) then own else center
  }

  /** The element-to-resource mapping. */
  function MapElement(el: Element, requested: string): (r: Resource)
    ensures r.id == el.id
    ensures r.name.Some? ==> r.name.value != ""
    ensures r.name.None? <==> el.tags.None? || !Given(el.tags.value.name)
    ensures el.tags.Some? && Given(el.tags.value.name) ==> r.name == el.tags.value.name
    ensures r.address.None? <==> el.tags.None? || !Given(el.tags.value.address)
    ensures el.tags.Some? && Given(el.tags.value.address) ==> r.address == el.tags.value.address
    ensures el.tags.Some? && Given(el.tags.value.amenity) ==> r.kind == el.tags.value.amenity.value
    ensures el.tags.None? || !Given(el.tags.value.amenity) ==> r.kind == requested
    ensures requested != "" ==> r.kind != ""
    ensures el.lat.Some? && Truthy(el.lat.value) ==> r.lat == el.lat
    ensures el.lon.Some? && Truthy(el.lon.value) ==> r.lon == el.lon
    ensures !(el.lat.Some? && Truthy(el.lat.value)) ==>
              r.lat == (if el.center.Some? then el.center.value.lat else None)
    ensures !(el.lon.Some? && Truthy(el.lon.value)) ==>
              r.lon == (if el.center.Some? then el.center.value.lon else None)
  {
    var center := el.center;
    Resource(
      el.id,
      TagOrNull(el.tags, (t: ElementTags) => t.name),
      if el.tags.Some? && Given(el.tags.value.amenity) then el.tags.value.amenity.value else requested,
      TagOrNull(el.tags, (t: ElementTags) => t.address),
      CoordOrCenter(el.lat, if center.Some? then center.value.lat else None),
      CoordOrCenter(el.lon, if center.Some? then center.value.lon else None))
  }

  /** `elements.map(...).slice(0, 20)`: the first twenty elements, mapped, in order. */
  function ToResources(elements: seq<Element>, requested: string): (r: seq<Resource>)
    ensures |r| == if |elements| < MaxResources then |elements| else MaxResources
    ensures forall i :: 0 <= i < |r| ==> r[i] == MapElement(elements[i], requested)
  {
    Take(seq(|elements|, i requires 0 <= i < |elements| => MapElement(elements[i], requested)), MaxResources)
  }

  /** Every resource has a type, because the requested type is never empty. */
  lemma ResourcesAreTyped(elements: seq<Element>, typeQuery: Option<string>)
    ensures forall r :: r in ToResources(elements, RequestedType(typeQuery)) ==> r.kind != ""
  {
  }

  /** `getExternalResources`. `lat` and `lon` are what `parseFloat` gives for the
      query values, `radiusParam` what `parseInt` gives for a non-empty radius;
      `sent` is the query posted to Overpass, if any. */
  method GetExternalResources(cache: CacheTable, id: string, lat: JsNumber, lon: JsNumber,
                              typeQuery: Option<string>, radiusParam: Option<JsNumber>, now: int,
                              overpass: OverpassOutcome)
    returns (reply: Reply<seq<Resource>>, sent: Option<OverpassQuery>)
    requires cache.Valid()
    modifies cache
    ensures cache.Valid()
    ensures IsNaN(lat) || IsNaN(lon) ==>
      && reply == Refused(400, "Missing or invalid lat/lon query parameters")
      && sent == None && cache.rows == old(cache.rows)
    ensures !IsNaN(lat) && !IsNaN(lon) ==>
      var kind := RequestedType(typeQuery);
      var radius := RequestedRadius(radiusParam);
      var key := ExternalKey(id, lat, lon, kind, radius);
      var row := Cached(old(cache.rows), key);
      && (IsHit(row, now) ==>
            && row.value.value.ExternalPayload?
            && reply == Served(row.value.value.resources, true)
            && sent == None && cache.rows == old(cache.rows))
      && (!IsHit(row, now) ==> sent == Some(BuildOverpassQuery(lat, lon, kind, radius)))
      && (!IsHit(row, now) && overpass.Elements? ==>
            var resources := ToResources(if overpass.elements.Some? then overpass.elements.value else [], kind);
            && reply == Served(resources, false)
            && cache.rows == Put(old(cache.rows), key, ExternalPayload(resources), now, TtlMs))
      && (!IsHit(row, now) && overpass.OverpassFailed? ==>
            reply == Refused(500, "External resource lookup failed") && cache.rows == old(cache.rows))
  {
    var kind := RequestedType(typeQuery);
    var radius := RequestedRadius(radiusParam);
    sent := None;
    if IsNaN(lat) || IsNaN(lon) {
      return Refused(400, "Missing or invalid lat/lon query parameters"), sent;
    }
    var key := ExternalKey(id, lat, lon, kind, radius);
    var row := cache.Lookup(key);
    if IsHit(row, now) {
      return Served(row.value.value.resources, true), sent;
    }
    sent := Some(BuildOverpassQuery(lat, lon, kind, radius));
    match overpass
    case OverpassFailed =>
      reply := Refused(500, "External resource lookup failed");
    case Elements(elements) =>
      var resources := ToResources(if elements.Some? then elements.value else [], kind);
      cache.Upsert(key, ExternalPayload(resources), now, TtlMs);
      reply := Served(resources, false);
  }
}
