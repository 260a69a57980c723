/** The shapes the enrichment handlers keep in the shared `cache` table, and the
    key namespaces that keep those shapes apart. */
module Values {
  import opened Common

  /** One Nominatim match: `{lat, lon, display_name}` (coordinates as Nominatim's text). */
  datatype Place = Place(lat: string, lon: string, displayName: string)

  /** One social-media post as the handler returns it: `{post, user, timestamp}`. */
  datatype Post = Post(text: string, user: string, timestamp: string)

  /** One Overpass element mapped for the client: `{id, name, type, address, lat, lon}`;
      `None` is JSON null for name and address, and undefined for the coordinates. */
  datatype Resource = Resource(id: int, name: Option<string>, kind: string, address: Option<string>,
                               lat: Option<JsNumber>, lon: Option<JsNumber>)

  /** One row returned by the `get_nearby_resources` store function, kept as its JSON text. */
  datatype NearbyRow = NearbyRow(json: string)

  /** One FEMA press release: `{title, link, description, date}`. */
  datatype FemaItem = FemaItem(title: string, link: string, description: string, date: string)

  /** `{source, items}`: the official updates of one agency. */
  datatype UpdateGroup = UpdateGroup(source: string, items: seq<FemaItem>)

  /** `{image_url, gemini_response, summary}`; the raw model reply is kept as its JSON text. */
  datatype Verdict = Verdict(imageUrl: string, geminiResponse: string, summary: Option<string>)

  /** The `value` column of a cache row, one case per feature that writes it. */
  datatype Payload =
    | Geocoded(place: Place)
    | SocialResult(disasterId: string, posts: seq<Post>, source: string)
    | ExternalPayload(resources: seq<Resource>)
    | NearbyPayload(rows: seq<NearbyRow>)
    | UpdatesPayload(updates: seq<UpdateGroup>)
    | ImagePayload(verdict: Verdict)

  const GeocodeNs := "geocode:"
  const SocialNs := "social_media:"
  const ExternalNs := "external_resources:"
  const NearbyNs := "resources:"
  const UpdatesNs := "official_updates:"
  const ImageNs := "image_verification:"

  /** The namespace whose keys hold payloads of the given case. */
  function NamespaceOf(p: Payload): string {
    match p
    case Geocoded(_) => GeocodeNs
    case SocialResult(_, _, _) => SocialNs
    case ExternalPayload(_) => ExternalNs
    case NearbyPayload(_) => NearbyNs
    case UpdatesPayload(_) => UpdatesNs
    case ImagePayload(_) => ImageNs
  }

  /** A key in a feature's namespace holds that feature's payload. */
  predicate Fits(key: string, p: Payload) {
    && (StartsWith(key, GeocodeNs) ==> p.Geocoded?)
    && (StartsWith(key, SocialNs) ==> p.SocialResult?)
    && (StartsWith(key, ExternalNs) ==> p.ExternalPayload?)
    && (StartsWith(key, NearbyNs) ==> p.NearbyPayload?)
    && (StartsWith(key, UpdatesNs) ==> p.UpdatesPayload?)
    && (StartsWith(key, ImageNs) ==> p.ImagePayload?)
  }

  /** The six namespaces are disjoint, so a payload stored under its own namespace fits there. */
  lemma FitsOwnNamespace(key: string, p: Payload)
    requires StartsWith(key, NamespaceOf(p))
    ensures Fits(key, p)
  {
    var ns := NamespaceOf(p);
    assert key[0] == key[..|ns|][0] == ns[0];
    var others := [GeocodeNs, SocialNs, ExternalNs, NearbyNs, UpdatesNs, ImageNs];
    forall q | q in others && q != ns
      ensures !StartsWith(key, q)
    {
      DifferentHeads(key, q);
    }
  }
}
