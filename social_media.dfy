/** `GET /disasters/:id/social-media`: timeline posts that mention a keyword,
    cached for an hour, with a placeholder list when nothing matches and a
    stale-cache or placeholder fallback when the feed cannot be read. */
module SocialMedia {
  import opened Common
  import opened Values
  import opened CacheStore

  const CacheTtlMinutes: int := 60

  /** One timeline entry: `post.record.text` (which may be absent),
      `post.author.handle` and `post.record.createdAt`. */
  datatype FeedItem = FeedItem(text: Option<string>, handle: string, createdAt: string)

  /** The login and timeline request: the `feed` array (absent means none), or a thrown error. */
  datatype FeedOutcome = Timeline(feed: Option<seq<FeedItem>>) | FeedFailed

  /** The reply body `{disaster_id, posts, source}`. */
  datatype SocialFeed = SocialFeed(disasterId: string, posts: seq<Post>, source: string)

  /** The placeholder list served when nothing matches or nothing is known. */
  const MockPosts: seq<Post> := [
    Post("#floodrelief Need food and clean water in Lower East Side, Manhattan", "citizen1", "2025-06-17T10:00:00Z"),
    Post("Urgent: water level rising near Queens Blvd! #floodSOS", "netrunnerX", "2025-06-17T10:05:00Z"),
    Post("Red Cross shelter operational in Brooklyn Heights. Walk-ins welcome. #relief", "reliefAdmin", "2025-06-17T10:10:00Z"),
    Post("Anyone near SoHo with medical experience? Elderly trapped. #flood #urgent", "localMedic", "2025-06-17T10:12:00Z"),
    Post("We're handing out blankets and hot meals on 5th Ave & 20th St. #floodrelief", "mealTeam6", "2025-06-17T10:15:00Z"),
    Post("Signal weak in Bronx. No power since last night. Need update on rescue.", "bronxVoices", "2025-06-17T10:18:00Z"),
    Post("Boat team heading to Canal St. Ping us if stranded in that zone. #rescueOps", "floodFleetOps", "2025-06-17T10:22:00Z"),
    Post("We need diapers, formula at Harlem shelter ASAP. #helpneeded", "harlemRelief", "2025-06-17T10:25:00Z"),
    Post("Just saw debris floating across Madison Ave. Don't drive. #floodupdate", "trafficWatchNY", "2025-06-17T10:27:00Z"),
    Post("Trapped with 3 kids at 88th & York. Floor 2. No cell signal. Please assist! #floodSOS", "momInDistress", "2025-06-17T10:32:00Z"),
    Post("Downtown hospital generator failed. Evacuating critical patients. #urgent", "nyEmergencyCoord", "2025-06-17T10:35:00Z"),
    Post("Dogs and cats left behind in East Village! Volunteers needed. #animalrescue", "petrescueNYC", "2025-06-17T10:40:00Z"),
    Post("Food truck open at Times Sq giving free hot meals. #floodrelief", "streetAid", "2025-06-17T10:45:00Z"),
    Post("We need more blankets at Staten Island center. It's freezing. #floodrelief", "volunteerHQ", "2025-06-17T10:47:00Z"),
    Post("Trapped under debris near Battery Park. Sending GPS location. Please hurry.", "geoStranded", "2025-06-17T10:50:00Z"),
    Post("N95 masks needed at the Midtown shelter due to mold. #postfloodhealth", "medWatch", "2025-06-17T10:53:00Z"),
    Post("Building collapse in Bushwick reported. Awaiting confirmation. #disaster", "crisisSignal", "2025-06-17T10:55:00Z")
  ]

  /** `tag || disasterId`. */
  function Keyword(disasterId: string, tag: Option<string>): (k: string)
    ensures Given(tag) ==> k == tag.value
    ensures !Given(tag) ==> k == disasterId
  {
    if Given(tag) then tag.value else disasterId
  }

  /** `social_media:<id>:<keyword>`. */
  function SocialKey(disasterId: string, keyword: string): (k: string)
    ensures StartsWith(k, SocialNs)
  {
    StartsWithConcat(SocialNs, disasterId + ":" + keyword);
    SocialNs + (disasterId + ":" + keyword)
  }

  /** The item's text contains the keyword, ignoring ASCII case. */
  predicate Mentions(item: FeedItem, keyword: string) {
    item.text.Some? && Contains(Lower(item.text.value), Lower(keyword))
  }

  function ToPost(item: FeedItem): Post
    requires item.text.Some?
  {
    Post(item.text.value, item.handle, item.createdAt)
  }

  /** The `filter` then `map` over the timeline. */
  function MatchingPosts(items: seq<FeedItem>, keyword: string): (posts: seq<Post>)
    ensures |posts| <= |items|
    ensures forall p :: p in posts <==> exists it :: it in items && Mentions(it, keyword) && p == ToPost(it)
    decreases |items|
  {
    if items == [] then []
    else
      var rest := MatchingPosts(items[1..], keyword);
      assert forall it :: it in items <==> it == items[0] || it in items[1..];
      if Mentions(items[0], keyword) then [ToPost(items[0])] + rest else rest
  }

  /** The kept posts keep the timeline's order: matching distributes over concatenation. */
  lemma {:induction false} MatchingPostsInOrder(a: seq<FeedItem>, b: seq<FeedItem>, keyword: string)
    ensures MatchingPosts(a + b, keyword) == MatchingPosts(a, keyword) + MatchingPosts(b, keyword)
    decreases |a|
  {
    if a == [] {
      assert a + b == b;
    } else {
      assert (a + b)[0] == a[0] && (a + b)[1..] == a[1..] + b;
      MatchingPostsInOrder(a[1..], b, keyword);
    }
  }

  /** The result built from a readable timeline. */
  function FeedResult(disasterId: string, keyword: string, items: seq<FeedItem>): (r: SocialFeed)
    ensures r.disasterId == disasterId
    ensures r.source == "mock" || r.source == "bluesky"
    ensures r.source == "mock" <==> forall it :: it in items ==> !Mentions(it, keyword)
    ensures r.source == "mock" ==> r.posts == MockPosts
    ensures r.source == "bluesky" ==> r.posts == MatchingPosts(items, keyword)
    ensures r.posts != []
  {
    var posts := MatchingPosts(items, keyword);
    assert forall it :: it in items && Mentions(it, keyword) ==> ToPost(it) in posts;
    if posts == [] then
      SocialFeed(disasterId, MockPosts, "mock")
    else
      assert posts[0] in posts;
      SocialFeed(disasterId, posts, "bluesky")
  }

  function Stored(f: SocialFeed): Payload {
    SocialResult(f.disasterId, f.posts, f.source)
  }

  /** `getSocialMedia`. `credentialsSet` says whether both Bluesky settings are
      present; `feed` is what login and the timeline request give. `contacted`
      says whether Bluesky was called. */
  method GetSocialMedia(cache: CacheTable, disasterId: string, tag: Option<string>, now: int,
                        credentialsSet: bool, feed: FeedOutcome)
    returns (reply: Reply<SocialFeed>, contacted: bool)
    requires cache.Valid()
    modifies cache
    ensures cache.Valid()
    ensures var key := SocialKey(disasterId, Keyword(disasterId, tag));
      var row := Cached(old(cache.rows), key);
      && (IsHit(row, now) ==>
            && row.value.value.SocialResult?
            && reply == Served(SocialFeed(disasterId, row.value.value.posts, row.value.value.source), true)
            && !contacted && cache.rows == old(cache.rows))
      && (!IsHit(row, now) && !credentialsSet ==>
            && reply == Refused(500, "Bluesky credentials not set in .env")
            && !contacted && cache.rows == old(cache.rows))
      && (!IsHit(row, now) && credentialsSet ==> contacted && reply.status == 200)
      && (!IsHit(row, now) && credentialsSet && feed.Timeline? ==>
            var result := FeedResult(disasterId, Keyword(disasterId, tag), if feed.feed.Some? then feed.feed.value else []);
            && reply == Served(result, false)
            && cache.rows == Put(old(cache.rows), key, Stored(result), now, CacheTtlMinutes * 60 * 1000))
      && (!IsHit(row, now) && credentialsSet && feed.FeedFailed? ==>
            && cache.rows == old(cache.rows)
            && (row.Some? ==>
                  && row.value.value.SocialResult?
                  && reply == Served(SocialFeed(disasterId, row.value.value.posts, row.value.value.source), true))
            && (row.None? ==> reply == Served(SocialFeed(disasterId, MockPosts, "mock"), false)))
  {
    var keyword := Keyword(disasterId, tag);
    var key := SocialKey(disasterId, keyword);
    var row := cache.Lookup(key);
    contacted := false;
    if IsHit(row, now) {
      var v := row.value.value;
      return Served(SocialFeed(disasterId, v.posts, v.source), true), contacted;
    }
    if !credentialsSet {
      return Refused(500, "Bluesky credentials not set in .env"), contacted;
    }
    contacted := true;
    match feed
    case Timeline(items) =>
      var result := FeedResult(disasterId, keyword, if items.Some? then items.value else []);
      cache.Upsert(key, Stored(result), now, CacheTtlMinutes * 60 * 1000);
      reply := Served(result, false);
    case FeedFailed =>
      if row.Some? {
        var v := row.value.value;
        reply := Served(SocialFeed(disasterId, v.posts, v.source), true);
      } else {
        reply := Served(SocialFeed(disasterId, MockPosts, "mock"), false);
      }
  }
}
