/** `GET /disasters/:id/official-updates`: FEMA press releases that match a
    disaster's tags, place and title, scraped from the agency's listing pages and
    cached for an hour. */
module OfficialUpdates {
  import opened Common
  import opened Values
  import opened CacheStore
  import opened DisasterStore

  const FemaOrigin: string := "https://www.fema.gov"
  const PressReleases: string := "https://www.fema.gov/about/news-multimedia/press-releases"
  /** The number of listing pages the paginated scraper reads when not told otherwise. */
  const DefaultPages: nat := 2
  /** The per-disaster search keeps at most this many items. */
  const MaxItems: nat := 5

  /** One `.views-listing.views-row` of a listing page: the title anchor's text and
      `href` (absent when the anchor has none), the body text and the date text,
      all as the page has them. */
  datatype ScrapedRow = ScrapedRow(titleText: string, href: Option<string>, bodyText: string, dateText: string)

  /** Reading one listing page: its rows, or a thrown request error. */
  datatype PageOutcome = PageRows(rows: seq<ScrapedRow>) | PageFailed

  /** The paginated scraper's result: the items, or the error it let escape. */
  datatype Scraped = Scraped(items: seq<FemaItem>) | ScrapeThrew

  /** A site-relative link gets the FEMA origin in front; any other link is kept. */
  function AbsoluteLink(href: string): (link: string)
    ensures StartsWith(href, "/") ==> link == FemaOrigin + href
    ensures !StartsWith(href, "/") ==> link == href
    ensures !StartsWith(link, "/")
  {
    if href != "" && StartsWith(href, "/") then
      DifferentHeads(FemaOrigin + href, "/");
      FemaOrigin + href
    else href
  }

  /** Normalising a link twice changes nothing more. */
  lemma AbsoluteLinkIdempotent(href: string)
    ensures AbsoluteLink(AbsoluteLink(href)) == AbsoluteLink(href)
  {
  }

  /** An item that the scraper keeps: a title, and an absolute (or already foreign) link. */
  predicate WellFormed(item: FemaItem) {
    item.title != "" && item.link != "" && !StartsWith(item.link, "/")
  }

  /** The item a row yields: only a row with a non-empty trimmed title and a non-empty link. */
  function ToItem(r: ScrapedRow): (item: Option<FemaItem>)
    ensures item.Some? <==> Trim(r.titleText) != "" && Given(r.href)
    ensures item.Some? ==>
      && item.value.title == Trim(r.titleText)
      && item.value.link == AbsoluteLink(r.href.value)
      && item.value.description == Trim(r.bodyText)
      && item.value.date == Trim(r.dateText)
    ensures item.Some? ==> WellFormed(item.value)
  {
    var title := Trim(r.titleText);
    if title != "" && Given(r.href) then
      var link := AbsoluteLink(r.href.value);
      assert link != "" by {
        if StartsWith(r.href.value, "/") {
          assert |link| >= |FemaOrigin|;
        }
      }
      Some(FemaItem(title, link, Trim(r.bodyText), Trim(r.dateText)))
    else None
  }

  /** The items of a page, in page order. */
  function Items(rows: seq<ScrapedRow>): (items: seq<FemaItem>)
    ensures |items| <= |rows|
    ensures forall it :: it in items ==> WellFormed(it)
    decreases |rows|
  {
    if rows == [] then []
    else
      var prev := Items(rows[..|rows| - 1]);
      var item := ToItem(rows[|rows| - 1]);
      if item.Some? then prev + [item.value] else prev
  }

  /** A page's items are exactly the items of its qualifying rows. */
  lemma {:induction false} ItemsMembers(rows: seq<ScrapedRow>)
    ensures forall it :: it in Items(rows) <==> exists r :: r in rows && ToItem(r) == Some(it)
    decreases |rows|
  {
    if rows != [] {
      var init := rows[..|rows| - 1];
      var last := rows[|rows| - 1];
      ItemsMembers(init);
      assert forall r :: r in rows <==> r in init || r == last;
    }
  }

  /** The per-page `each` loop: pushes the item of every qualifying row. */
  method CollectItems(rows: seq<ScrapedRow>) returns (items: seq<FemaItem>)
    ensures items == Items(rows)
  {
    items := [];
    for i := 0 to |rows|
      invariant items == Items(rows[..i])
    {
      assert rows[..i + 1][..i] == rows[..i];
      var item := ToItem(rows[i]);
      if item.Some? {
        items := items + [item.value];
      }
    }
    assert rows[..|rows|] == rows;
  }

  /** The URL of listing page `p`: the base URL for the first page, `?page=p` after it. */
  function PageUrl(p: nat): (url: string)
    ensures StartsWith(url, PressReleases)
    ensures url == PressReleases <==> p == 0
    ensures p > 0 ==> url == PressReleases + "?page=" + NatToString(p)
  {
    if p == 0 then PressReleases
    else
      StartsWithConcat(PressReleases, "?page=" + NatToString(p));
      PressReleases + ("?page=" + NatToString(p))
  }

  /** Different pages have different URLs, so a run over `n` pages requests `n`
      distinct pages. */
  lemma PageUrlsDistinct(p: nat, q: nat)
    requires p != q
    ensures PageUrl(p) != PageUrl(q)
  {
    if p > 0 && q > 0 {
      var head := PressReleases + "?page=";
      assert PageUrl(p)[|head|..] == NatToString(p);
      assert PageUrl(q)[|head|..] == NatToString(q);
      NatToStringInjective(p, q);
    }
  }

  /** The first `n` page URLs, in request order. */
  function PageUrls(n: nat): (urls: seq<string>)
    ensures |urls| == n
    ensures forall p :: 0 <= p < n ==> urls[p] == PageUrl(p)
  {
    seq(n, (p: int) requires 0 <= p => PageUrl(p))
  }

  /** Called without a page count, the scraper reads the first listing page and then
      `?page=1`. */
  lemma DefaultPageUrls()
    ensures PageUrls(DefaultPages) == [PressReleases, PressReleases + "?page=1"]
  {
    var urls := PageUrls(DefaultPages);
    assert NatToString(1) == "1";
    assert urls[0] == PressReleases;
    assert urls[1] == PressReleases + "?page=1";
  }

  /** Scraping the given pages in order: the concatenated items, or a throw as soon as one page fails. */
  function ScrapeAll(urls: seq<string>, fetch: string -> PageOutcome): Scraped
    decreases |urls|
  {
    if urls == [] then Scraped([])
    else
      match ScrapeAll(urls[..|urls| - 1], fetch)
      case ScrapeThrew => ScrapeThrew
      case Scraped(prev) =>
        match fetch(urls[|urls| - 1])
        case PageFailed => ScrapeThrew
        case PageRows(rows) => Scraped(prev + Items(rows))
  }

  /** Some page's request among `urls` fails. */
  predicate SomePageFails(urls: seq<string>, fetch: string -> PageOutcome) {
    exists i :: 0 <= i < |urls| && fetch(urls[i]).PageFailed?
  }

  /** One more page fails the scrape exactly when it or an earlier one fails. */
  lemma ScrapeStep(urls: seq<string>, fetch: string -> PageOutcome)
    requires urls != []
    ensures ScrapeAll(urls, fetch).ScrapeThrew?
            <==> ScrapeAll(urls[..|urls| - 1], fetch).ScrapeThrew? || fetch(urls[|urls| - 1]).PageFailed?
  {
  }

  lemma FailsStep(urls: seq<string>, fetch: string -> PageOutcome)
    requires urls != []
    ensures SomePageFails(urls, fetch)
            <==> SomePageFails(urls[..|urls| - 1], fetch) || fetch(urls[|urls| - 1]).PageFailed?
  {
    var init := urls[..|urls| - 1];
    if SomePageFails(urls, fetch) && !fetch(urls[|urls| - 1]).PageFailed? {
      var i :| 0 <= i < |urls| && fetch(urls[i]).PageFailed?;
      assert init[i] == urls[i];
    }
    if SomePageFails(init, fetch) {
      var i :| 0 <= i < |init| && fetch(init[i]).PageFailed?;
      assert init[i] == urls[i];
    }
  }

  /** The scrape throws exactly when some page's request fails. */
  lemma {:induction false} ScrapeThrowsIff(urls: seq<string>, fetch: string -> PageOutcome)
    ensures ScrapeAll(urls, fetch).ScrapeThrew? <==> SomePageFails(urls, fetch)
    decreases |urls|
  {
    if urls != [] {
      ScrapeThrowsIff(urls[..|urls| - 1], fetch);
      ScrapeStep(urls, fetch);
      FailsStep(urls, fetch);
    }
  }

  /** Once a prefix of the pages throws, the whole scrape throws. */
  lemma {:induction false} ThrowSticks(urls: seq<string>, k: nat, fetch: string -> PageOutcome)
    requires k <= |urls|
    requires ScrapeAll(urls[..k], fetch).ScrapeThrew?
    ensures ScrapeAll(urls, fetch).ScrapeThrew?
    decreases |urls| - k
  {
    if k == |urls| {
      assert urls[..k] == urls;
    } else {
      var init := urls[..|urls| - 1];
      assert init[..k] == urls[..k];
      ThrowSticks(init, k, fetch);
    }
  }

  /** Scraping one more page that answers appends its items. */
  lemma ScrapeAppend(urls: seq<string>, url: string, fetch: string -> PageOutcome, updates: seq<FemaItem>)
    requires ScrapeAll(urls, fetch) == Scraped(updates)
    requires fetch(url).PageRows?
    ensures ScrapeAll(urls + [url], fetch) == Scraped(updates + Items(fetch(url).rows))
  {
    assert (urls + [url])[..|urls|] == urls;
  }

  lemma PageUrlsStep(n: nat)
    ensures PageUrls(n + 1) == PageUrls(n) + [PageUrl(n)]
    ensures PageUrls(n + 1)[..n] == PageUrls(n)
  {
  }

  /** Every one of `urls` was read without an error. */
  predicate PagesRead(urls: seq<string>, fetch: string -> PageOutcome) {
    forall i :: 0 <= i < |urls| ==> fetch(urls[i]).PageRows?
  }

  lemma PagesReadStep(urls: seq<string>, url: string, fetch: string -> PageOutcome)
    requires PagesRead(urls, fetch) && fetch(url).PageRows?
    ensures PagesRead(urls + [url], fetch)
    ensures (urls + [url])[..|urls|] == urls
  {
    assert forall i :: 0 <= i < |urls| ==> (urls + [url])[i] == urls[i];
  }

  /** `fetchFemaUpdates(pages)`: reads pages `0 .. pages-1` in order; `requested`
      lists the URLs asked for. A failing page ends the loop with the error. */
  method FetchFemaUpdates(pages: nat, fetch: string -> PageOutcome) returns (result: Scraped, requested: seq<string>)
    ensures result == ScrapeAll(PageUrls(pages), fetch)
    ensures |requested| <= pages && requested == PageUrls(|requested|)
    ensures result.Scraped? ==> |requested| == pages
    ensures result.ScrapeThrew? ==> requested != [] && fetch(requested[|requested| - 1]).PageFailed?
    ensures result.Scraped? ==> PagesRead(requested, fetch)
    ensures result.ScrapeThrew? ==> PagesRead(requested[..|requested| - 1], fetch)
  {
    var updates: seq<FemaItem> := [];
    requested := [];
    var page: nat := 0;
    while page < pages
      invariant page <= pages
      invariant requested == PageUrls(page)
      invariant ScrapeAll(requested, fetch) == Scraped(updates)
      invariant PagesRead(requested, fetch)
    {
      var url := PageUrl(page);
      PageUrlsStep(page);
      var outcome := fetch(url);
      if outcome.PageFailed? {
        assert (requested + [url])[..page] == requested;
        requested := requested + [url];
        assert ScrapeAll(requested, fetch).ScrapeThrew? by {
          assert requested[..page] == PageUrls(page);
        }
        assert PageUrls(pages)[..page + 1] == requested;
        ThrowSticks(PageUrls(pages), page + 1, fetch);
        return ScrapeThrew, requested;
      }
      var got := CollectItems(outcome.rows);
      ScrapeAppend(requested, url, fetch, updates);
      PagesReadStep(requested, url, fetch);
      requested := requested + [url];
      updates := updates + got;
      page := page + 1;
    }
    result := Scraped(updates);
  }

  /** The search terms: the tags, then the place name, then the title, empty ones dropped. */
  function Keywords(d: Disaster): (ks: seq<string>)
    ensures forall k :: k in ks <==> k != "" && (k in d.tags || k == d.locationName || k == d.title)
    ensures ks == Filter(d.tags, (k: string) => k != "")
                  + Filter([d.locationName, d.title], (k: string) => k != "")
  {
    var keep := (k: string) => k != "";
    FilterMembers(d.tags + [d.locationName, d.title], keep);
    FilterConcat(d.tags, [d.locationName, d.title], keep);
    Filter(d.tags + [d.locationName, d.title], keep)
  }

  /** `keywords.join(' ')`, the text the search is run for. */
  function SearchText(d: Disaster): string {
    Join(Keywords(d), " ")
  }

  /** When no term holds a space, the search text splits back into exactly the terms. */
  lemma SearchTextSplits(d: Disaster)
    requires Keywords(d) != []
    requires forall k :: k in Keywords(d) ==> ' ' !in k
    ensures Split(SearchText(d), ' ') == Keywords(d)
  {
    SplitJoin(Keywords(d), ' ');
  }

  /** `fetchFemaUpdatesForDisaster`: searches for the disaster's terms and keeps the
      first five items; a failed search yields no items rather than an error.
      `query` is the search text sent. */
  method FetchFemaUpdatesForDisaster(d: Disaster, search: string -> PageOutcome)
    returns (items: seq<FemaItem>, query: string)
    ensures query == SearchText(d)
    ensures |items| <= MaxItems
    ensures forall it :: it in items ==> WellFormed(it)
    ensures search(query).PageFailed? ==> items == []
    ensures search(query).PageRows? ==> items == Take(Items(search(query).rows), MaxItems)
  {
    query := SearchText(d);
    match search(query)
    case PageFailed =>
      items := [];
    case PageRows(rows) =>
      var all := CollectItems(rows);
      items := Take(all, MaxItems);
      assert forall it :: it in items ==> it in all;
  }

  /** `official_updates:<id>`. */
  function UpdatesKey(id: string): (k: string)
    ensures StartsWith(k, UpdatesNs)
    ensures k[|UpdatesNs|..] == id
  {
    StartsWithConcat(UpdatesNs, id);
    UpdatesNs + id
  }

  /** `getOfficialUpdates`. `search` stands for the FEMA search page; `searched`
      is the text searched for, if a search was made. */
  method GetOfficialUpdates(cache: CacheTable, disasters: DisasterTable, id: string, now: int,
                            search: string -> PageOutcome)
    returns (reply: Reply<seq<UpdateGroup>>, searched: Option<string>)
    requires cache.Valid()
    modifies cache
    ensures cache.Valid()
    ensures var key := UpdatesKey(id);
      var row := Cached(old(cache.rows), key);
      var found := Find(disasters.rows, id);
      && (IsHit(row, now) ==>
            && row.value.value.UpdatesPayload?
            && reply == Served(row.value.value.updates, true)
            && searched == None && cache.rows == old(cache.rows))
      && (!IsHit(row, now) && found.None? ==>
            && reply == Refused(404, "Disaster not found")
            && searched == None && cache.rows == old(cache.rows))
      && (!IsHit(row, now) && found.Some? ==>
            && searched == Some(SearchText(found.value))
            && reply.status == 200 && reply.body.Ok? && !reply.cached
            && |reply.body.value| == 1 && reply.body.value[0].source == "FEMA"
            && |reply.body.value[0].items| <= MaxItems
            && (search(searched.value).PageFailed? ==> reply.body.value[0].items == [])
            && (search(searched.value).PageRows? ==>
                  reply.body.value[0].items == Take(Items(search(searched.value).rows), MaxItems))
            && cache.rows == Put(old(cache.rows), key, UpdatesPayload(reply.body.value), now, TtlMs))
  {
    var key := UpdatesKey(id);
    var row := cache.Lookup(key);
    searched := None;
    if IsHit(row, now) {
      return Served(row.value.value.updates, true), searched;
    }
    var disaster := disasters.Get(id);
    if disaster.None? {
      return Refused(404, "Disaster not found"), searched;
    }
    var fema, query := FetchFemaUpdatesForDisaster(disaster.value, search);
    searched := Some(query);
    var updates := [UpdateGroup("FEMA", fema)];
    cache.Upsert(key, UpdatesPayload(updates), now, TtlMs);
    reply := Served(updates, false);
  }
}
