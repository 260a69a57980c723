/** The disaster listing: every row, or the rows tagged with the requested tag,
    newest first. Both list endpoints run this same query. */
module DbDisasters {
  import opened Common
  import opened DisasterStore

  /** Ordered by `created_at`, descending. */
  predicate NewestFirst(rows: seq<Disaster>) {
    forall i, j :: 0 <= i < j < |rows| ==> rows[i].createdAt >= rows[j].createdAt
  }

  /** Places `d` in a newest-first sequence, before the first row that is not newer. */
  function InsertByDate(d: Disaster, sorted: seq<Disaster>): (r: seq<Disaster>)
    requires NewestFirst(sorted)
    ensures NewestFirst(r)
    ensures multiset(r) == multiset(sorted) + multiset{d}
    ensures |r| == |sorted| + 1
    ensures r != [] && (r[0] == d || (sorted != [] && r[0] == sorted[0]))
    decreases |sorted|
  {
    if sorted == [] || d.createdAt >= sorted[0].createdAt then
      [d] + sorted
    else
      var rest := InsertByDate(d, sorted[1..]);
      assert sorted == [sorted[0]] + sorted[1..];
      [sorted[0]] + rest
  }

  /** `.order('created_at', { ascending: false })`. */
  function SortNewestFirst(rows: seq<Disaster>): (r: seq<Disaster>)
    ensures NewestFirst(r)
    ensures multiset(r) == multiset(rows)
    decreases |rows|
  {
    if rows == [] then []
    else
      assert rows == [rows[0]] + rows[1..];
      InsertByDate(rows[0], SortNewestFirst(rows[1..]))
  }

  /** `.contains('tags', [tag])`, applied only when a non-empty tag is requested. */
  predicate Selected(d: Disaster, tag: Option<string>) {
    !Given(tag) || tag.value in d.tags
  }

  function Matching(rows: seq<Disaster>, tag: Option<string>): seq<Disaster> {
    Filter(rows, (d: Disaster) => Selected(d, tag))
  }

  /** The rows listed for a request, in the order they are sent. */
  function Listing(rows: seq<Disaster>, tag: Option<string>): (r: seq<Disaster>)
    ensures NewestFirst(r)
    ensures multiset(r) == multiset(Matching(rows, tag))
  {
    SortNewestFirst(Matching(rows, tag))
  }

  /** A row is listed exactly when it is in the table and carries the requested tag, if any. */
  lemma ListingMembers(rows: seq<Disaster>, tag: Option<string>)
    ensures forall d :: d in Listing(rows, tag) <==> d in rows && (Given(tag) ==> tag.value in d.tags)
  {
    FilterMembers(rows, (d: Disaster) => Selected(d, tag));
    forall d
      ensures d in Listing(rows, tag) <==> d in Matching(rows, tag)
    {
      assert d in Listing(rows, tag) <==> d in multiset(Listing(rows, tag));
    }
  }

  /** Without a tag every row is listed, each once. */
  lemma ListingWithoutTag(rows: seq<Disaster>, tag: Option<string>)
    requires !Given(tag)
    ensures multiset(Listing(rows, tag)) == multiset(rows)
    ensures |Listing(rows, tag)| == |rows|
  {
    FilterAll(rows, (d: Disaster) => Selected(d, tag));
    assert |multiset(Listing(rows, tag))| == |multiset(rows)|;
  }

  /** `getDbDisasters` (and `getDisasters`, which runs the same query): the listing,
      or 500 with the store's message. */
  function GetDbDisasters(rows: seq<Disaster>, tag: Option<string>, storeError: Option<string>)
    : (reply: Reply<seq<Disaster>>)
    ensures storeError.Some? ==> reply == Refused(500, storeError.value)
    ensures storeError.None? ==>
      && reply.status == 200 && reply.body.Ok? && !reply.cached
      && NewestFirst(reply.body.value)
      && multiset(reply.body.value) == multiset(Matching(rows, tag))
  {
    if storeError.Some? then Refused(500, storeError.value) else Served(Listing(rows, tag), false)
  }
}
