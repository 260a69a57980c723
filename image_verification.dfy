/** `POST /disasters/:id/verify-image`: a vision model's authenticity summary of
    an image, cached for an hour per disaster and image URL. */
module ImageVerification {
  import opened Common
  import opened Values
  import opened CacheStore

  /** The model's reply: its `text` (possibly absent) and the whole reply as JSON text. */
  datatype Analysis = Analysis(text: Option<string>, raw: string)

  /** Downloading the image and asking the model: the reply, or a thrown error. */
  datatype AnalysisOutcome = Analysed(analysis: Analysis) | AnalysisFailed

  /** `image_verification:<id>:<image_url>`. */
  function ImageKey(id: string, imageUrl: string): (k: string)
    ensures StartsWith(k, ImageNs)
  {
    var rest := id + ":" + imageUrl;
    StartsWithConcat(ImageNs, rest);
    ImageNs + rest
  }

  /** `result.text || null`: never an empty summary. */
  function Summary(text: Option<string>): (s: Option<string>)
    ensures s.Some? <==> Given(text)
    ensures s.Some? ==> s == text && s.value != ""
  {
    if Given(text) then text else None
  }

  function VerdictOf(imageUrl: string, a: Analysis): Verdict {
    Verdict(imageUrl, a.raw, Summary(a.text))
  }

  /** `verifyImage`. `apiKeySet` says whether the API key is configured;
      `analysis` is what the download and the model call give; `contacted` says
      whether either was attempted. */
  method VerifyImage(cache: CacheTable, id: string, imageUrl: Option<string>, now: int,
                     apiKeySet: bool, analysis: AnalysisOutcome)
    returns (reply: Reply<Verdict>, contacted: bool)
    requires cache.Valid()
    modifies cache
    ensures cache.Valid()
    ensures !Given(imageUrl) ==>
      reply == Refused(400, "Missing image_url in request body") && !contacted && cache.rows == old(cache.rows)
    ensures Given(imageUrl) ==>
      var url := imageUrl.value;
      var key := ImageKey(id, url);
      var row := Cached(old(cache.rows), key);
      var failed := Reply(500, Fail("Image verification failed", Some(url)), false);
      && (IsHit(row, now) ==>
            && row.value.value.ImagePayload?
            && reply == Served(row.value.value.verdict, true)
            && !contacted && cache.rows == old(cache.rows))
      && (!IsHit(row, now) && !apiKeySet ==> reply == failed && !contacted && cache.rows == old(cache.rows))
      && (!IsHit(row, now) && apiKeySet ==> contacted)
      && (!IsHit(row, now) && apiKeySet && analysis.AnalysisFailed? ==>
            reply == failed && cache.rows == old(cache.rows))
      && (!IsHit(row, now) && apiKeySet && analysis.Analysed? ==>
            var verdict := VerdictOf(url, analysis.analysis);
            && reply == Served(verdict, false)
            && cache.rows == Put(old(cache.rows), key, ImagePayload(verdict), now, TtlMs))
  {
    contacted := false;
    if !Given(imageUrl) {
      return Refused(400, "Missing image_url in request body"), contacted;
    }
    var url := imageUrl.value;
    var key := ImageKey(id, url);
    var row := cache.Lookup(key);
    if IsHit(row, now) {
      return Served(row.value.value.verdict, true), contacted;
    }
    if !apiKeySet {
      return Reply(500, Fail("Image verification failed", Some(url)), false), contacted;
    }
    contacted := true;
    match analysis
    case AnalysisFailed =>
      reply := Reply(500, Fail("Image verification failed", Some(url)), false);
    case Analysed(a) =>
      var verdict := VerdictOf(url, a);
      cache.Upsert(key, ImagePayload(verdict), now, TtlMs);
      reply := Served(verdict, false);
  }
}
