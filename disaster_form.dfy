/** The front end's disaster form: the tag list the user builds one Enter at a
    time, and the create request the form submits. */
module DisasterForm {
  import opened Common
  import opened Disasters

  /** The tags chosen so far and the text in the tag box. */
  datatype TagState = TagState(tags: seq<string>, input: string)

  /** `handleAddTag`: on Enter with non-blank text, the trimmed text is appended
      unless already present, and the box is cleared either way. */
  function AddTag(s: TagState, key: string): (r: TagState)
    ensures key != "Enter" || Trim(s.input) == "" ==> r == s
    ensures key == "Enter" && Trim(s.input) != "" ==>
      && r.input == ""
      && Trim(s.input) in r.tags
      && (Trim(s.input) in s.tags ==> r.tags == s.tags)
      && (Trim(s.input) !in s.tags ==> r.tags == s.tags + [Trim(s.input)])
  {
    var t := Trim(s.input);
    if key == "Enter" && t != "" then
      TagState(if t !in s.tags then s.tags + [t] else s.tags, "")
    else s
  }

  /** Every tag is trimmed and non-blank, and no tag appears twice. */
  predicate Clean(tags: seq<string>) {
    && (forall i :: 0 <= i < |tags| ==> tags[i] != "" && Trim(tags[i]) == tags[i])
    && (forall i, j :: 0 <= i < j < |tags| ==> tags[i] != tags[j])
  }

  /** Adding tags keeps the list clean, whatever is typed. */
  lemma AddTagKeepsClean(s: TagState, key: string)
    requires Clean(s.tags)
    ensures Clean(AddTag(s, key).tags)
  {
    var t := Trim(s.input);
    if key == "Enter" && t != "" && t !in s.tags {
      TrimIdempotent(s.input);
      var r := s.tags + [t];
      assert AddTag(s, key).tags == r;
      forall i | 0 <= i < |r|
        ensures r[i] != "" && Trim(r[i]) == r[i]
      {
        if i < |s.tags| {
          assert r[i] == s.tags[i];
        }
      }
      forall i, j | 0 <= i < j < |r|
        ensures r[i] != r[j]
      {
        assert r[i] == s.tags[i] && s.tags[i] in s.tags;
        if j < |s.tags| {
          assert r[j] == s.tags[j];
        }
      }
    }
  }

  /** Pressing Enter again right after adding a tag changes nothing. */
  lemma AddTagSettles(s: TagState)
    ensures AddTag(AddTag(s, "Enter"), "Enter").tags == AddTag(s, "Enter").tags
  {
  }

  /** The geocoded position of the place, as the numbers render in text. */
  datatype Coords = Coords(lat: JsNumber, lon: JsNumber)

  /** The form's fields at submit time. */
  datatype Form = Form(title: string, locationName: string, coords: Option<Coords>, tags: seq<string>,
                       description: string)

  /** What pressing submit does: send the create body, or stop with an error. */
  datatype Submission = Submitted(body: DisasterFields) | Blocked(error: string)

  /** The WKT text `POINT(<lon> <lat>)`, longitude first. */
  function WktPoint(c: Coords): string {
    "POINT(" + c.lon.text + " " + c.lat.text + ")"
  }

  /** Reads a `POINT(<lon> <lat>)` text back into its coordinates. */
  function ParseWktPoint(s: string): Option<Coords> {
    if |s| >= 7 && s[..6] == "POINT(" && s[|s| - 1] == ')' then
      var parts := Split(s[6..|s| - 1], ' ');
      if |parts| == 2 then Some(Coords(JsNumber(parts[1]), JsNumber(parts[0]))) else None
    else None
  }

  /** The point text gives back the coordinates it was made from, in their places,
      since a rendered number holds no space. */
  lemma WktRoundTrip(c: Coords)
    requires ' ' !in c.lon.text && ' ' !in c.lat.text
    ensures ParseWktPoint(WktPoint(c)) == Some(c)
  {
    var s := WktPoint(c);
    assert s[..6] == "POINT(";
    assert s[6..|s| - 1] == c.lon.text + [' '] + c.lat.text;
    SplitAfterHead(c.lon.text, ' ', c.lat.text);
    SplitWhole(c.lat.text, ' ');
  }

  /** `handleSubmit` up to the request: no coordinates means no request. `user` is
      the signed-in user's id, if any. */
  function Submit(form: Form, user: Option<string>): (s: Submission)
    ensures form.coords.None? ==> s == Blocked("Please geocode the location to get coordinates.")
    ensures form.coords.Some? ==>
      && s.Submitted?
      && s.body.location == Some(WktPoint(form.coords.value))
      && s.body.title == Some(form.title) && s.body.locationName == Some(form.locationName)
      && s.body.description == Some(form.description) && s.body.tags == Some(form.tags)
      && s.body.ownerId == user
  {
    if form.coords.None? then Blocked("Please geocode the location to get coordinates.")
    else
      Submitted(DisasterFields(Some(form.title), Some(form.locationName), Some(WktPoint(form.coords.value)),
                               Some(form.description), Some(form.tags), user))
  }

  /** A geocoded form with its text fields filled in, sent by a signed-in user, passes
      the server's required-field check; without a user it never does. */
  lemma SubmitMeetsCreateCheck(form: Form, user: Option<string>)
    requires form.coords.Some?
    ensures HasRequired(Submit(form, user).body) <==>
              form.title != "" && form.locationName != "" && form.description != "" && Given(user)
  {
  }
}
