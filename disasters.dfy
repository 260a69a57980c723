/** Create, update and delete of disaster records: required-field checks, the
    field-by-field merge of an update, and the audit trail. */
module Disasters {
  import opened Common
  import opened DisasterStore

  /** The request body of a create or update; `None` is a field that is absent or null. */
  datatype DisasterFields = DisasterFields(
    title: Option<string>,
    locationName: Option<string>,
    location: Option<string>,
    description: Option<string>,
    tags: Option<seq<string>>,
    ownerId: Option<string>)

  /** The create check: title, place name, description and owner must be non-empty
      text, and a tags array must be present (an empty one will do); the location
      may be left out. */
  predicate HasRequired(f: DisasterFields) {
    Given(f.title) && Given(f.locationName) && Given(f.description) && f.tags.Some? && Given(f.ownerId)
  }

  /** The audit trail of a row, a missing one read as empty. */
  function Trail(d: Disaster): seq<AuditEntry> {
    if d.auditTrail.Some? then d.auditTrail.value else []
  }

  /** The row a valid create inserts. `status` is the table's column default. */
  function NewDisaster(f: DisasterFields, id: string, now: int, status: string): (d: Disaster)
    requires HasRequired(f)
    ensures d.id == id && d.createdAt == now && d.status == status
    ensures d.title == f.title.value && d.locationName == f.locationName.value
    ensures d.description == f.description.value && d.tags == f.tags.value
    ensures d.location == f.location && d.ownerId == f.ownerId.value
    ensures d.auditTrail == Some([AuditEntry("create", d.ownerId, now)])
  {
    Disaster(id, f.title.value, f.locationName.value, f.location, f.description.value, f.tags.value,
             f.ownerId.value, now, Some([AuditEntry("create", f.ownerId.value, now)]), status)
  }

  /** Who an update is attributed to: the supplied owner, else the row's owner. */
  function Editor(current: Disaster, f: DisasterFields): (who: string)
    ensures Given(f.ownerId) ==> who == f.ownerId.value
    ensures !Given(f.ownerId) ==> who == current.ownerId
  {
    if Given(f.ownerId) then f.ownerId.value else current.ownerId
  }

  /** The update entry names the supplied owner when one is given, else the row's owner;
      a supplied owner never takes over the row itself. */
  lemma MergeAttribution(current: Disaster, f: DisasterFields, now: int)
    ensures var r := Merge(current, f, now);
      && r.ownerId == current.ownerId
      && |Trail(r)| == |Trail(current)| + 1
      && Trail(r)[|Trail(current)|].action == "update"
      && Trail(r)[|Trail(current)|].timestamp == now
      && Trail(r)[|Trail(current)|].userId == (if Given(f.ownerId) then f.ownerId.value else current.ownerId)
  {
  }

  /** The updated row: each of the five editable fields is replaced only when
      supplied, and one `update` entry is appended to the trail. */
  function Merge(current: Disaster, f: DisasterFields, now: int): (r: Disaster)
    ensures r.id == current.id && r.ownerId == current.ownerId
    ensures r.createdAt == current.createdAt && r.status == current.status
    ensures r.title == Otherwise(f.title, current.title)
    ensures r.locationName == Otherwise(f.locationName, current.locationName)
    ensures r.location == (if f.location.Some? then f.location else current.location)
    ensures r.description == Otherwise(f.description, current.description)
    ensures r.tags == Otherwise(f.tags, current.tags)
    ensures r.auditTrail == Some(Trail(current) + [AuditEntry("update", Editor(current, f), now)])
  {
    current.(
      title := Otherwise(f.title, current.title),
      locationName := Otherwise(f.locationName, current.locationName),
      location := if f.location.Some? then f.location else current.location,
      description := Otherwise(f.description, current.description),
      tags := Otherwise(f.tags, current.tags),
      auditTrail := Some(Trail(current) + [AuditEntry("update", Editor(current, f), now)]))
  }

  /** The same row with its trail dropped: what an update may change besides the trail. */
  function Content(d: Disaster): Disaster {
    d.(auditTrail := None)
  }

  const NoFields: DisasterFields := DisasterFields(None, None, None, None, None, None)

  /** An update that supplies nothing changes nothing but the trail. */
  lemma MergeNothing(current: Disaster, now: int)
    ensures Content(Merge(current, NoFields, now)) == Content(current)
    ensures Trail(Merge(current, NoFields, now)) == Trail(current) + [AuditEntry("update", current.ownerId, now)]
  {
  }

  /** Each update keeps the earlier trail as a prefix and adds exactly one entry. */
  lemma MergeExtendsTrail(current: Disaster, f: DisasterFields, now: int)
    ensures var r := Merge(current, f, now);
            |Trail(r)| == |Trail(current)| + 1 && Trail(r)[..|Trail(current)|] == Trail(current)
            && Trail(r)[|Trail(current)|].action == "update"
  {
    var r := Merge(current, f, now);
    assert Trail(r)[..|Trail(current)|] == Trail(current);
  }

  /** The fields of `g`, with those of `f` filling in what `g` leaves out. */
  function Then(f: DisasterFields, g: DisasterFields): DisasterFields {
    DisasterFields(
      if g.title.Some? then g.title else f.title,
      if g.locationName.Some? then g.locationName else f.locationName,
      if g.location.Some? then g.location else f.location,
      if g.description.Some? then g.description else f.description,
      if g.tags.Some? then g.tags else f.tags,
      if Given(g.ownerId) then g.ownerId else f.ownerId)
  }

  /** Two updates in a row leave the same content as one update carrying the later
      value of each field, and the trail gains the two entries in order. */
  lemma MergeCompose(current: Disaster, f: DisasterFields, g: DisasterFields, t1: int, t2: int)
    ensures Content(Merge(Merge(current, f, t1), g, t2)) == Content(Merge(current, Then(f, g), t2))
    ensures Trail(Merge(Merge(current, f, t1), g, t2))
            == Trail(current) + [AuditEntry("update", Editor(current, f), t1),
                                 AuditEntry("update", Editor(current, g), t2)]
  {
    var once := Merge(current, f, t1);
    assert Trail(Merge(once, g, t2)) == Trail(once) + [AuditEntry("update", Editor(once, g), t2)];
  }

  /** `createDisaster`. `newId` is the fresh identifier and `now` the creation time. */
  method CreateDisaster(table: DisasterTable, f: DisasterFields, newId: string, now: int)
    returns (reply: Reply<Disaster>)
    requires table.Valid()
    modifies table
    ensures table.Valid()
    ensures !HasRequired(f) ==>
      reply == Refused(400, "Missing required fields") && table.rows == old(table.rows)
    ensures HasRequired(f) && newId in Ids(old(table.rows)) ==>
      reply == Refused(500, DuplicateId) && table.rows == old(table.rows)
    ensures HasRequired(f) && newId !in Ids(old(table.rows)) ==>
      var d := NewDisaster(f, newId, now, table.defaultStatus);
      reply == Reply(201, Ok(d), false) && table.rows == old(table.rows) + [d]
  {
    if !HasRequired(f) {
      return Refused(400, "Missing required fields");
    }
    var d := NewDisaster(f, newId, now, table.defaultStatus);
    var error := table.Insert(d);
    if error.Some? {
      return Refused(500, error.value);
    }
    reply := Reply(201, Ok(d), false);
  }

  /** `updateDisaster`: the merged row replaces the stored one. */
  method UpdateDisaster(table: DisasterTable, id: string, f: DisasterFields, now: int)
    returns (reply: Reply<Disaster>)
    requires table.Valid()
    modifies table
    ensures table.Valid()
    ensures var found := Find(old(table.rows), id);
      && (found.None? ==> reply == Refused(404, "Not found") && table.rows == old(table.rows))
      && (found.Some? ==>
            var d := Merge(found.value, f, now);
            && reply == Served(d, false)
            && table.rows == Replace(old(table.rows), id, d)
            && Find(table.rows, id) == Some(d))
  {
    var current := table.Get(id);
    if current.None? {
      return Refused(404, "Not found");
    }
    var d := Merge(current.value, f, now);
    FindAfterReplace(table.rows, id, d, id);
    table.Update(id, d);
    reply := Served(d, false);
  }

  /** `deleteDisaster`: no row with that id is an error from the store, sent as 404. */
  method DeleteDisaster(table: DisasterTable, id: string) returns (reply: Reply<Deletion>)
    requires table.Valid()
    modifies table
    ensures table.Valid()
    ensures id !in Ids(old(table.rows)) ==>
      reply == Refused(404, NoSingleRow) && table.rows == old(table.rows)
    ensures id in Ids(old(table.rows)) ==>
      reply == Served(Deletion("Deleted", id), false) && table.rows == Remove(old(table.rows), id)
    ensures id !in Ids(table.rows)
  {
    var removed := table.Delete(id);
    if removed.None? {
      FilterAll(old(table.rows), (x: Disaster) => x.id != id);
      return Refused(404, NoSingleRow);
    }
    reply := Served(Deletion("Deleted", removed.value.id), false);
  }
}
