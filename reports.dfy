/** Citizen reports on a disaster: creation, and owner-only update and delete. */
module Reports {
  import opened Common

  /** A report row. `userId` is the author's id, absent when the request carried no
      user; `imageUrl` is null when none was given; `createdAt` is in milliseconds. */
  datatype Report = Report(
    id: string,
    disasterId: string,
    userId: Option<string>,
    content: string,
    imageUrl: Option<string>,
    verificationStatus: string,
    createdAt: int)

  /** The body of an update; `None` is a field that is absent or null. */
  datatype ReportFields = ReportFields(content: Option<string>, imageUrl: Option<string>,
                                       verificationStatus: Option<string>)

  /** The primary-key violation the store reports for an id already in the table. */
  const DuplicateId: string := "duplicate key value violates unique constraint \"reports_pkey\""

  /** The `reports` table, keyed by report id. */
  class ReportTable {
    var rows: map<string, Report>

    ghost predicate Valid()
      reads this
    {
      forall k :: k in rows ==> rows[k].id == k
    }

    constructor ()
      ensures Valid() && rows == map[]
    {
      rows := map[];
    }

    method Get(id: string) returns (r: Option<Report>)
      ensures r.Some? <==> id in rows
      ensures r.Some? ==> r.value == rows[id]
    {
      r := if id in rows then Some(rows[id]) else None;
    }

    /** `.insert([r])`: refused with the key violation when the id is taken. */
    method Insert(r: Report) returns (error: Option<string>)
      requires Valid()
      modifies this
      ensures Valid()
      ensures r.id in old(rows) ==> error == Some(DuplicateId) && rows == old(rows)
      ensures r.id !in old(rows) ==> error == None && rows == old(rows)[r.id := r]
    {
      if r.id in rows {
        return Some(DuplicateId);
      }
      rows := rows[r.id := r];
      error := None;
    }

    /** `.update(r).eq('id', r.id)`. */
    method Update(r: Report)
      requires Valid() && r.id in rows
      modifies this
      ensures Valid()
      ensures rows == old(rows)[r.id := r]
    {
      rows := rows[r.id := r];
    }

    /** `.delete().eq('id', id)`. */
    method Delete(id: string)
      requires Valid()
      modifies this
      ensures Valid()
      ensures rows == old(rows) - {id}
    {
      rows := rows - {id};
    }
  }

  /** The owner check: a user is authenticated and is the report's author. */
  predicate IsOwner(user: Option<string>, r: Report) {
    user.Some? && r.userId == user
  }

  /** A report nobody authored can be changed by no one. */
  lemma AuthorlessIsLocked(user: Option<string>, r: Report)
    requires r.userId.None?
    ensures !IsOwner(user, r)
  {
  }

  /** The row a valid create inserts. */
  function NewReport(id: string, disasterId: string, user: Option<string>, content: string,
                     imageUrl: Option<string>, now: int): (r: Report)
    ensures r.id == id && r.disasterId == disasterId && r.createdAt == now
    ensures r.verificationStatus == "pending"
    ensures r.userId == user
    ensures r.content == content && r.imageUrl == imageUrl
    ensures user.Some? ==> IsOwner(user, r)
  {
    Report(id, disasterId, user, content, imageUrl, "pending", now)
  }

  /** The updated row: content, image and status are replaced only when supplied. */
  function MergeReport(current: Report, f: ReportFields): (r: Report)
    ensures r.id == current.id && r.disasterId == current.disasterId
    ensures r.userId == current.userId && r.createdAt == current.createdAt
    ensures r.content == Otherwise(f.content, current.content)
    ensures r.imageUrl == (if f.imageUrl.Some? then f.imageUrl else current.imageUrl)
    ensures r.verificationStatus == Otherwise(f.verificationStatus, current.verificationStatus)
  {
    current.(
      content := Otherwise(f.content, current.content),
      imageUrl := if f.imageUrl.Some? then f.imageUrl else current.imageUrl,
      verificationStatus := Otherwise(f.verificationStatus, current.verificationStatus))
  }

  /** An update supplying nothing leaves the report as it was. */
  lemma MergeReportNothing(current: Report)
    ensures MergeReport(current, ReportFields(None, None, None)) == current
  {
  }

  /** Repeating an update changes nothing more, and an update never changes who may edit. */
  lemma MergeReportIdempotent(current: Report, f: ReportFields, user: Option<string>)
    ensures MergeReport(MergeReport(current, f), f) == MergeReport(current, f)
    ensures IsOwner(user, MergeReport(current, f)) <==> IsOwner(user, current)
  {
  }

  /** `createReport`. `user` is the authenticated user's id, if any; `newId` the fresh id. */
  method CreateReport(table: ReportTable, disasterId: string, user: Option<string>, content: Option<string>,
                      imageUrl: Option<string>, newId: string, now: int)
    returns (reply: Reply<Report>)
    requires table.Valid()
    modifies table
    ensures table.Valid()
    ensures !Given(content) ==> reply == Refused(400, "Missing content") && table.rows == old(table.rows)
    ensures Given(content) && newId in old(table.rows) ==>
      reply == Refused(500, DuplicateId) && table.rows == old(table.rows)
    ensures Given(content) && newId !in old(table.rows) ==>
      var r := NewReport(newId, disasterId, user, content.value, imageUrl, now);
      reply == Reply(201, Ok(r), false) && table.rows == old(table.rows)[newId := r]
  {
    if !Given(content) {
      return Refused(400, "Missing content");
    }
    var r := NewReport(newId, disasterId, user, content.value, imageUrl, now);
    var error := table.Insert(r);
    if error.Some? {
      return Refused(500, error.value);
    }
    reply := Reply(201, Ok(r), false);
  }

  /** `updateReport`: 404 for an unknown id, 403 for anyone but the author. */
  method UpdateReport(table: ReportTable, rid: string, user: Option<string>, f: ReportFields)
    returns (reply: Reply<Report>)
    requires table.Valid()
    modifies table
    ensures table.Valid()
    ensures rid !in old(table.rows) ==>
      reply == Refused(404, "Report not found") && table.rows == old(table.rows)
    ensures rid in old(table.rows) && !IsOwner(user, old(table.rows)[rid]) ==>
      reply == Refused(403, "Only the report owner can update this report") && table.rows == old(table.rows)
    ensures rid in old(table.rows) && IsOwner(user, old(table.rows)[rid]) ==>
      var r := MergeReport(old(table.rows)[rid], f);
      reply == Served(r, false) && table.rows == old(table.rows)[rid := r]
  {
    var current := table.Get(rid);
    if current.None? {
      return Refused(404, "Report not found");
    }
    if !IsOwner(user, current.value) {
      return Refused(403, "Only the report owner can update this report");
    }
    var r := MergeReport(current.value, f);
    table.Update(r);
    reply := Served(r, false);
  }

  /** `deleteReport`: 404 for an unknown id, 403 for anyone but the author. */
  method DeleteReport(table: ReportTable, rid: string, user: Option<string>) returns (reply: Reply<Deletion>)
    requires table.Valid()
    modifies table
    ensures table.Valid()
    ensures rid !in old(table.rows) ==>
      reply == Refused(404, "Report not found") && table.rows == old(table.rows)
    ensures rid in old(table.rows) && !IsOwner(user, old(table.rows)[rid]) ==>
      reply == Refused(403, "Only the report owner can delete this report") && table.rows == old(table.rows)
    ensures rid in old(table.rows) && IsOwner(user, old(table.rows)[rid]) ==>
      reply == Served(Deletion("Deleted", rid), false) && table.rows == old(table.rows) - {rid}
  {
    var current := table.Get(rid);
    if current.None? {
      return Refused(404, "Report not found");
    }
    if !IsOwner(user, current.value) {
      return Refused(403, "Only the report owner can delete this report");
    }
    table.Delete(rid);
    reply := Served(Deletion("Deleted", rid), false);
  }
}
