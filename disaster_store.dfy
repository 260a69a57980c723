/** The `disasters` table: rows keyed by a unique `id`, kept in storage order. */
module DisasterStore {
  import opened Common

  /** One `audit_trail` entry: `{action, user_id, timestamp}`. */
  datatype AuditEntry = AuditEntry(action: string, userId: string, timestamp: int)

  /** A disaster row. `location` is the WKT point text or null; `createdAt` is the
      creation instant in milliseconds (the ISO text the store keeps sorts the same
      way); `auditTrail` is null on rows written without one; `status` is the
      moderation state. */
  datatype Disaster = Disaster(
    id: string,
    title: string,
    locationName: string,
    location: Option<string>,
    description: string,
    tags: seq<string>,
    ownerId: string,
    createdAt: int,
    auditTrail: Option<seq<AuditEntry>>,
    status: string)

  /** The primary-key violation the store reports for an id already in the table. */
  const DuplicateId: string := "duplicate key value violates unique constraint \"disasters_pkey\""

  /** The store's error when `.single()` finds no row. */
  const NoSingleRow: string := "JSON object requested, multiple (or no) rows returned"

  function Ids(rows: seq<Disaster>): set<string> {
    set d | d in rows :: d.id
  }

  /** No two rows share an id. */
  predicate UniqueIds(rows: seq<Disaster>)
    decreases |rows|
  {
    rows == [] || (rows[0].id !in Ids(rows[1..]) && UniqueIds(rows[1..]))
  }

  /** `.select('*').eq('id', id).single()`: the row with that id, if any. */
  function Find(rows: seq<Disaster>, id: string): (r: Option<Disaster>)
    ensures r.Some? ==> r.value in rows && r.value.id == id
    ensures r.None? <==> id !in Ids(rows)
    decreases |rows|
  {
    if rows == [] then None
    else if rows[0].id == id then Some(rows[0])
    else
      assert forall d :: d in rows <==> d == rows[0] || d in rows[1..];
      Find(rows[1..], id)
  }

  /** `.update(d).eq('id', id)`: every row with that id becomes `d`. */
  function Replace(rows: seq<Disaster>, id: string, d: Disaster): (r: seq<Disaster>)
    requires d.id == id
    ensures |r| == |rows|
    ensures Ids(r) == Ids(rows)
    ensures id !in Ids(rows) ==> r == rows
    ensures UniqueIds(rows) ==> UniqueIds(r)
    ensures forall x :: x in r ==> x == d || (x in rows && x.id != id)
    decreases |rows|
  {
    if rows == [] then []
    else
      var rest := Replace(rows[1..], id, d);
      var head := if rows[0].id == id then d else rows[0];
      assert forall x :: x in rows <==> x == rows[0] || x in rows[1..];
      assert Ids(rows) == {rows[0].id} + Ids(rows[1..]);
      assert Ids([head] + rest) == {head.id} + Ids(rest) by {
        assert forall x :: x in [head] + rest <==> x == head || x in rest;
      }
      assert ([head] + rest)[1..] == rest;
      [head] + rest
  }

  /** After a replacement the id finds the new row, and every other id finds what it found before. */
  lemma {:induction false} FindAfterReplace(rows: seq<Disaster>, id: string, d: Disaster, other: string)
    requires d.id == id && id in Ids(rows)
    ensures Find(Replace(rows, id, d), id) == Some(d)
    ensures other != id ==> Find(Replace(rows, id, d), other) == Find(rows, other)
    decreases |rows|
  {
    var r := Replace(rows, id, d);
    if rows[0].id != id {
      assert id in Ids(rows[1..]) by {
        var x :| x in rows && x.id == id;
        assert x != rows[0];
      }
      FindAfterReplace(rows[1..], id, d, other);
      assert r[1..] == Replace(rows[1..], id, d);
    } else {
      assert r[0] == d;
      if other != id && rows[1..] != [] {
        assert r[1..] == Replace(rows[1..], id, d);
        if id in Ids(rows[1..]) {
          FindAfterReplace(rows[1..], id, d, other);
        }
      }
    }
  }

  /** `.delete().eq('id', id)`: the table without the row of that id. */
  function Remove(rows: seq<Disaster>, id: string): (r: seq<Disaster>)
    ensures forall x :: x in r <==> x in rows && x.id != id
    ensures Ids(r) == Ids(rows) - {id}
  {
    var r := Filter(rows, (x: Disaster) => x.id != id);
    FilterMembers(rows, (x: Disaster) => x.id != id);
    r
  }

  /** Filtering a table keeps its ids unique. */
  lemma {:induction false} FilterKeepsUniqueIds(rows: seq<Disaster>, keep: Disaster -> bool)
    requires UniqueIds(rows)
    ensures UniqueIds(Filter(rows, keep))
    decreases |rows|
  {
    if rows != [] {
      FilterKeepsUniqueIds(rows[1..], keep);
      FilterMembers(rows[1..], keep);
      if keep(rows[0]) {
        var rest := Filter(rows[1..], keep);
        assert ([rows[0]] + rest)[1..] == rest;
        assert Ids(rest) <= Ids(rows[1..]);
      }
    }
  }

  /** The `disasters` table as the handlers change it. The `status` column is filled
      by the store's column default, `defaultStatus`, when a row is inserted. */
  class DisasterTable {
    var rows: seq<Disaster>
    const defaultStatus: string

    ghost predicate Valid()
      reads this
    {
      UniqueIds(rows)
    }

    constructor (defaultStatus: string)
      ensures Valid() && rows == [] && this.defaultStatus == defaultStatus
    {
      rows := [];
      this.defaultStatus := defaultStatus;
    }

    method Get(id: string) returns (d: Option<Disaster>)
      ensures d == Find(rows, id)
      ensures d.Some? ==> d.value in rows && d.value.id == id
      ensures d.None? <==> id !in Ids(rows)
    {
      d := Find(rows, id);
    }

    /** `.insert([d])`: refused with the key violation when the id is taken. */
    method Insert(d: Disaster) returns (error: Option<string>)
      requires Valid()
      modifies this
      ensures Valid()
      ensures d.id in Ids(old(rows)) ==> error == Some(DuplicateId) && rows == old(rows)
      ensures d.id !in Ids(old(rows)) ==> error == None && rows == old(rows) + [d]
    {
      if Find(rows, d.id).Some? {
        return Some(DuplicateId);
      }
      AppendFresh(rows, d);
      rows := rows + [d];
      error := None;
    }

    method Update(id: string, d: Disaster)
      requires Valid() && d.id == id
      modifies this
      ensures Valid()
      ensures rows == Replace(old(rows), id, d)
    {
      rows := Replace(rows, id, d);
    }

    /** `.delete().eq('id', id).select().single()`: the deleted row, or nothing. */
    method Delete(id: string) returns (removed: Option<Disaster>)
      requires Valid()
      modifies this
      ensures Valid()
      ensures removed == Find(old(rows), id)
      ensures rows == Remove(old(rows), id)
    {
      removed := Find(rows, id);
      FilterKeepsUniqueIds(rows, (x: Disaster) => x.id != id);
      rows := Remove(rows, id);
    }
  }

  /** Appending a row with a fresh id keeps ids unique. */
  lemma {:induction false} AppendFresh(rows: seq<Disaster>, d: Disaster)
    requires UniqueIds(rows) && d.id !in Ids(rows)
    ensures UniqueIds(rows + [d])
    ensures Ids(rows + [d]) == Ids(rows) + {d.id}
    decreases |rows|
  {
    assert forall x :: x in rows + [d] <==> x in rows || x == d;
    if rows != [] {
      assert forall x :: x in rows <==> x == rows[0] || x in rows[1..];
      AppendFresh(rows[1..], d);
      assert (rows + [d])[1..] == rows[1..] + [d];
    }
  }
}
