/** The scheduled sweep that deletes disasters left pending for more than seven days. */
module Cleanup {
  import opened Common
  import opened DisasterStore

  /** Seven days in milliseconds. */
  const RetentionMs: int := 7 * 24 * 60 * 60 * 1000

  /** `.lt('created_at', now - 7 days).eq('status', 'pending')`. */
  predicate Stale(d: Disaster, now: int) {
    d.status == "pending" && d.createdAt < now - RetentionMs
  }

  function Kept(now: int): Disaster -> bool {
    (d: Disaster) => !Stale(d, now)
  }

  function Swept(now: int): Disaster -> bool {
    (d: Disaster) => Stale(d, now)
  }

  /** How a sweep ends: the count it logs, or the exit status and message of a failed delete. */
  datatype Outcome = Reported(count: nat) | Exited(code: int, message: string)

  /** A row is kept exactly when it is not pending or was created at or after the cutoff. */
  lemma KeptMembers(rows: seq<Disaster>, now: int)
    ensures forall d :: d in Filter(rows, Kept(now)) <==>
              d in rows && (d.status != "pending" || d.createdAt >= now - RetentionMs)
  {
    FilterMembers(rows, Kept(now));
  }

  /** A pending row created exactly at the cutoff survives. */
  lemma CutoffSurvives(rows: seq<Disaster>, d: Disaster, now: int)
    requires d in rows && d.createdAt == now - RetentionMs
    ensures d in Filter(rows, Kept(now))
  {
    KeptMembers(rows, now);
  }

  /** Every row is either kept or swept, never both. */
  lemma {:induction false} SweepPartitions(rows: seq<Disaster>, now: int)
    ensures |Filter(rows, Kept(now))| + |Filter(rows, Swept(now))| == |rows|
    ensures multiset(Filter(rows, Kept(now))) + multiset(Filter(rows, Swept(now))) == multiset(rows)
    decreases |rows|
  {
    if rows != [] {
      SweepPartitions(rows[1..], now);
      assert rows == [rows[0]] + rows[1..];
    }
  }

  /** A second sweep at the same instant deletes nothing further. */
  lemma SweepIdempotent(rows: seq<Disaster>, now: int)
    ensures Filter(Filter(rows, Kept(now)), Kept(now)) == Filter(rows, Kept(now))
    ensures Filter(Filter(rows, Kept(now)), Swept(now)) == []
  {
    FilterIdempotent(rows, Kept(now));
    FilterMembers(rows, Kept(now));
    FilterMembers(Filter(rows, Kept(now)), Swept(now));
    var again := Filter(Filter(rows, Kept(now)), Swept(now));
    assert forall d :: d !in again;
  }

  /** The delete itself: every stale row leaves the table, every other row stays
      where it was; `deleted` lists the removed rows in table order. */
  method DeleteStalePending(table: DisasterTable, now: int) returns (deleted: seq<Disaster>)
    requires table.Valid()
    modifies table
    ensures table.Valid()
    ensures table.rows == Filter(old(table.rows), Kept(now))
    ensures deleted == Filter(old(table.rows), Swept(now))
  {
    var rows := table.rows;
    var kept: seq<Disaster> := [];
    deleted := [];
    for i := 0 to |rows|
      invariant kept == Filter(rows[..i], Kept(now))
      invariant deleted == Filter(rows[..i], Swept(now))
    {
      assert rows[..i + 1] == rows[..i] + [rows[i]];
      FilterConcat(rows[..i], [rows[i]], Kept(now));
      FilterConcat(rows[..i], [rows[i]], Swept(now));
      if Stale(rows[i], now) {
        deleted := deleted + [rows[i]];
      } else {
        kept := kept + [rows[i]];
      }
    }
    assert rows[..|rows|] == rows;
    FilterKeepsUniqueIds(rows, Kept(now));
    table.rows := kept;
  }

  /** `cleanupPendingDisasters`. `storeError` is the error the delete reports, if
      any; `returnsRows` says whether the delete hands back the removed rows
      (without them the logged count is 0). */
  method CleanupPendingDisasters(table: DisasterTable, now: int, storeError: Option<string>, returnsRows: bool)
    returns (outcome: Outcome)
    requires table.Valid()
    modifies table
    ensures table.Valid()
    ensures storeError.Some? ==>
      outcome == Exited(1, storeError.value) && table.rows == old(table.rows)
    ensures storeError.None? ==>
      && table.rows == Filter(old(table.rows), Kept(now))
      && outcome == Reported(if returnsRows then |Filter(old(table.rows), Swept(now))| else 0)
  {
    if storeError.Some? {
      return Exited(1, storeError.value);
    }
    var deleted := DeleteStalePending(table, now);
    outcome := Reported(if returnsRows then |deleted| else 0);
  }
}
