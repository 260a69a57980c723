/** The shared `cache` table: one row per key, holding a payload and an absolute
    expiry time in milliseconds. Every enrichment handler reads a row, serves it
    while it is fresh, and otherwise fetches and upserts a new one. */
module CacheStore {
  import opened Common
  import opened Values

  /** Every handler writes its rows to live one hour (`60 * 60 * 1000` ms). */
  const TtlMs: int := 60 * 60 * 1000

  datatype Row = Row(value: Payload, expiresAt: int)

  /** The hit test every handler applies: the row exists and `expires_at > now`. */
  predicate IsHit(row: Option<Row>, now: int) {
    row.Some? && row.value.expiresAt > now
  }

  /** The row a lookup of `key` finds. */
  function Cached(rows: map<string, Row>, key: string): Option<Row> {
    if key in rows then Some(rows[key]) else None
  }

  /** The table after an upsert: the key's row is replaced, all others stay. */
  function Put(rows: map<string, Row>, key: string, v: Payload, now: int, ttl: int): (r: map<string, Row>)
    ensures r.Keys == rows.Keys + {key}
    ensures r[key] == Row(v, now + ttl)
    ensures forall k :: k in rows && k != key ==> r[k] == rows[k]
  {
    rows[key := Row(v, now + ttl)]
  }

  /** A read at time `t` after an upsert at `now` with a positive TTL hits
      exactly while `t < now + ttl`, and then yields the written value. */
  lemma ReadAfterWrite(rows: map<string, Row>, key: string, v: Payload, now: int, ttl: int, t: int)
    ensures var after := Put(rows, key, v, now, ttl);
            IsHit(Some(after[key]), t) <==> t < now + ttl
    ensures Put(rows, key, v, now, ttl)[key].value == v
  {
  }

  class CacheTable {
    var rows: map<string, Row>

    /** Each feature's namespace holds only that feature's payload shape. */
    ghost predicate Valid()
      reads this
    {
      forall k :: k in rows ==> Fits(k, rows[k].value)
    }

    constructor ()
      ensures Valid() && rows == map[]
    {
      rows := map[];
    }

    /** `select('value, expires_at').eq('key', key).single()`: the row, or nothing
        when there is none (a read error is treated the same way). */
    method Lookup(key: string) returns (row: Option<Row>)
      ensures row.Some? <==> key in rows
      ensures row.Some? ==> row.value == rows[key]
    {
      row := if key in rows then Some(rows[key]) else None;
    }

    /** `upsert({key, value, expires_at: now + ttl})`. */
    method Upsert(key: string, v: Payload, now: int, ttl: int)
      requires Valid()
      requires StartsWith(key, NamespaceOf(v))
      modifies this
      ensures Valid()
      ensures rows == Put(old(rows), key, v, now, ttl)
    {
      FitsOwnNamespace(key, v);
      rows := rows[key := Row(v, now + ttl)];
    }
  }
}
