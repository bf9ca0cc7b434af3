/** The cookie pool (class CookiePool): a MySQL table of cookie records keyed
    by md5, modelled as a map from md5 to row, with the in-process writer
    counter that orders the pool's writers and gates its readers. The SQL
    statements are modelled by the predicates their text encodes. */
module Pool {
  import opened Common
  import opened Identity
  import Gate
  import Connection

  /** One table row: the key's fields, the cookie payload (already rendered
      by str()), and its validity window in epoch seconds. */
  datatype Row = Row(md5: string, province: string, tax: string, ip: string,
                     cookies: string, begTime: int, endTime: int)

  type Table = map<string, Row>

  /** `md5` is the primary key: every row sits under its own fingerprint. */
  ghost predicate KeyedByMd5(t: Table) {
    forall k :: k in t ==> t[k].md5 == k
  }

  /** The table's text (varchar) columns. */
  const TextColumns: set<string> := {"md5", "province", "tax", "ip", "cookies"}

  /** The value of a text column, by name. */
  function Column(row: Row, key: string): (v: Option<string>)
    ensures v.Some? <==> key in TextColumns
  {
    if key == "md5" then Some(row.md5)
    else if key == "province" then Some(row.province)
    else if key == "tax" then Some(row.tax)
    else if key == "ip" then Some(row.ip)
    else if key == "cookies" then Some(row.cookies)
    else None
  }

  /** The record save writes: the key's dict with beg_time, end_time and
      cookies stamped in. */
  function Stamp(c: Cid, cookies: string, now: int, aliveTime: int): (row: Row)
    ensures forall k :: k in GetDict(c) ==> Column(row, k) == Some(GetDict(c)[k])
    ensures Column(row, "cookies") == Some(cookies)
    ensures row.begTime == now && row.endTime - row.begTime == aliveTime
  {
    Row(c.md5, c.province, c.tax, c.ip, cookies, now, now + aliveTime)
  }

  /** How the table's collation decides a WHERE equality `column`='value'.
      MySQL's utf8 default collation, for one, ignores letter case and
      trailing spaces. */
  type Collation = (string, string) -> bool

  /** Every collation counts a string equal to itself. */
  ghost predicate Reflexive(eq: Collation) {
    forall s :: eq(s, s)
  }

  /** The conjunction of `key`='value' equalities in __select's WHERE clause. */
  predicate Matches(row: Row, filter: map<string, string>, eq: Collation) {
    forall k :: k in filter ==> Column(row, k).Some? && eq(Column(row, k).value, filter[k])
  }

  /** __select's WHERE clause: the equalities, and `end_time` > now only
      when n_filter_overtime is exactly 1. */
  predicate Selected(row: Row, filter: map<string, string>, filterOvertime: int, now: int, eq: Collation) {
    Matches(row, filter, eq) && (filterOvertime == 1 ==> row.endTime > now)
  }

  /** The fingerprints of all rows __select may return. */
  function MatchKeys(t: Table, filter: map<string, string>, filterOvertime: int, now: int, eq: Collation): set<string> {
    set k | k in t && Selected(t[k], filter, filterOvertime, now, eq)
  }

  /** The fingerprints of a sequence of rows. */
  function Md5s(rows: seq<Row>): set<string> {
    set i | 0 <= i < |rows| :: rows[i].md5
  }

  /** Every row is one of `keys`, exactly as the table holds it. */
  ghost predicate FromTable(rows: seq<Row>, t: Table, keys: set<string>) {
    forall i :: 0 <= i < |rows| ==> rows[i].md5 in keys && rows[i].md5 in t && t[rows[i].md5] == rows[i]
  }

  /** No row is returned twice. */
  ghost predicate DistinctMd5s(rows: seq<Row>) {
    forall i, j :: 0 <= i < j < |rows| ==> rows[i].md5 != rows[j].md5
  }

  /** What `ORDER BY RAND() LIMIT n` (or no LIMIT) may return: distinct
      matching rows as the table holds them, min(n, matches) of them when
      n > 0, and every match otherwise. */
  ghost predicate IsSample(rows: seq<Row>, t: Table, keys: set<string>, getSum: int) {
    && FromTable(rows, t, keys)
    && DistinctMd5s(rows)
    && |rows| == (if 0 < getSum < |keys| then getSum else |keys|)
    && (getSum <= 0 || |keys| <= getSum ==> Md5s(rows) == keys)
  }

  /** The filter get_by_cookieid derives from a key: its dict without md5
      and without the empty fields. */
  function QueryFilter(c: Cid): (f: map<string, string>)
    ensures f.Keys <= {"province", "tax", "ip"}
    ensures "province" in f <==> c.province != ""
    ensures "tax" in f <==> c.tax != ""
    ensures "ip" in f <==> c.ip != ""
    ensures "province" in f ==> f["province"] == c.province
    ensures "tax" in f ==> f["tax"] == c.tax
    ensures "ip" in f ==> f["ip"] == c.ip
  {
    var d := GetDict(c);
    map k | k in d && k != "md5" && d[k] != "" :: d[k]
  }

  /** Because a well-formed key bears a province or a tax number, its query
      filter is never empty and still names one of them. */
  lemma FilterKeepsIdentity(c: Cid)
    requires WellFormed(c)
    ensures QueryFilter(c) != map[]
    ensures "province" in QueryFilter(c) || "tax" in QueryFilter(c)
  {
    var f := QueryFilter(c);
    if c.province != "" {
      assert "province" in f;
    } else {
      assert "tax" in f;
    }
  }

  /** The rows the sweep keeps: those whose end_time is not before now. */
  function Swept(t: Table, now: int): Table {
    map k | k in t && !(t[k].endTime < now) :: t[k]
  }

  /** The fingerprints of the rows the sweep deletes. */
  function Expired(t: Table, now: int): set<string> {
    set k | k in t && t[k].endTime < now
  }

  /** The sweep removes exactly the expired rows and leaves every other row
      as it was; the count it deletes is the number of expired rows. */
  lemma SweptExactly(t: Table, now: int)
    ensures forall k :: k in Swept(t, now) <==> k in t && k !in Expired(t, now)
    ensures forall k :: k in Swept(t, now) ==> Swept(t, now)[k] == t[k]
    ensures |Swept(t, now)| == |t| - |Expired(t, now)|
  {
    var kept := Swept(t, now).Keys;
    var gone := Expired(t, now);
    assert kept !! gone;
    assert t.Keys == kept + gone;
    assert |t.Keys| == |kept| + |gone|;
  }

  /** A row whose end_time is exactly now survives the sweep, yet a query
      that filters expired rows does not return it. */
  lemma BoundaryRowSurvivesSweepButIsFiltered(t: Table, now: int, k: string, filter: map<string, string>, eq: Collation)
    requires k in t && t[k].endTime == now
    ensures k in Swept(t, now)
    ensures k !in MatchKeys(t, filter, 1, now, eq)
  {
  }

  /** Only n_filter_overtime == 1 turns the expiry filter on: any other
      value, 2 or -1 included, returns expired rows too. */
  lemma TtlFilterOnlyOnOne(t: Table, filter: map<string, string>, filterOvertime: int, now: int, eq: Collation)
    requires filterOvertime != 1
    ensures MatchKeys(t, filter, filterOvertime, now, eq) == MatchKeys(t, filter, 0, now, eq)
    ensures forall k :: k in t && Matches(t[k], filter, eq) ==> k in MatchKeys(t, filter, filterOvertime, now, eq)
  {
  }

  /** A saved record is found again by a query on its own key: always when
      expired rows are not filtered, and with the filter exactly when its
      alive time was positive. */
  lemma SavedRecordVisibility(t: Table, c: Cid, cookies: string, now: int, aliveTime: int, eq: Collation)
    requires Reflexive(eq)
    ensures var t' := t[c.md5 := Stamp(c, cookies, now, aliveTime)];
      && c.md5 in MatchKeys(t', QueryFilter(c), 0, now, eq)
      && (c.md5 in MatchKeys(t', QueryFilter(c), 1, now, eq) <==> aliveTime > 0)
  {
  }

  /** Two saves of the same key leave one record, the second one. */
  lemma SecondSaveWins(t: Table, c: Cid, p1: string, p2: string, now1: int, now2: int, ttl1: int, ttl2: int)
    ensures var t' := t[c.md5 := Stamp(c, p1, now1, ttl1)][c.md5 := Stamp(c, p2, now2, ttl2)];
      && t'.Keys == t.Keys + {c.md5}
      && t'[c.md5].cookies == p2
      && t'[c.md5].endTime == now2 + ttl2
  {
  }

  /** The loop in get_by_cookieid that deletes every key whose value is empty. */
  method DropEmpty(d: map<string, string>) returns (f: map<string, string>)
    ensures f.Keys == set k | k in d && d[k] != ""
    ensures forall k :: k in f ==> f[k] == d[k]
  {
    f := d;
    var keys := d.Keys;
    while keys != {}
      invariant keys <= d.Keys
      invariant f.Keys == set k | k in d && (k in keys || d[k] != "")
      invariant forall k :: k in f ==> f[k] == d[k]
      decreases keys
    {
      var k :| k in keys;
      if f[k] == "" {
        f := f - {k};
      }
      keys := keys - {k};
    }
  }

  lemma Md5sAppend(rows: seq<Row>, row: Row)
    ensures Md5s(rows + [row]) == Md5s(rows) + {row.md5}
  {
    var all := rows + [row];
    forall m | m in Md5s(all) ensures m in Md5s(rows) + {row.md5} {
      var i :| 0 <= i < |all| && all[i].md5 == m;
      if i < |rows| { assert rows[i].md5 == m; }
    }
    forall m | m in Md5s(rows) ensures m in Md5s(all) {
      var i :| 0 <= i < |rows| && rows[i].md5 == m;
      assert all[i].md5 == m;
    }
    assert all[|rows|].md5 == row.md5;
  }

  /** Picking one more row, not yet picked, keeps the sample's invariants. */
  lemma SampleStep(rows: seq<Row>, t: Table, keys: set<string>, left: set<string>, k: string)
    requires KeyedByMd5(t) && keys <= t.Keys && left <= keys && k in left
    requires Md5s(rows) == keys - left && FromTable(rows, t, keys) && DistinctMd5s(rows)
    ensures Md5s(rows + [t[k]]) == keys - (left - {k})
    ensures FromTable(rows + [t[k]], t, keys) && DistinctMd5s(rows + [t[k]])
  {
    var all := rows + [t[k]];
    Md5sAppend(rows, t[k]);
    forall i | 0 <= i < |rows| ensures all[i].md5 != k {
      assert rows[i].md5 in Md5s(rows);
    }
  }

  /** `ORDER BY RAND() LIMIT getSum` over the rows under `keys`: pick rows
      one at a time, any of those not yet picked, until getSum are picked
      (when positive) or none is left. */
  method Sample(t: Table, keys: set<string>, getSum: int) returns (rows: seq<Row>)
    requires KeyedByMd5(t) && keys <= t.Keys
    ensures IsSample(rows, t, keys, getSum)
  {
    var left := keys;
    rows := [];
    while left != {} && (getSum <= 0 || |rows| < getSum)
      invariant left <= keys
      invariant |rows| + |left| == |keys|
      invariant getSum > 0 ==> |rows| <= getSum
      invariant Md5s(rows) == keys - left
      invariant FromTable(rows, t, keys) && DistinctMd5s(rows)
      decreases left
    {
      var k :| k in left;
      SampleStep(rows, t, keys, left, k);
      rows := rows + [t[k]];
      left := left - {k};
    }
  }

  class CookiePool {
    /** The cookie table, by md5. */
    var table: Table
    /** `_writers`: writers admitted or queued at the gate. */
    var writers: int
    /** How the table compares strings in a WHERE equality. */
    const collation: Collation

    ghost predicate Valid()
      reads this
    {
      writers >= 0 && KeyedByMd5(table)
    }

    /** A pool over an existing table (CREATE TABLE IF NOT EXISTS keeps its
        rows), with no writers yet. */
    constructor (existing: Table, collation: Collation)
      requires KeyedByMd5(existing)
      ensures Valid() && table == existing && writers == 0 && this.collation == collation
    {
      table := existing;
      writers := 0;
      this.collation := collation;
    }

    /** __acquire_read: a reader waits iff a writer is counted; nothing is
        recorded, as there is no read release. */
    method AcquireRead() returns (mustWait: bool)
      ensures mustWait == Gate.ReaderMustWait(writers)
    {
      mustWait := writers > 0;
    }

    /** __acquire_write: count this writer; it waits iff another was counted. */
    method AcquireWrite() returns (mustWait: bool)
      requires Valid()
      modifies this`writers
      ensures Valid()
      ensures writers == Gate.Acquired(old(writers))
      ensures mustWait == Gate.WriterMustWait(writers)
    {
      writers := writers + 1;
      mustWait := writers > 1;
    }

    /** __release_write: uncount a writer, never below zero, and wake every
        reader iff none is left (one waiting writer is always notified). */
    method ReleaseWrite() returns (wakeReaders: bool)
      requires Valid()
      modifies this`writers
      ensures Valid()
      ensures writers == Gate.Released(old(writers))
      ensures wakeReaders == Gate.WakesReaders(writers)
    {
      writers := writers - 1;
      if writers < 0 {
        writers := 0;
      }
      wakeReaders := writers == 0;
    }

    /** __update: overwrite the row with the same md5; the count is the
        number of rows that matched. `raises` is the database rejecting it. */
    method Update(row: Row, raises: bool) returns (r: Result<nat, Error>)
      requires Valid()
      modifies this`table
      ensures Valid()
      ensures raises ==> r == Err(StatementFailed(UpdateStmt)) && table == old(table)
      ensures !raises && row.md5 in old(table) ==> r == Ok(1) && table == old(table)[row.md5 := row]
      ensures !raises && row.md5 !in old(table) ==> r == Ok(0) && table == old(table)
    {
      if raises {
        return Err(StatementFailed(UpdateStmt));
      }
      if row.md5 in table {
        table := table[row.md5 := row];
        r := Ok(1);
      } else {
        r := Ok(0);
      }
    }

    /** __insert: add a row; the primary key refuses an md5 already present. */
    method Insert(row: Row, raises: bool) returns (r: Result<nat, Error>)
      requires Valid()
      modifies this`table
      ensures Valid()
      ensures raises ==> r == Err(StatementFailed(InsertStmt)) && table == old(table)
      ensures !raises && row.md5 in old(table) ==> r == Err(DuplicateKey) && table == old(table)
      ensures !raises && row.md5 !in old(table) ==> r == Ok(1) && table == old(table)[row.md5 := row]
    {
      if raises {
        return Err(StatementFailed(InsertStmt));
      }
      if row.md5 in table {
        r := Err(DuplicateKey);
      } else {
        table := table[row.md5 := row];
        r := Ok(1);
      }
    }

    /** save: under the write gate, stamp the record and upsert it by md5
        (update, then insert only when the update matched nothing); the gate
        is released on success and on failure. */
    method Save(c: Cid, cookies: string, aliveTime: int, now: int, updateRaises: bool, insertRaises: bool)
      returns (r: Result<nat, Error>)
      requires Valid()
      modifies this
      ensures Valid()
      ensures writers == old(writers)
      ensures r.Err? <==> updateRaises || (c.md5 !in old(table) && insertRaises)
      ensures r.Err? ==> r.error.SaveFailed? && table == old(table)
      ensures r.Ok? ==> r.value == 1 && table == old(table)[c.md5 := Stamp(c, cookies, now, aliveTime)]
    {
      var _ := AcquireWrite();
      var row := Stamp(c, cookies, now, aliveTime);
      var n := Update(row, updateRaises);
      if n.Ok? && n.value == 0 {
        n := Insert(row, insertRaises);
      }
      r := if n.Err? then Err(SaveFailed(n.error)) else n;
      var _ := ReleaseWrite();
    }

    /** __select: connect, then return a sample of the rows the WHERE clause
        accepts. An empty filter leaves the WHERE clause malformed. The
        random order is any choice among the matches. */
    method Select(filter: map<string, string>, getSum: int, filterOvertime: int, now: int,
                  connect: nat -> Connection.Outcome)
      returns (r: Result<seq<Row>, Error>)
      requires Valid()
      requires filter.Keys <= TextColumns
      ensures var c := Connection.Connect(connect, Connection.RetryBudget).result;
        && (c.Err? ==> r == Err(c.error))
        && (c.Ok? && filter == map[] ==> r == Err(StatementFailed(SelectStmt)))
        && (c.Ok? && filter != map[] ==>
              r.Ok? && IsSample(r.value, table, MatchKeys(table, filter, filterOvertime, now, collation), getSum))
    {
      var conn, _ := Connection.GetConn(connect, Connection.RetryBudget);
      if conn.Err? {
        return Err(conn.error);
      }
      if filter == map[] {
        return Err(StatementFailed(SelectStmt));
      }
      var rows := Sample(table, MatchKeys(table, filter, filterOvertime, now, collation), getSum);
      r := Ok(rows);
    }

    /** get_by_cookieid: under the read gate, query with the key's non-empty
        fields other than md5. */
    method GetByCookieId(c: Cid, getSum: int, filterOvertime: int, now: int, connect: nat -> Connection.Outcome)
      returns (r: Result<seq<Row>, Error>)
      requires Valid()
      ensures var conn := Connection.Connect(connect, Connection.RetryBudget).result;
        && (conn.Err? ==> r == Err(conn.error))
        && (conn.Ok? && QueryFilter(c) == map[] ==> r == Err(StatementFailed(SelectStmt)))
        && (conn.Ok? && WellFormed(c) ==> r.Ok?)
        && (conn.Ok? && QueryFilter(c) != map[] ==>
              r.Ok? && IsSample(r.value, table, MatchKeys(table, QueryFilter(c), filterOvertime, now, collation), getSum))
    {
      var d := GetDict(c) - {"md5"};
      var _ := AcquireRead();
      var filter := DropEmpty(d);
      assert filter == QueryFilter(c);
      if WellFormed(c) {
        FilterKeepsIdentity(c);
      }
      r := Select(filter, getSum, filterOvertime, now, connect);
    }

    /** clear_all_overtime: under the write gate, delete every row whose
        end_time is before now and report how many went. The connection is
        opened outside the try block, so when it fails the gate is never
        released. */
    method ClearAllOvertime(now: int, connect: nat -> Connection.Outcome, deleteRaises: bool)
      returns (r: Result<nat, Error>)
      requires Valid()
      modifies this
      ensures Valid()
      ensures var conn := Connection.Connect(connect, Connection.RetryBudget).result;
        && (conn.Err? ==> r == Err(conn.error) && table == old(table) && writers == Gate.Acquired(old(writers)))
        && (conn.Ok? && deleteRaises ==>
              r == Err(StatementFailed(DeleteStmt)) && table == old(table) && writers == old(writers))
        && (conn.Ok? && !deleteRaises ==>
              r == Ok(|Expired(old(table), now)|) && table == Swept(old(table), now) && writers == old(writers))
    {
      var _ := AcquireWrite();
      var conn, _ := Connection.GetConn(connect, Connection.RetryBudget);
      if conn.Err? {
        return Err(conn.error);
      }
      if deleteRaises {
        r := Err(StatementFailed(DeleteStmt));
      } else {
        SweptExactly(table, now);
        r := Ok(|table| - |Swept(table, now)|);
        table := Swept(table, now);
      }
      var _ := ReleaseWrite();
    }

    /** get_num: under the read gate, count every row, expired or not. */
    method GetNum(connect: nat -> Connection.Outcome) returns (r: Result<nat, Error>)
      requires Valid()
      ensures var conn := Connection.Connect(connect, Connection.RetryBudget).result;
        && (conn.Err? ==> r == Err(conn.error))
        && (conn.Ok? ==> r == Ok(|table|))
    {
      var _ := AcquireRead();
      var conn, _ := Connection.GetConn(connect, Connection.RetryBudget);
      if conn.Err? {
        return Err(conn.error);
      }
      r := Ok(|table|);
    }
  }
}
