/** The pool's documented round trip, checked against the contracts alone:
    save a cookie under (province "bj", tax "123") into an empty table, then
    query by province only, with no count limit and no expiry filter. The
    result holds for any collation the table may use. */
module Example {
  import opened Identity
  import opened Pool
  import Connection

  method SaveThenQueryByProvince(hash: Hash, collation: Collation, now: int) returns (rows: seq<Row>)
    requires Reflexive(collation)
    ensures |rows| == 1
    ensures rows[0].province == "bj" && rows[0].tax == "123"
    ensures rows[0].cookies == "{'_ga': 'GA1.2.1'}"
    ensures rows[0].endTime == now + 60
  {
    var key := NewCid("bj", "123", "", hash);
    var probe := NewCid("bj", "", "", hash);
    var pool := new CookiePool(map[], collation);
    var saved := pool.Save(key.value, "{'_ga': 'GA1.2.1'}", 60, now, false, false);
    var connect := (k: nat) => Connection.Connected(0);
    assert Connection.Connect(connect, Connection.RetryBudget).result.Ok?;
    var found := pool.GetByCookieId(probe.value, 0, 0, now, connect);
    var md5 := key.value.md5;
    assert pool.table.Keys == {md5};
    assert "province" in QueryFilter(probe.value) && QueryFilter(probe.value).Keys <= {"province"};
    assert MatchKeys(pool.table, QueryFilter(probe.value), 0, now, collation) == {md5};
    rows := found.value;
  }
}
