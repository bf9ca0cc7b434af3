# CookiePool, modelled in Dafny

CookiePool (version 0.1.4) keeps a pool of browser cookies in a MySQL table.
Each cookie is keyed by a `CID`: a province, a tax number and an ip. Its md5
fingerprint, taken over the tax number alone, is the table's primary key.
`save` upserts a cookie with a validity window. `get_by_cookieid` returns a
random sample of the rows that match a key's non-empty fields, optionally
only rows that have not expired. `clear_all_overtime` deletes the expired
rows, and `get_num` counts all rows. Writers are ordered by an in-process
counter, `_writers`, which makes later writers and new readers wait while a
writer is counted.

The model has five modules:

- `Common` holds `Option`, `Result` and the pool's errors.
- `Identity` models `CID`. The md5 function is a parameter of type `Hash`,
  which returns a 32-character lower-case hex `Digest`.
- `Gate` gives the arithmetic of the writer counter: what acquire and
  release do to it, and when a reader or a writer would have to wait. It
  also has lemmas about sequences of gate events.
- `Connection` models `__get_conn`. The k-th connection attempt's outcome is
  `connect(k)`. A recursive function, `ConnectFrom`, specifies the retry
  rule, and the method `GetConn` runs `__get_conn`'s loop and is proved
  equal to it.
- `Pool` models the table as a map from md5 to `Row`, and the SQL
  statements by the predicates their text encodes. The class `CookiePool`
  holds the table, the writer counter and the table's collation; its
  methods are the pool's operations. A WHERE equality is decided by that
  collation, a parameter of the pool.

`Example` checks the documented round trip against the contracts alone:
save under province "bj" and tax "123", then query by province with no
limit and no expiry filter.

Behaviour of the code that the model keeps as written:

- If `clear_all_overtime` cannot connect, it never releases the write gate,
  because `__get_conn` is called outside the `try`. `ClearAllOvertime` leaves
  `writers` one higher. `Gate.LeakedWriterBlocksEveryone` shows that every
  later reader and writer would then wait for good. The pool's operations
  report the wait only as the gate's predicate and then carry on, so in the
  model a later `Save` still goes through.
- A query whose filter is empty is not refused up front. Its WHERE clause is
  malformed, so the SELECT fails (`StatementFailed(SelectStmt)`). A
  well-formed `CID` never produces such a filter.
- The expiry filter is on only when `n_filter_overtime == 1`, not for every
  true value.
- Both a connection refused for another reason and a retry budget that runs
  out raise the same error, `ConnectFailed(message)`.
- There is no read release, and the read gate changes no state.

The source's defaults are not built into the signatures: `save` defaults to
an alive time of 3600 seconds, and `get_by_cookieid` to `n_get_sum = 1` and
`n_filter_overtime = 1`. Callers of the model pass them explicitly.

## Model

| member | source | states |
|---|---|---|
| Identity.NewCid | CookiePool0.1.4.py:51-58 | fails with InvalidArgument iff province and tax are both empty; otherwise keeps the three fields, is well-formed, and its md5 is the hash of the tax number alone |
| Identity.FingerprintIgnoresProvinceAndIp | CookiePool0.1.4.py:52-58 | two keys built with the same tax number have the same md5, whatever their province and ip |
| Identity.GetDict | CookiePool0.1.4.py:61-67 | the dict has exactly the keys province, tax, md5 and ip, holding the key's fields |
| Identity.JoinAppend | CookiePool0.1.4.py:75 | joining two lists of fields is joining each and concatenating |
| Identity.Md5Deal | CookiePool0.1.4.py:69-78 | with no field the fingerprint is the digest of the empty string, with one field the digest of that field as it is |
| Identity.Md5DealSplit | CookiePool0.1.4.py:69-78 | the fingerprint of several fields is the hash of their plain concatenation, so field boundaries are lost |
| Gate.Released | CookiePool0.1.4.py:330-333 | the released counter is never negative, is the old value minus one when that was positive, and is zero iff the old value was at most one |
| Gate.RunNonNegative | CookiePool0.1.4.py:321-336 | from a non-negative counter, no sequence of write acquisitions and releases makes it negative |
| Gate.BalancedRestores | CookiePool0.1.4.py:146-159 | any number of writers that each acquire then release leave the counter where it was |
| Gate.LeakedCount | CookiePool0.1.4.py:324 | acquisitions that never release raise the counter by one each |
| Gate.LeakedWriterBlocksEveryone | CookiePool0.1.4.py:189-190 | after one unreleased increment, the only writers that can follow wait and never release, so the counter is 1 + n after n of them and every later reader and writer must wait |
| Gate.WritersExclude | CookiePool0.1.4.py:321-326 | from an idle gate the first writer proceeds, and a second writer arriving before a release must wait |
| Connection.ConnectFrom | CookiePool0.1.4.py:301-313 | attempts are between 1 and budget + 1; every attempt but the last was a "Too many connections" refusal; success iff the last attempt connected, with its handle; on failure the last refusal's message, and that refusal was not retryable or the budget was spent |
| Connection.Connect | CookiePool0.1.4.py:300-313 | starting from the first attempt with the module budget: between one and budget + 1 attempts, all but the last refused with "Too many connections", success iff the last connected |
| Connection.ExhaustedBudgetFails | CookiePool0.1.4.py:22 | when every allowed attempt is refused with "Too many connections", exactly budget + 1 attempts are made and the call fails |
| Connection.GetConn | CookiePool0.1.4.py:295-313 | the retry loop returns exactly the result and attempt count that ConnectFrom specifies |
| Pool.Column | CookiePool0.1.4.py:112-119 | exactly the table's text columns (md5, province, tax, ip, cookies) can be compared with a string |
| Pool.Stamp | CookiePool0.1.4.py:142-149 | the row carries the key's four dict fields and the payload, begins at now and lasts exactly the alive time |
| Pool.QueryFilter | CookiePool0.1.4.py:173-181 | the filter names only province, tax and ip, each iff its field is non-empty, and never md5; each value is the key's field |
| Pool.FilterKeepsIdentity | CookiePool0.1.4.py:52-53 | the filter of a well-formed key is non-empty and names province or tax |
| Pool.DropEmpty | CookiePool0.1.4.py:179-181 | the loop keeps exactly the entries whose value is non-empty, with unchanged values |
| Pool.Sample | CookiePool0.1.4.py:284-287 | the rows are distinct matching rows as the table holds them; there are min(n, matches) of them when n > 0 and all matches otherwise |
| Pool.SweptExactly | CookiePool0.1.4.py:194-195 | the sweep keeps a row iff it is not expired, keeps it unchanged, and the number deleted is the number of rows with end_time < now |
| Pool.BoundaryRowSurvivesSweepButIsFiltered | CookiePool0.1.4.py:282 | a row with end_time == now survives the sweep, yet a query that filters expired rows does not return it |
| Pool.TtlFilterOnlyOnOne | CookiePool0.1.4.py:280-285 | any n_filter_overtime other than 1 selects the same rows as no filter, expired rows included |
| Pool.SavedRecordVisibility | CookiePool0.1.4.py:147-149 | under any collation that counts a string equal to itself, a saved record is found by a query on its own key without the expiry filter, and with it iff its alive time is positive |
| Pool.SecondSaveWins | CookiePool0.1.4.py:147-153 | two saves of one key leave a single row for it, holding the second payload and window |
| Pool.CookiePool.constructor | CookiePool0.1.4.py:126-130 | a new pool keeps the existing rows and the table's collation, and starts with no writers |
| Pool.CookiePool.AcquireRead | CookiePool0.1.4.py:315-319 | a reader must wait iff a writer is counted; the state is unchanged |
| Pool.CookiePool.AcquireWrite | CookiePool0.1.4.py:321-326 | the counter goes up by one; the writer must wait iff the new value exceeds one |
| Pool.CookiePool.ReleaseWrite | CookiePool0.1.4.py:328-336 | the counter goes down by one, clamped at zero; readers are woken iff it reaches zero |
| Pool.CookiePool.Update | CookiePool0.1.4.py:246-264 | overwrites the row with the same md5 and reports 1, or changes nothing and reports 0 when there is none; a rejected statement changes nothing |
| Pool.CookiePool.Insert | CookiePool0.1.4.py:226-244 | adds the row and reports 1; an md5 already present fails as a duplicate key; a rejected statement changes nothing |
| Pool.CookiePool.Save | CookiePool0.1.4.py:133-160 | on success exactly the key's row is replaced or added, holding beg_time = now, end_time = now + alive time and the payload, and every other row is unchanged; a failure changes no row and is wrapped; the insert is tried only when no row matched; the writer counter is restored on both paths |
| Pool.CookiePool.Select | CookiePool0.1.4.py:266-293 | for a filter over text columns: a connection failure propagates; an empty filter fails; otherwise the rows are a sample of those whose columns equal the filter's values under the table's collation, and end_time > now only when n_filter_overtime is 1 |
| Pool.CookiePool.GetByCookieId | CookiePool0.1.4.py:163-182 | the query uses the key's non-empty fields other than md5; a well-formed key with a working connection always gets a result |
| Pool.CookiePool.ClearAllOvertime | CookiePool0.1.4.py:184-202 | deletes exactly the rows with end_time < now and returns their number, restoring the counter; if connecting fails, the table is unchanged and the counter stays one higher |
| Pool.CookiePool.GetNum | CookiePool0.1.4.py:204-224 | returns the number of rows, expired or not, unless connecting fails |
| Example.SaveThenQueryByProvince | CookiePool0.1.4.py:355-359 | under any collation that counts a string equal to itself, saving ("bj", "123") into an empty pool and querying by province "bj" with no limit and no expiry filter returns exactly that one record, with its payload and end time |

## Left out

- Pool.CookiePool.Select: the WHERE equalities use the table's collation, which is a parameter. The table is created with `DEFAULT CHARSET=utf8`, whose default collation ignores letter case and trailing spaces, but that comparison is not spelled out. So the model does not show that a query for tax "91abc" also returns the row with tax "91ABC", a different md5.
- Pool.CookiePool.GetByCookieId: inherits the same limit. Its result is stated under the pool's collation parameter, not under utf8_general_ci itself.
- Pool.CookiePool.Select: a filter that names a column which is not text, or no column at all, is outside its precondition. The query would compare integers or fail with "Unknown column". `get_by_cookieid`, its only caller, passes only province, tax and ip.
- Pool.CookiePool.Save: column widths are not modelled: `varchar(2000)` for the payload and the identity fields, `varchar(200)` for md5. A longer payload is refused by MySQL in strict mode and truncated otherwise. The model stores it whole.
- Pool.CookiePool.Save: an identical re-save in the same second succeeds in the model. In MySQL it fails on the duplicate key, because the update reports no changed row and save then tries an insert. The `Pool.CookiePool.Update` line below explains the cause.
- Pool.CookiePool.Save, Pool.CookiePool.ClearAllOvertime: the pool's operations do not block. They compute whether the caller would wait (`AcquireWrite`'s result) and carry on. After a leaked increment, a later save therefore completes in the model, whereas in the source it waits forever.
- Pool.CookiePool.Update: an update reports the number of rows it matched (0 or 1). MySQL by default reports rows actually changed, which would be 0 for a same-second re-save with identical values. That case would make `save` try an insert and fail on the duplicate key. The model does not capture it.
- Database failures are boolean parameters, and only for writes (`updateRaises`, `insertRaises`, `deleteRaises`). A SELECT or COUNT that the server rejects for reasons other than a malformed WHERE clause is not modelled. Neither are commit failures or cursor and connection closing.
- The driver itself (pymysql) is outside the model. Connection attempts are an abstract sequence of outcomes, and a handle is a number.
- The hash is a parameter. md5 itself is not part of this model.
- `time.time()` is the parameter `now`. The 0.01-second sleep between connection retries is dropped.
- Real blocking is not modelled: `Condition.wait`, `notify` and `notifyAll`, and thread interleavings. Each gate operation reports only whether its caller would wait. A release always notifies one waiting writer; the model does not return that.
- The `type_check` decorator and the Python version check are replaced by Dafny's static types. So are the TypeErrors raised for arguments of the wrong type, including a `cookie_id` that is not a CID.
- Left out of the constructor: the port-range check, the table bootstrap (CREATE TABLE IF NOT EXISTS) and its connection. `__del__` is left out too. The model starts from an existing table that is keyed by md5.
- `str(s_cookies)` is left out: the payload arrives already rendered as text.
- SQL text, quoting and injection through the interpolated WHERE values are left out. A filter is modelled as the column equalities its WHERE clause asks for, each decided by the collation parameter.
- `beg_time` and `end_time` are unbounded integers. The range of MySQL's 32-bit `int` column is not modelled.
- `get_num`'s fallback to 0 when the COUNT row cannot be read is not modelled. COUNT always yields a row.
- `ORDER BY RAND()` is modelled as any choice among the matching rows. The distribution and the order of the returned rows are not modelled.
- The `__main__` demo appears only as the round trip in `Example`.
