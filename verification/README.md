# FDA drug-label loaders, modelled in Dafny

The repository pulls drug labels for ibuprofen from the openFDA label endpoint. It
pages through the results 100 at a time and flattens each label into four columns:
brand name, manufacturer, product type and route. There are three scripts:

- `FDA/fda_to_sql_safe.py` retries failed calls, skips malformed records and loads
  the rows into SQL Server in one transaction.
- `fda_to_sql.py` loads without retries or skipping.
- `fda_drug_search_paginated.py` only collects the rows as dicts and prints the
  first and last one.

This project models the logic the three scripts share:

- the retry gate `call_api_with_retry`;
- the record extractor `extract_record`;
- the pagination loop, with its accumulator of rows and skipped records;
- what happens after the loop: the all-or-nothing insert of the safe loader, the
  plain insert and commit, and the first/last report.

The network is an oracle. `net(p)(i)` is the outcome of the i-th call made with query
parameters `p`: a response with a status and a body, or a `RequestException`. What
`response.json()` makes of the body is part of the response:

- text that is not JSON. The decoding error is a `RequestException` in requests 2.27
  and later, so the retry gate counts it as a failed attempt; the plain scripts raise.
- JSON `null`. The gate returns Python's None at once, without retrying, and the safe
  loader aborts as if the gate had given up; the plain scripts raise when they index it.
- any other JSON document, of which the parts the scripts read are kept.
Sleeping becomes a `Sleep(seconds)` event in a log. The database is a `Connection`
object: its committed table, the rows of the open transaction, and whether it is open.
A parameter `rejects` says which rows the server refuses. pyodbc's `executemany`
refuses an empty parameter list with a ProgrammingError. So a pull that completes with
no rows makes the safe loader roll back, and makes fda_to_sql.py raise before its commit.

Modules:

- `Json`: the values a decoded body can hold.
- `Api`: query parameters, body, call outcome, constants.
- `Extract`: `extract_record`, with Python's `.get` and `[0]` semantics.
- `Retry`: the gate, as a loop and as a specification function.
- `Sifting`: what the loop does with one page's records.
- `Pagination`: the loop, as a method and as a recursive specification `PullFrom`.
- `PullProperties`: facts about whole pulls.
- `Load`: the three scripts' endings.

The two loaders without retry are the `Plain` variant of the shared loop; the safe
loader is `Safe`. In the Plain variant a call is made once, its status is ignored,
and every failure raises out of the script.

The model follows the code:

- A column holding a non-empty string instead of a list yields the string's first
  character, because `[0]` works on strings. It is not discarded.
- Only an absent `openfda` block or an absent column gives `'N/A'`. A column present
  with the wrong shape discards the whole record, so no field gets a sentinel.
- A record that is not a dict is not skipped. The `except` handler of
  `extract_record` calls `drug.get` again, which raises out of the pull.
- "rows + skipped == total" holds only when the server serves exactly `total`
  records in pages of 100. The loop never checks it. `PullConsistent` proves it under
  that hypothesis. `PullConserves` proves what holds for every server: rows + skipped
  == the number of records received.
- When the pull raises, `run_pipeline` does not reach `conn.close()`; the connection
  is left open.

## Model

| member | source | states |
|---|---|---|
| Extract.DictGet | FDA/fda_to_sql_safe.py:55 | `.get(key, default)` raises exactly on a value that is not a dict; on a dict it is the key's value, or the default when the key is absent |
| Extract.First | FDA/fda_to_sql_safe.py:55 | `[0]` succeeds exactly on a non-empty list or string, and then yields the first element or the first character |
| Extract.OpenFdaField | FDA/fda_to_sql_safe.py:55-58 | one column raises exactly when `openfda` is present and not a dict, or the column is present but not a non-empty list or string; otherwise it is the column's first element, or `'N/A'` when the block or the key is absent |
| Extract.ExtractRecord | FDA/fda_to_sql_safe.py:52-62 | a dict record is discarded (None) exactly when one of the four columns raises; otherwise each field is that column's value |
| Extract.ExtractWithoutOpenFda | FDA/fda_to_sql_safe.py:55-58 | a record without an `openfda` block, or with an empty one, extracts to four `'N/A'` sentinels |
| Extract.ExtractPopulated | FDA/fda_to_sql_safe.py:55-58 | a block whose four columns are non-empty lists extracts to their first elements |
| Extract.ExtractMissingColumn | FDA/fda_to_sql_safe.py:55 | a missing `brand_name` alone gives `'N/A'` for that field |
| Extract.ExtractDiscards | FDA/fda_to_sql_safe.py:53-62 | a non-dict block, or any column that is empty, a number, None or a dict, discards the whole record |
| Extract.ExtractStringColumn | FDA/fda_to_sql_safe.py:55 | a column holding a string yields its first character |
| Extract.ExtractAdvil | FDA/fda_to_sql_safe.py:54-59 | a fully populated Advil label extracts to its four values |
| Retry.AttemptsFrom | FDA/fda_to_sql_safe.py:29-41 | from attempt i, the gate stops after the first success or at MAX_RETRIES, and all attempts before the last failed |
| Retry.AttemptsMade | FDA/fda_to_sql_safe.py:20-41 | between 1 and MAX_RETRIES attempts; all but the last failed; the last succeeded or was the third |
| Retry.GateResult | FDA/fda_to_sql_safe.py:29-48 | None exactly when all MAX_RETRIES attempts failed, or when the first attempt with status 200 and a decodable body got JSON `null` |
| Retry.GateReturnsFirstAnswer | FDA/fda_to_sql_safe.py:29-48 | unless every attempt failed, the gate returns what `response.json()` gave at the first attempt with status 200 and a decodable body |
| Retry.CallApiWithRetry | FDA/fda_to_sql_safe.py:25-48 | the loop returns GateResult and logs Trace(AttemptsMade): a call per attempt and a doubling wait between attempts |
| Retry.RetriesShape | FDA/fda_to_sql_safe.py:41-45 | k failed attempts that each waited log 2k events, alternating calls and waits of 1, 2, 4, ... seconds, totalling 2^k - 1 |
| Retry.TraceShape | FDA/fda_to_sql_safe.py:29-45 | n attempts log 2n-1 events, starting and ending with a call, with n calls and no wait after the last |
| Retry.StopsAtFirstSuccess | FDA/fda_to_sql_safe.py:33-34 | the first 200 with a decodable body ends the gate: i+1 attempts, that attempt's answer |
| Retry.NullNotRetried | FDA/fda_to_sql_safe.py:33-34 | a first answer of JSON `null` ends the gate after one call, with None, although it did not give up |
| Retry.UndecodableRetried | FDA/fda_to_sql_safe.py:30-44 | a 200 whose body is not JSON is caught as a RequestException and retried after a 1-second wait |
| Retry.FullFailure | FDA/fda_to_sql_safe.py:21-48 | three failures give None after exactly [call, wait 1, call, wait 2, call], 3 seconds in all |
| Retry.SucceedsOnThird | FDA/fda_to_sql_safe.py:29-45 | two failures and a success return the third answer after waits of 1 and 2 seconds |
| Retry.FailuresIndistinguishable | FDA/fda_to_sql_safe.py:33-41 | any non-200 status, a body that is not JSON and a RequestException are the same failure: oracles that agree on successes and their answers give the same attempts and result |
| Sifting.RecordStep | FDA/fda_to_sql_safe.py:126-136 | a record raises exactly when it is not a dict, or in the plain scripts when extraction fails; it is skipped exactly when it is a dict that the safe extractor discards; a kept row is the extractor's result |
| Sifting.Sift | FDA/fda_to_sql_safe.py:126-136 | every record of a run is either kept or skipped: rows + skipped == records |
| Sifting.SiftFailsIffCrash | FDA/fda_to_sql_safe.py:126-127 | a page raises exactly when one of its records raises |
| Sifting.SiftAppend | FDA/fda_to_sql_safe.py:126-136 | sifting two runs in turn is sifting their concatenation |
| Sifting.SiftCrashSpreads | FDA/fda_to_sql_safe.py:126-127 | once a record raises, the page raises |
| Sifting.SafeSiftBy | FDA/fda_to_sql_safe.py:126-136 | for any extraction, a safe step function keeps what it yields, counts the dicts it yields nothing for, and fails only on a non-dict record |
| Sifting.PlainSiftBy | fda_to_sql.py:57-64 | for any extraction, a plain step function keeps one row per record and fails as soon as one record is not a dict or yields nothing |
| Sifting.KeptByAll | fda_drug_search_paginated.py:32-39 | when an extraction yields a row for every record, row i is the one it yields for record i |
| Sifting.SafeSift | FDA/fda_to_sql_safe.py:126-136 | the safe loop keeps the extractable records' rows in order and counts the discarded dicts; it raises only on a non-dict record |
| Sifting.PlainSift | fda_to_sql.py:57-64 | the plain loop keeps a row per record and skips none; it raises as soon as one record is not a dict or cannot be extracted |
| Sifting.ExtractedAll | fda_drug_search_paginated.py:32-39 | when every record extracts, there is one row per record and row i is record i's extraction |
| Sifting.SiftRecord | FDA/fda_to_sql_safe.py:127-136 | one record either appends its row, adds one to `skipped`, or raises, as RecordStep says |
| Sifting.SiftPage | FDA/fda_to_sql_safe.py:126-136 | the `for` loop over a page succeeds exactly when Sift does, and appends Sift's rows and skipped count to the accumulators |
| Pagination.SingleCall | fda_to_sql.py:50-51 | one call and `response.json()`, status ignored: a document exactly when a response came back whose body is a JSON document; otherwise the script raises |
| Pagination.PullFrom | FDA/fda_to_sql_safe.py:106-143 | the `while True` loop from a given state; each run of it issues at least one more request, since the body requests before it can exit (the PullFrom lemmas below state the rest) |
| Pagination.Pull | FDA/fda_to_sql_safe.py:98-143 | the loop from skip 0 with `total` unknown makes at least one request |
| Pagination.NumPages | FDA/fda_to_sql_safe.py:140-143 | the least n >= 1 with 100n >= total, i.e. max(1, ceil(total/100)) |
| Pagination.NumPagesUnique | FDA/fda_to_sql_safe.py:140-143 | no other page count satisfies the stopping condition |
| Pagination.PullFromRequests | FDA/fda_to_sql_safe.py:106-143 | from any state, every request goes out with the fixed search, limit 100 and skip 100k |
| Pagination.PullFromStops | FDA/fda_to_sql_safe.py:121-143 | a complete pull kept the first page's total and made NumPages(total) requests |
| Pagination.ReceivedIsSift | FDA/fda_to_sql_safe.py:126-136 | accumulating page by page equals sifting all received records in one run |
| Pagination.PullFromConserves | FDA/fda_to_sql_safe.py:126-136 | a complete pull's rows and skipped count are those of all pages requested |
| Pagination.PullFromAborts | FDA/fda_to_sql_safe.py:115-119 | only the safe loader aborts, only when the last request failed, keeping the rows of the earlier pages |
| Pagination.PullFromHealthy | FDA/fda_to_sql_safe.py:106-143 | a server that answers every request with a usable page makes the loop complete |
| Pagination.PullFromSameResults | FDA/fda_to_sql_safe.py:121-124 | later pages' totals are never read |
| Pagination.FetchPage | FDA/fda_to_sql_safe.py:113 | a request through the gate (safe) or one call with its status ignored (plain, fda_to_sql.py:50-51) |
| Pagination.RunPull | FDA/fda_to_sql_safe.py:98-143 | the `while True` loop returns exactly the pull PullFrom specifies |
| PullProperties.PullRequests | fda_to_sql.py:43-70 | at least one request is made, even for a total of 0; the k-th has skip 100k |
| PullProperties.PullStops | fda_drug_search_paginated.py:27-48 | a complete pull used the first page's total and made max(1, ceil(total/100)) requests |
| PullProperties.PullConserves | FDA/fda_to_sql_safe.py:126-136 | on completion, rows + skipped == records received, with rows in page order and within-page order |
| PullProperties.PullSafeRows | FDA/fda_to_sql_safe.py:126-136 | the safe loader's rows are the extractable records' rows, its skipped count the discarded dicts |
| PullProperties.PullPlainRows | fda_to_sql.py:57-64 | a plain pull skips nothing: row i is the extraction of record i, so the row count equals the record count |
| PullProperties.PullAborts | FDA/fda_to_sql_safe.py:113-119 | an aborted pull is a safe pull whose last request yielded None, and it holds the sifted rows of the earlier pages |
| PullProperties.SafeFetchFails | FDA/fda_to_sql_safe.py:25-48 | a safe request yields None only after three failed attempts, or when the server answered JSON `null` |
| PullProperties.PullHealthyCompletes | FDA/fda_to_sql_safe.py:106-143 | every page usable implies the pull completes |
| PullProperties.PullIgnoresLaterTotals | fda_to_sql.py:53-55 | servers that differ only in later pages' totals give the same pull |
| PullProperties.PullOf250 | FDA/fda_to_sql_safe.py:100-143 | a total of 250 gives requests at skip 0, 100, 200 and then stops |
| PullProperties.ConsistentRaw | FDA/fda_to_sql_safe.py:138-140 | from a consistent server, the first n pages hold min(100n, total) records |
| PullProperties.PullConsistent | FDA/fda_to_sql_safe.py:126-143 | from a consistent server, rows + skipped == total |
| Load.FirstRejected | FDA/fda_to_sql_safe.py:150-153 | the first refused row: all before it are accepted |
| Load.Connection.constructor | FDA/fda_to_sql_safe.py:75 | a fresh connection: open, nothing pending, the table as the server holds it |
| Load.Connection.ExecuteMany | FDA/fda_to_sql_safe.py:150-153 | rows join the transaction in order up to the first refused one; success exactly when the list is non-empty and none is refused; the table is unchanged |
| Load.Connection.Commit | FDA/fda_to_sql_safe.py:154 | the transaction's rows are appended to the table |
| Load.Connection.Rollback | FDA/fda_to_sql_safe.py:158 | the transaction's rows are dropped; the table is unchanged |
| Load.Connection.Close | FDA/fda_to_sql_safe.py:161-162 | the connection closes; uncommitted rows are dropped |
| Load.PipelineEnd | FDA/fda_to_sql_safe.py:115-163 | an abort and a crash are reported as such; a complete pull loads exactly when it has rows and all are accepted, reporting their number, and rolls back otherwise, an empty pull included |
| Load.FinishPipeline | FDA/fda_to_sql_safe.py:115-163 | an abort closes without inserting; a crash leaves the connection open; a complete pull commits all rows or rolls back all, then closes |
| Load.RunPipeline | FDA/fda_to_sql_safe.py:74-163 | a failed connect pulls nothing; otherwise the table gains every pulled row or none, and the connection stays open only after a crash |
| Load.PipelineLoadsExtracted | FDA/fda_to_sql_safe.py:126-159 | a load happens only after a complete pull with at least one row and every row accepted, and the rows loaded are the extractable records' rows in order |
| Load.FinishScript | fda_to_sql.py:74-81 | the insert of fda_to_sql.py commits all rows and closes exactly when the pull completed with rows and all are accepted; otherwise it raises with nothing committed |
| Load.ToSqlScript | fda_to_sql.py:18-81 | a commit happens exactly when the plain pull completes with at least one row and every row is accepted, and the table then gains exactly those rows |
| Load.AsDict | fda_drug_search_paginated.py:34-39 | the dict has exactly the keys brand_name, manufacturer, product_type and route |
| Load.DictRoundTrip | fda_drug_search_paginated.py:34-39 | the four fields read back from the dict unchanged |
| Load.ToDicts | fda_drug_search_paginated.py:33-39 | one dict per row, in order: dict i is AsDict of row i, so it has exactly the four keys and reads back as that row |
| Load.SearchScript | fda_drug_search_paginated.py:16-53 | a failed pull raises; an empty pull raises at `all_drugs[0]`; otherwise the report has the row count and the dicts of the first and last rows |

## Left out

- Real HTTP is an oracle, and so is the 30-second timeout. Before requests 2.27 a
  decoding error was not a `RequestException`, so it escaped the retry gate; the model
  follows 2.27 and later, where the gate catches it.
- In `Body`, `total` and `results` are the only parts read. An absent key path is
  None, which is a KeyError. A JSON document that is not an object is a `Body` with
  both parts None, since indexing it raises. A `total` that is not an integer is not modelled. JSON
  booleans and floats are not in the value type.
- pyodbc, the connection string, the environment variables and the
  `CREATE TABLE IF NOT EXISTS` statement with its commit are not modelled. The
  table is a sequence of rows. Which rows the server refuses is a parameter. Column
  widths and SQL types are not modelled.
- `logging` and `print` output is not modelled, nor is the log file name taken from
  the clock. `time.sleep` is a `Sleep` event in the gate's log.
- The pull loop builds rows as a list of tuples or a list of dicts while it pages.
  The model builds `DrugRecord` values and converts them to dicts after the pull
  (`Load.ToDicts`). The result is the same list.
- fda_drug_search.py, test_sql_operations.py, test_db_connection.py and
  upgraded_first_api_call.py are not part of this model. They are one-shot requests
  and database smoke scripts with no logic beyond the code above.
- Load.FinishScript: a failed insert in fda_to_sql.py leaves uncommitted rows in
  the open transaction when the script dies. The model states only that nothing is
  committed and the connection is still open.
