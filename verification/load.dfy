/** The three scripts around the pull loop: the Safe loader's `run_pipeline` (connect,
    pull, insert in one transaction, always close), the plain loader (pull, insert,
    commit) and the search script (pull into dicts, report the first and last). */
module Load {
  import opened Wrappers
  import opened Json
  import opened Api
  import opened Extract
  import opened Sifting
  import opened Pagination
  import opened PullProperties

  /** The first row the database refuses, or |rows| when it takes them all. */
  function FirstRejected(rows: seq<DrugRecord>, rejects: DrugRecord -> bool): (i: nat)
    ensures i <= |rows|
    ensures forall j :: 0 <= j < i ==> !rejects(rows[j])
    ensures i < |rows| ==> rejects(rows[i])
  {
    if rows == [] then 0
    else if rejects(rows[0]) then 0
    else 1 + FirstRejected(rows[1..], rejects)
  }

  /** The database takes every row. */
  predicate AllAccepted(rows: seq<DrugRecord>, rejects: DrugRecord -> bool)
  {
    forall j :: 0 <= j < |rows| ==> !rejects(rows[j])
  }

  /** `executemany` goes through: pyodbc refuses an empty parameter list with a
      ProgrammingError, and the server must take every row. */
  predicate Insertable(rows: seq<DrugRecord>, rejects: DrugRecord -> bool)
  {
    rows != [] && AllAccepted(rows, rejects)
  }

  /** A database connection: the committed contents of the drug-label table, the rows
      inserted by the open transaction, and whether the connection is still open. Which
      rows the server refuses is a parameter of the insert (`rejects`). */
  class Connection {
    var table: seq<DrugRecord>
    var pending: seq<DrugRecord>
    var open: bool

    /** `pyodbc.connect`: a fresh session on a table holding `rows`. */
    constructor(rows: seq<DrugRecord>)
      ensures table == rows && pending == [] && open
    {
      table := rows;
      pending := [];
      open := true;
    }

    /** `cursor.executemany(INSERT ...)`: an empty list is refused outright; otherwise
        rows go into the open transaction in order until the server refuses one. `ok` is
        false when either happened. */
    method ExecuteMany(rows: seq<DrugRecord>, rejects: DrugRecord -> bool) returns (ok: bool)
      requires open
      modifies this
      ensures ok <==> Insertable(rows, rejects)
      ensures pending == old(pending) + rows[..FirstRejected(rows, rejects)]
      ensures table == old(table) && open
    {
      if rows == [] {
        assert rows[..0] == [];
        return false;
      }
      var i := 0;
      while i < |rows|
        invariant i <= FirstRejected(rows, rejects)
        invariant pending == old(pending) + rows[..i]
        invariant table == old(table) && open
      {
        if rejects(rows[i]) {
          return false;
        }
        pending := pending + [rows[i]];
        i := i + 1;
      }
      assert rows[..i] == rows;
      ok := true;
    }

    /** `conn.commit()`: the transaction's rows become part of the table. */
    method Commit()
      requires open
      modifies this
      ensures table == old(table) + old(pending) && pending == [] && open
    {
      table := table + pending;
      pending := [];
    }

    /** `conn.rollback()`: the transaction's rows are discarded. */
    method Rollback()
      requires open
      modifies this
      ensures table == old(table) && pending == [] && open
    {
      pending := [];
    }

    /** `conn.close()`: uncommitted rows are discarded with the session. */
    method Close()
      modifies this
      ensures table == old(table) && pending == [] && !open
    {
      pending := [];
      open := false;
    }
  }

  /** How `run_pipeline` ends. */
  datatype PipelineOutcome =
    | ConnectFailed   // the connection could not be made: nothing pulled
    | PullAborted     // the retry gate gave up: connection closed, nothing inserted
    | PullCrashed     // an exception escaped the pull loop: connection left open
    | Loaded(count: nat)  // every row inserted and committed, connection closed
    | RolledBack      // the insert failed: transaction rolled back, connection closed

  /** How `run_pipeline` ends after a given pull. */
  function PipelineEnd(r: PullResult, rejects: DrugRecord -> bool): (e: PipelineOutcome)
    ensures e != ConnectFailed
    ensures e == PullAborted <==> r.Aborted?
    ensures e == PullCrashed <==> r.Crashed?
    ensures e.Loaded? <==> r.Complete? && Insertable(r.rows, rejects)
    ensures e.Loaded? ==> e.count == |r.rows| > 0
    ensures e == RolledBack <==> r.Complete? && (r.rows == [] || !AllAccepted(r.rows, rejects))
  {
    match r
    case Aborted(_, _, _) => PullAborted
    case Crashed(_) => PullCrashed
    case Complete(_, _, rows, _) => if Insertable(rows, rejects) then Loaded(|rows|) else RolledBack
  }

  /** The rest of `run_pipeline` once the pull has ended: close on an abort, let a crash
      escape, otherwise insert in one transaction, commit or roll back, and close. */
  method FinishPipeline(conn: Connection, r: PullResult, rejects: DrugRecord -> bool)
    returns (outcome: PipelineOutcome)
    requires conn.open && conn.pending == []
    modifies conn
    ensures outcome == PipelineEnd(r, rejects)
    ensures conn.table == if outcome.Loaded? then old(conn.table) + r.rows else old(conn.table)
    ensures conn.pending == [] && (conn.open <==> outcome == PullCrashed)
  {
    match r {
      case Aborted(_, _, _) =>
        conn.Close();
        outcome := PullAborted;
      case Crashed(_) =>
        outcome := PullCrashed;
      case Complete(_, _, rows, _) =>
        var ok := conn.ExecuteMany(rows, rejects);
        if ok {
          conn.Commit();
          outcome := Loaded(|rows|);
        } else {
          conn.Rollback();
          outcome := RolledBack;
        }
        conn.Close();
    }
  }

  /** `run_pipeline` of FDA/fda_to_sql_safe.py; `conn` is null when connecting failed.
      The table gains every pulled row or none of them. */
  method RunPipeline(conn: Connection?, net: Network, rejects: DrugRecord -> bool)
    returns (outcome: PipelineOutcome)
    requires conn != null ==> conn.open && conn.pending == []
    modifies conn
    ensures conn == null ==> outcome == ConnectFailed
    ensures conn != null ==>
              var r := Pull(Safe, Fetcher(Safe, net));
              && outcome == PipelineEnd(r, rejects)
              && conn.table == (if outcome.Loaded? then old(conn.table) + r.rows else old(conn.table))
              && conn.pending == [] && (conn.open <==> outcome == PullCrashed)
  {
    if conn == null {
      return ConnectFailed;
    }
    var r := RunPull(Safe, net);
    outcome := FinishPipeline(conn, r, rejects);
  }

  /** A pipeline run loads only after a complete pull, and then the table gains the rows
      of every extractable record of every page, in order; every other run leaves the
      table as it was. */
  lemma PipelineLoadsExtracted(net: Network, rejects: DrugRecord -> bool)
    ensures var fetch := Fetcher(Safe, net);
            var r := Pull(Safe, fetch);
            PipelineEnd(r, rejects).Loaded? ==>
              && r.Complete? && r.rows != [] && AllAccepted(r.rows, rejects)
              && r.rows == Extracted(RawRecords(fetch, |r.sent|))
              && r.skipped == Discarded(RawRecords(fetch, |r.sent|))
  {
    PullSafeRows(Fetcher(Safe, net));
  }

  /** How fda_to_sql.py ends. */
  datatype ScriptOutcome =
    | ScriptCrashed   // connecting, the pull or the insert raised: nothing committed
    | Committed(count: nat)  // every row inserted and committed, connection closed

  /** The insert and commit of fda_to_sql.py after a given pull. */
  method FinishScript(conn: Connection, r: PullResult, rejects: DrugRecord -> bool)
    returns (outcome: ScriptOutcome)
    requires conn.open && conn.pending == []
    modifies conn
    ensures outcome.Committed? <==> r.Complete? && Insertable(r.rows, rejects)
    ensures outcome.Committed? ==> outcome.count == |r.rows| && conn.table == old(conn.table) + r.rows
                                   && conn.pending == [] && !conn.open
    ensures outcome.ScriptCrashed? ==> conn.table == old(conn.table) && conn.open
  {
    if !r.Complete? {
      return ScriptCrashed;
    }
    var ok := conn.ExecuteMany(r.rows, rejects);
    if !ok {
      return ScriptCrashed;
    }
    conn.Commit();
    conn.Close();
    outcome := Committed(|r.rows|);
  }

  /** fda_to_sql.py: connect, pull without retry or skipping, insert, commit, close.
      Any failure raises out of the script before the commit. */
  method ToSqlScript(conn: Connection?, net: Network, rejects: DrugRecord -> bool)
    returns (outcome: ScriptOutcome)
    requires conn != null ==> conn.open && conn.pending == []
    modifies conn
    ensures conn == null ==> outcome == ScriptCrashed
    ensures conn != null ==>
              var r := Pull(Plain, Fetcher(Plain, net));
              && (outcome.Committed? <==> r.Complete? && Insertable(r.rows, rejects))
              && (outcome.Committed? ==> outcome.count == |r.rows| && conn.table == old(conn.table) + r.rows
                                         && conn.pending == [] && !conn.open)
              && (outcome.ScriptCrashed? ==> conn.table == old(conn.table) && conn.open)
  {
    if conn == null {
      return ScriptCrashed;
    }
    var r := RunPull(Plain, net);
    outcome := FinishScript(conn, r, rejects);
  }

  /** The keys of the dict the search script builds per record. */
  const BRAND_KEY: string := "brand_name"
  const MANUFACTURER_KEY: string := "manufacturer"
  const PRODUCT_TYPE_KEY: string := "product_type"
  const ROUTE_KEY: string := "route"

  /** A row as the search script stores it: a dict of the four fields. */
  function AsDict(row: DrugRecord): (d: map<string, JValue>)
    ensures d.Keys == {BRAND_KEY, MANUFACTURER_KEY, PRODUCT_TYPE_KEY, ROUTE_KEY}
  {
    map[BRAND_KEY := row.brandName, MANUFACTURER_KEY := row.manufacturer,
        PRODUCT_TYPE_KEY := row.productType, ROUTE_KEY := row.route]
  }

  /** Reading the four fields back from such a dict. */
  function FromDict(d: map<string, JValue>): Option<DrugRecord>
  {
    if BRAND_KEY in d && MANUFACTURER_KEY in d && PRODUCT_TYPE_KEY in d && ROUTE_KEY in d
    then Some(DrugRecord(d[BRAND_KEY], d[MANUFACTURER_KEY], d[PRODUCT_TYPE_KEY], d[ROUTE_KEY]))
    else None
  }

  /** The dict loses nothing: each field reads back under its own key. */
  lemma DictRoundTrip(row: DrugRecord)
    ensures FromDict(AsDict(row)) == Some(row)
  {
  }

  /** `all_drugs.append({...})` for each row, in order. */
  method ToDicts(rows: seq<DrugRecord>) returns (dicts: seq<map<string, JValue>>)
    ensures |dicts| == |rows|
    ensures forall i :: 0 <= i < |rows| ==> dicts[i] == AsDict(rows[i])
    ensures forall i :: 0 <= i < |rows| ==> FromDict(dicts[i]) == Some(rows[i])
  {
    dicts := [];
    for i := 0 to |rows|
      invariant |dicts| == i
      invariant forall j :: 0 <= j < i ==> dicts[j] == AsDict(rows[j])
      invariant forall j :: 0 <= j < i ==> FromDict(dicts[j]) == Some(rows[j])
    {
      DictRoundTrip(rows[i]);
      dicts := dicts + [AsDict(rows[i])];
    }
  }

  /** How fda_drug_search_paginated.py ends. */
  datatype SearchOutcome =
    | SearchCrashed   // the pull raised
    | NoRecords       // the pull completed empty, so reading all_drugs[0] raised
    | Reported(count: nat, first: map<string, JValue>, last: map<string, JValue>)

  /** fda_drug_search_paginated.py: pull without retry or skipping, then report the
      count and the first and last record. */
  method SearchScript(net: Network) returns (outcome: SearchOutcome)
    ensures var r := Pull(Plain, Fetcher(Plain, net));
            && (outcome.SearchCrashed? <==> !r.Complete?)
            && (outcome.NoRecords? <==> r.Complete? && r.rows == [])
            && (outcome.Reported? ==>
                  && outcome.count == |r.rows|
                  && outcome.first == AsDict(r.rows[0]) && outcome.last == AsDict(r.rows[|r.rows| - 1])
                  && FromDict(outcome.first) == Some(r.rows[0])
                  && FromDict(outcome.last) == Some(r.rows[|r.rows| - 1]))
  {
    var r := RunPull(Plain, net);
    if !r.Complete? {
      return SearchCrashed;
    }
    var allDrugs := ToDicts(r.rows);
    if |allDrugs| == 0 {
      return NoRecords;
    }
    outcome := Reported(|allDrugs|, allDrugs[0], allDrugs[|allDrugs| - 1]);
  }
}
