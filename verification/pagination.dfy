/** The pagination driver shared by the three loaders: request pages at growing offsets
    until `skip >= total`, sifting each page's records into the accumulator. */
module Pagination {
  import opened Wrappers
  import opened Json
  import opened Api
  import opened Extract
  import opened Retry
  import opened Sifting

  /** How a pull ends: the loop broke out normally, the retry gate gave up (Safe only),
      or an exception escaped the loop. `sent` lists the requests made, in order. */
  datatype PullResult =
    | Complete(sent: seq<Params>, total: int, rows: seq<DrugRecord>, skipped: nat)
    | Aborted(sent: seq<Params>, rows: seq<DrugRecord>, skipped: nat)
    | Crashed(sent: seq<Params>)

  /** A single call without retry, `requests.get` then `response.json()`: the document
      of whatever response came back, its status ignored, or None when the call or the
      decoding raised, or the body was JSON `null` (reading a page of None raises). */
  function SingleCall(attempt: nat -> Outcome): (r: Option<Body>)
    ensures r.Some? <==> attempt(0).Response? && attempt(0).payload.Document?
    ensures r.Some? ==> r.value == attempt(0).payload.body
  {
    Answer(attempt(0))
  }

  /** The body a request yields to the loop, or None: for Safe the retry gate gave up,
      for Plain the call raised. */
  function Fetch(variant: Variant, net: Network, p: Params): Option<Body>
  {
    if variant.Safe? then GateResult(net(p)) else SingleCall(net(p))
  }

  /** What the loop receives per request: a body, or None when fetching failed. */
  type Pages = Params -> Option<Body>

  /** The pages a variant receives from a given network. */
  function Fetcher(variant: Variant, net: Network): Pages
  {
    p => Fetch(variant, net, p)
  }

  /** What the records of one page yield: rows and a skipped count, or None when one
      raised. The loader's own is `SiftBy(StepOf(variant))`. */
  type PageSift = seq<JValue> -> Option<Sifted>

  /** The termination measure of the loop once `total` is known. */
  function Remaining(skip: nat, total: Option<int>): nat
  {
    if total.Some? && total.value > skip then total.value - skip else 0
  }

  /** The rows a page yields, or None when reading `results` or a record raised. */
  function PageRows(sift: PageSift, data: Body): Option<Sifted>
  {
    if data.results.Some? then sift(data.results.value) else None
  }

  /** `total` after a page: taken from the page only while still unknown (None when the
      page lacks it, so reading it raised KeyError). */
  function TotalAfter(total: Option<int>, data: Body): Option<int>
  {
    if total.Some? then total else data.total
  }

  /** The loop from a given state: `skip`, `total` (None until the first page), the
      requests sent so far, the rows kept and the records skipped. `variant` decides
      what a failed fetch does, `sift` what a page's records yield. */
  function PullFrom(variant: Variant, sift: PageSift, fetch: Pages, skip: nat, total: Option<int>,
                    sent: seq<Params>, rows: seq<DrugRecord>, skipped: nat): (r: PullResult)
    decreases if total.None? then 1 else 0, Remaining(skip, total)
    ensures |r.sent| > |sent|
  {
    var sent' := sent + [Params(SEARCH_TERM, LIMIT, skip)];
    var data := fetch(Params(SEARCH_TERM, LIMIT, skip));
    if data.None? then
      if variant.Safe? then Aborted(sent', rows, skipped) else Crashed(sent')
    else
      var t := TotalAfter(total, data.value);
      var page := PageRows(sift, data.value);
      if t.None? || page.None? then Crashed(sent')
      else if skip + LIMIT >= t.value then
        Complete(sent', t.value, rows + page.value.kept, skipped + page.value.skipped)
      else
        PullFrom(variant, sift, fetch, skip + LIMIT, t, sent', rows + page.value.kept, skipped + page.value.skipped)
  }

  /** A whole pull: from skip 0, `total` unknown, nothing accumulated. */
  function Pull(variant: Variant, fetch: Pages): (r: PullResult)
    ensures |r.sent| >= 1
  {
    PullFrom(variant, SiftBy(StepOf(variant)), fetch, 0, None, [], [], 0)
  }

  /** The records the k-th request brought back (none when it failed). */
  function PageRecords(fetch: Pages, k: nat): seq<JValue>
  {
    var data := fetch(RequestAt(k));
    if data.Some? && data.value.results.Some? then data.value.results.value else []
  }

  /** The raw records of the first n pages, in page order. */
  function RawRecords(fetch: Pages, n: nat): seq<JValue>
  {
    if n == 0 then [] else RawRecords(fetch, n - 1) + PageRecords(fetch, n - 1)
  }

  /** The total reported by the first page, the only page whose total is read. */
  function FirstTotal(fetch: Pages): Option<int>
  {
    var data := fetch(RequestAt(0));
    if data.Some? then data.value.total else None
  }

  /** The number of requests a pull makes for a given total, max(1, ceil(total / LIMIT)):
      the least n >= 1 with LIMIT * n >= total. */
  function NumPages(total: int): (n: nat)
    ensures n >= 1 && LIMIT * n >= total
    ensures n == 1 || LIMIT * (n - 1) < total
  {
    if total <= LIMIT then 1 else (total + LIMIT - 1) / LIMIT
  }

  /** NumPages is the only count at which the loop can stop. */
  lemma NumPagesUnique(total: int, m: nat)
    requires m >= 1 && LIMIT * m >= total
    requires m == 1 || LIMIT * (m - 1) < total
    ensures m == NumPages(total)
  {
  }

  /** Requests go out at offsets 0, LIMIT, 2 * LIMIT, ..., with the fixed search term
      and page size. */
  lemma {:induction false} PullFromRequests(variant: Variant, sift: PageSift, fetch: Pages, skip: nat,
                                            total: Option<int>, sent: seq<Params>, rows: seq<DrugRecord>, skipped: nat)
    requires skip == LIMIT * |sent|
    requires forall k :: 0 <= k < |sent| ==> sent[k] == RequestAt(k)
    ensures var r := PullFrom(variant, sift, fetch, skip, total, sent, rows, skipped);
            && |r.sent| > |sent|
            && forall k :: 0 <= k < |r.sent| ==> r.sent[k] == RequestAt(k)
    decreases if total.None? then 1 else 0, Remaining(skip, total)
  {
    var p := Params(SEARCH_TERM, LIMIT, skip);
    assert p == RequestAt(|sent|);
    var data := fetch(p);
    if data.Some? {
      var t := TotalAfter(total, data.value);
      var page := PageRows(sift, data.value);
      if t.Some? && page.Some? && skip + LIMIT < t.value {
        PullFromRequests(variant, sift, fetch, skip + LIMIT, t, sent + [p], rows + page.value.kept, skipped + page.value.skipped);
      }
    }
  }

  /** `total` is the first page's and is never re-read; a completed pull stopped after
      the first page at which skip >= total, so it made NumPages(total) requests. */
  lemma {:induction false} PullFromStops(variant: Variant, sift: PageSift, fetch: Pages, skip: nat,
                                         total: Option<int>, sent: seq<Params>, rows: seq<DrugRecord>, skipped: nat)
    requires skip == LIMIT * |sent|
    requires total.None? <==> sent == []
    requires total.Some? ==> total == FirstTotal(fetch) && LIMIT * |sent| < total.value
    ensures var r := PullFrom(variant, sift, fetch, skip, total, sent, rows, skipped);
            r.Complete? ==> Some(r.total) == FirstTotal(fetch) && |r.sent| == NumPages(r.total)
    decreases if total.None? then 1 else 0, Remaining(skip, total)
  {
    var p := Params(SEARCH_TERM, LIMIT, skip);
    var data := fetch(p);
    if data.Some? {
      var t := TotalAfter(total, data.value);
      var page := PageRows(sift, data.value);
      if t.Some? && page.Some? {
        if skip + LIMIT >= t.value {
          NumPagesUnique(t.value, |sent| + 1);
        } else {
          PullFromStops(variant, sift, fetch, skip + LIMIT, t, sent + [p], rows + page.value.kept, skipped + page.value.skipped);
        }
      }
    }
  }

  /** The rows of the first n pages as the loop accumulates them, page by page. */
  function Received(sift: PageSift, fetch: Pages, n: nat): Option<Sifted>
  {
    if n == 0 then Some(Sifted([], 0))
    else Join(Received(sift, fetch, n - 1), sift(PageRecords(fetch, n - 1)))
  }

  /** Accumulating page by page is sifting all records of those pages in one run. */
  lemma {:induction false} ReceivedIsSift(step: JValue -> Step, fetch: Pages, n: nat)
    ensures Received(SiftBy(step), fetch, n) == Sift(step, RawRecords(fetch, n))
  {
    if n > 0 {
      ReceivedIsSift(step, fetch, n - 1);
      SiftAppend(step, RawRecords(fetch, n - 1), PageRecords(fetch, n - 1));
    }
  }

  /** One more page received and sifted extends the accumulator. */
  lemma ReceivedNext(sift: PageSift, fetch: Pages, n: nat, acc: Sifted, data: Body, page: Sifted)
    requires Received(sift, fetch, n) == Some(acc)
    requires fetch(RequestAt(n)) == Some(data) && PageRows(sift, data) == Some(page)
    ensures Received(sift, fetch, n + 1) == Some(Sifted(acc.kept + page.kept, acc.skipped + page.skipped))
  {
    assert PageRecords(fetch, n) == data.results.value;
  }

  /** The rows and skipped count of a completed pull are exactly those of sifting, in
      order, every record of every page received. */
  lemma {:induction false} PullFromConserves(variant: Variant, sift: PageSift, fetch: Pages, skip: nat,
                                             total: Option<int>, sent: seq<Params>, rows: seq<DrugRecord>, skipped: nat)
    requires skip == LIMIT * |sent|
    requires Received(sift, fetch, |sent|) == Some(Sifted(rows, skipped))
    ensures var r := PullFrom(variant, sift, fetch, skip, total, sent, rows, skipped);
            r.Complete? ==> Received(sift, fetch, |r.sent|) == Some(Sifted(r.rows, r.skipped))
    decreases if total.None? then 1 else 0, Remaining(skip, total)
  {
    var r := PullFrom(variant, sift, fetch, skip, total, sent, rows, skipped);
    var p := Params(SEARCH_TERM, LIMIT, skip);
    assert p == RequestAt(|sent|);
    var data := fetch(p);
    if data.Some? {
      var t := TotalAfter(total, data.value);
      var page := PageRows(sift, data.value);
      if t.Some? && page.Some? {
        var rows', skipped' := rows + page.value.kept, skipped + page.value.skipped;
        ReceivedNext(sift, fetch, |sent|, Sifted(rows, skipped), data.value, page.value);
        assert |sent + [p]| == |sent| + 1;
        if skip + LIMIT < t.value {
          assert r == PullFrom(variant, sift, fetch, skip + LIMIT, t, sent + [p], rows', skipped');
          PullFromConserves(variant, sift, fetch, skip + LIMIT, t, sent + [p], rows', skipped');
        } else {
          assert r == Complete(sent + [p], t.value, rows', skipped');
        }
      } else {
        assert r.Crashed?;
      }
    } else {
      assert !r.Complete?;
    }
  }

  /** Only the Safe loader aborts, and only when the retry gate gave up on the last
      request; it keeps the rows of every page before that one. */
  lemma {:induction false} PullFromAborts(variant: Variant, sift: PageSift, fetch: Pages, skip: nat,
                                          total: Option<int>, sent: seq<Params>, rows: seq<DrugRecord>, skipped: nat)
    requires skip == LIMIT * |sent|
    requires Received(sift, fetch, |sent|) == Some(Sifted(rows, skipped))
    ensures var r := PullFrom(variant, sift, fetch, skip, total, sent, rows, skipped);
            r.Aborted? ==>
              && variant.Safe? && |r.sent| >= 1
              && fetch(RequestAt(|r.sent| - 1)).None?
              && Received(sift, fetch, |r.sent| - 1) == Some(Sifted(r.rows, r.skipped))
    decreases if total.None? then 1 else 0, Remaining(skip, total)
  {
    var r := PullFrom(variant, sift, fetch, skip, total, sent, rows, skipped);
    var p := Params(SEARCH_TERM, LIMIT, skip);
    assert p == RequestAt(|sent|);
    var data := fetch(p);
    if data.Some? {
      var t := TotalAfter(total, data.value);
      var page := PageRows(sift, data.value);
      if t.Some? && page.Some? {
        var rows', skipped' := rows + page.value.kept, skipped + page.value.skipped;
        if skip + LIMIT < t.value {
          ReceivedNext(sift, fetch, |sent|, Sifted(rows, skipped), data.value, page.value);
          assert |sent + [p]| == |sent| + 1;
          assert r == PullFrom(variant, sift, fetch, skip + LIMIT, t, sent + [p], rows', skipped');
          PullFromAborts(variant, sift, fetch, skip + LIMIT, t, sent + [p], rows', skipped');
        } else {
          assert r.Complete?;
        }
      } else {
        assert r.Crashed?;
      }
    } else {
      assert r == if variant.Safe? then Aborted(sent + [p], rows, skipped) else Crashed(sent + [p]);
      assert |sent + [p]| - 1 == |sent|;
    }
  }

  /** A page that arrives, carries `results` and sifts without raising. */
  predicate Serves(sift: PageSift, data: Option<Body>)
  {
    data.Some? && data.value.results.Some? && sift(data.value.results.value).Some?
  }

  /** A server that answers every request with a usable page, the first one carrying
      the total. */
  ghost predicate Healthy(sift: PageSift, fetch: Pages)
  {
    FirstTotal(fetch).Some? && forall k: nat :: Serves(sift, fetch(RequestAt(k)))
  }

  /** Against a healthy server the loop always reaches `skip >= total` and completes. */
  lemma {:induction false} PullFromHealthy(variant: Variant, sift: PageSift, fetch: Pages, skip: nat,
                                           total: Option<int>, sent: seq<Params>, rows: seq<DrugRecord>, skipped: nat)
    requires Healthy(sift, fetch)
    requires skip == LIMIT * |sent| && (total.None? ==> sent == [])
    ensures PullFrom(variant, sift, fetch, skip, total, sent, rows, skipped).Complete?
    decreases if total.None? then 1 else 0, Remaining(skip, total)
  {
    var p := Params(SEARCH_TERM, LIMIT, skip);
    assert p == RequestAt(|sent|);
    assert Serves(sift, fetch(RequestAt(|sent|)));
    var data := fetch(p);
    var t := TotalAfter(total, data.value);
    var page := PageRows(sift, data.value);
    if skip + LIMIT < t.value {
      PullFromHealthy(variant, sift, fetch, skip + LIMIT, t, sent + [p], rows + page.value.kept, skipped + page.value.skipped);
    }
  }

  /** Two answers that agree on whether a page arrived and on its records. */
  predicate SameResults(a: Option<Body>, b: Option<Body>)
  {
    a.Some? == b.Some? && (a.Some? ==> a.value.results == b.value.results)
  }

  /** Only the first page's `total` is read: servers that agree on the first page and
      on the records of every later page give the same pull. */
  lemma {:induction false} PullFromSameResults(variant: Variant, sift: PageSift, f: Pages, g: Pages, skip: nat,
                                               total: Option<int>, sent: seq<Params>, rows: seq<DrugRecord>, skipped: nat)
    requires f(RequestAt(0)) == g(RequestAt(0))
    requires forall k: nat :: SameResults(f(RequestAt(k)), g(RequestAt(k)))
    requires skip == LIMIT * |sent| && (total.None? ==> sent == [])
    ensures PullFrom(variant, sift, f, skip, total, sent, rows, skipped)
         == PullFrom(variant, sift, g, skip, total, sent, rows, skipped)
    decreases if total.None? then 1 else 0, Remaining(skip, total)
  {
    var p := Params(SEARCH_TERM, LIMIT, skip);
    assert p == RequestAt(|sent|);
    assert SameResults(f(RequestAt(|sent|)), g(RequestAt(|sent|)));
    var data := f(p);
    if data.Some? {
      var t := TotalAfter(total, data.value);
      var page := PageRows(sift, data.value);
      if t.Some? && page.Some? && skip + LIMIT < t.value {
        PullFromSameResults(variant, sift, f, g, skip + LIMIT, t, sent + [p], rows + page.value.kept, skipped + page.value.skipped);
      }
    }
  }

  /** One more turn of the loop: a page that arrived, carried a usable total and
      records, and did not reach the total leads to the next request. */
  lemma PullFromContinues(variant: Variant, sift: PageSift, fetch: Pages, skip: nat, total: Option<int>,
                          sent: seq<Params>, rows: seq<DrugRecord>, skipped: nat,
                          skip': nat, total': Option<int>, sent': seq<Params>, rows': seq<DrugRecord>, skipped': nat)
    requires var data := fetch(Params(SEARCH_TERM, LIMIT, skip));
             && data.Some? && TotalAfter(total, data.value) == total' && total'.Some?
             && PageRows(sift, data.value).Some? && skip' == skip + LIMIT < total'.value
             && sent' == sent + [Params(SEARCH_TERM, LIMIT, skip)]
             && rows' == rows + PageRows(sift, data.value).value.kept
             && skipped' == skipped + PageRows(sift, data.value).value.skipped
    ensures PullFrom(variant, sift, fetch, skip, total, sent, rows, skipped)
         == PullFrom(variant, sift, fetch, skip', total', sent', rows', skipped')
  {
  }

  /** One request as the loop issues it: through the retry gate (Safe) or as a single
      call whose exception escapes (Plain). */
  method FetchPage(variant: Variant, net: Network, params: Params) returns (data: Option<Body>)
    ensures data == Fetcher(variant, net)(params)
  {
    if variant.Safe? {
      var log;
      data, log := CallApiWithRetry(net(params));
    } else {
      data := SingleCall(net(params));
    }
  }

  /** `while True:` ... `if skip >= total: break` -- the pull loop itself. */
  method RunPull(variant: Variant, net: Network) returns (r: PullResult)
    ensures r == Pull(variant, Fetcher(variant, net))
  {
    ghost var fetch := Fetcher(variant, net);
    ghost var sift := SiftBy(StepOf(variant));
    var allDrugs: seq<DrugRecord> := [];
    var skipped: nat := 0;
    var skip: nat := 0;
    var total: Option<int> := None;
    var sent: seq<Params> := [];
    while true
      invariant PullFrom(variant, sift, fetch, skip, total, sent, allDrugs, skipped) == Pull(variant, fetch)
      decreases if total.None? then 1 else 0, Remaining(skip, total)
    {
      ghost var skip0, total0, sent0, rows0, skipped0 := skip, total, sent, allDrugs, skipped;
      var params := Params(SEARCH_TERM, LIMIT, skip);
      sent := sent + [params];
      var data := FetchPage(variant, net, params);

      if data.None? {
        if variant.Safe? {
          return Aborted(sent, allDrugs, skipped);
        }
        return Crashed(sent);
      }
      var body := data.value;
      if total.None? {
        if body.total.None? {
          return Crashed(sent);
        }
        total := body.total;
      }
      if body.results.None? {
        return Crashed(sent);
      }
      var ok;
      ok, allDrugs, skipped := SiftPage(variant, body.results.value, allDrugs, skipped);
      if !ok {
        return Crashed(sent);
      }
      assert sift(body.results.value) == Sift(StepOf(variant), body.results.value);
      skip := skip + LIMIT;
      if skip >= total.value {
        return Complete(sent, total.value, allDrugs, skipped);
      }
      PullFromContinues(variant, sift, fetch, skip0, total0, sent0, rows0, skipped0, skip, total, sent, allDrugs, skipped);
    }
  }
}
