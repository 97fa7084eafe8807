/** What a whole pull guarantees, for any server: the requests it makes, where it stops,
    which rows it keeps, when it aborts, and that only the first page's total is read. */
module PullProperties {
  import opened Wrappers
  import opened Json
  import opened Api
  import opened Extract
  import opened Retry
  import opened Sifting
  import opened Pagination

  /** A pull makes at least one request, and the k-th goes out with skip = k * LIMIT. */
  lemma PullRequests(variant: Variant, fetch: Pages)
    ensures var r := Pull(variant, fetch);
            && |r.sent| >= 1
            && forall k :: 0 <= k < |r.sent| ==> r.sent[k] == RequestAt(k)
  {
    PullFromRequests(variant, SiftBy(StepOf(variant)), fetch, 0, None, [], [], 0);
  }

  /** A completed pull used the first page's total and made max(1, ceil(total / LIMIT))
      requests. */
  lemma PullStops(variant: Variant, fetch: Pages)
    ensures var r := Pull(variant, fetch);
            r.Complete? ==> Some(r.total) == FirstTotal(fetch) && |r.sent| == NumPages(r.total)
  {
    PullFromStops(variant, SiftBy(StepOf(variant)), fetch, 0, None, [], [], 0);
  }

  /** A completed pull holds exactly the sifted records of every page it requested:
      every record received is either a row or counted as skipped. */
  lemma PullConserves(variant: Variant, fetch: Pages)
    ensures var r := Pull(variant, fetch);
            r.Complete? ==>
              && Sift(StepOf(variant), RawRecords(fetch, |r.sent|)) == Some(Sifted(r.rows, r.skipped))
              && |r.rows| + r.skipped == |RawRecords(fetch, |r.sent|)|
  {
    PullFromConserves(variant, SiftBy(StepOf(variant)), fetch, 0, None, [], [], 0);
    ReceivedIsSift(StepOf(variant), fetch, |Pull(variant, fetch).sent|);
  }

  /** The Safe loader, on completion, has a row for each extractable record in order, has
      skipped exactly the discarded ones, and saw no record that is not a dict. */
  lemma PullSafeRows(fetch: Pages)
    ensures var r := Pull(Safe, fetch);
            var raw := RawRecords(fetch, |r.sent|);
            r.Complete? ==>
              && r.rows == Extracted(raw) && r.skipped == Discarded(raw)
              && forall i :: 0 <= i < |raw| ==> raw[i].JObj?
  {
    PullConserves(Safe, fetch);
    SafeSift(RawRecords(fetch, |Pull(Safe, fetch).sent|));
  }

  /** The Plain loaders, on completion, skipped nothing: each record received was
      extractable and became the row at its own position. */
  lemma PullPlainRows(fetch: Pages)
    ensures var r := Pull(Plain, fetch);
            var raw := RawRecords(fetch, |r.sent|);
            r.Complete? ==>
              && r.skipped == 0 && |r.rows| == |raw|
              && forall i :: 0 <= i < |raw| ==> Extractable(raw[i]) && r.rows[i] == ExtractRecord(raw[i]).value
  {
    var r := Pull(Plain, fetch);
    var raw := RawRecords(fetch, |r.sent|);
    PullConserves(Plain, fetch);
    PlainSift(raw);
    if r.Complete? {
      ExtractedAll(raw);
    }
  }

  /** Only the Safe loader aborts, only when the last request failed, and it then holds
      the sifted records of every earlier page. */
  lemma PullAborts(variant: Variant, fetch: Pages)
    ensures var r := Pull(variant, fetch);
            r.Aborted? ==>
              && variant.Safe? && |r.sent| >= 1
              && fetch(RequestAt(|r.sent| - 1)).None?
              && Sift(StepOf(variant), RawRecords(fetch, |r.sent| - 1)) == Some(Sifted(r.rows, r.skipped))
  {
    var sift := SiftBy(StepOf(variant));
    var r := PullFrom(variant, sift, fetch, 0, None, [], [], 0);
    assert r == Pull(variant, fetch);
    PullFromAborts(variant, sift, fetch, 0, None, [], [], 0);
    if r.Aborted? {
      var n := |r.sent| - 1;
      assert Received(sift, fetch, n) == Some(Sifted(r.rows, r.skipped));
      ReceivedIsSift(StepOf(variant), fetch, n);
    }
  }

  /** A Safe request yields nothing only when the retry gate gave up on it or the server
      answered JSON `null`: with PullAborts, an aborted pull made MAX_RETRIES failed
      attempts at its last request, or got `null` there. */
  lemma SafeFetchFails(net: Network, p: Params)
    requires Fetcher(Safe, net)(p).None?
    ensures GaveUp(net(p)) || AnsweredNull(net(p))
  {
    assert GateResult(net(p)).None?;
  }

  /** A server that answers every request with a usable page lets the pull complete. */
  lemma PullHealthyCompletes(variant: Variant, fetch: Pages)
    requires Healthy(SiftBy(StepOf(variant)), fetch)
    ensures Pull(variant, fetch).Complete?
  {
    PullFromHealthy(variant, SiftBy(StepOf(variant)), fetch, 0, None, [], [], 0);
  }

  /** Later pages may report any total, or none: the pull is the same. */
  lemma PullIgnoresLaterTotals(variant: Variant, f: Pages, g: Pages)
    requires f(RequestAt(0)) == g(RequestAt(0))
    requires forall k: nat :: SameResults(f(RequestAt(k)), g(RequestAt(k)))
    ensures Pull(variant, f) == Pull(variant, g)
  {
    PullFromSameResults(variant, SiftBy(StepOf(variant)), f, g, 0, None, [], [], 0);
  }

  /** With the total 250 the loader asks for skip 0, 100 and 200 and stops. */
  lemma PullOf250(variant: Variant, fetch: Pages)
    requires FirstTotal(fetch) == Some(250)
    ensures var r := Pull(variant, fetch);
            r.Complete? ==> r.sent == [Params(SEARCH_TERM, 100, 0), Params(SEARCH_TERM, 100, 100), Params(SEARCH_TERM, 100, 200)]
  {
    var r := Pull(variant, fetch);
    PullRequests(variant, fetch);
    PullStops(variant, fetch);
    if r.Complete? {
      NumPagesUnique(250, 3);
      assert |r.sent| == 3;
      assert r.sent[0] == RequestAt(0) && r.sent[1] == RequestAt(1) && r.sent[2] == RequestAt(2);
    }
  }

  /** The number of records page k holds when the server has `total` of them. */
  function PageSize(total: int, k: nat): nat
  {
    var left := total - LIMIT * k;
    if left >= LIMIT then LIMIT else if left > 0 then left else 0
  }

  /** A server whose first page reports `total` and whose pages hold the records
      0 .. total - 1 in slices of LIMIT. */
  ghost predicate Consistent(fetch: Pages, total: int)
  {
    && FirstTotal(fetch) == Some(total)
    && forall k: nat :: k < NumPages(total) ==> |PageRecords(fetch, k)| == PageSize(total, k)
  }

  /** Against a consistent server the first n pages hold min(n * LIMIT, total) records. */
  lemma {:induction false} ConsistentRaw(fetch: Pages, total: int, n: nat)
    requires Consistent(fetch, total) && n <= NumPages(total)
    ensures |RawRecords(fetch, n)| == if total <= 0 then 0 else if LIMIT * n <= total then LIMIT * n else total
  {
    if n > 0 {
      ConsistentRaw(fetch, total, n - 1);
      assert |PageRecords(fetch, n - 1)| == PageSize(total, n - 1);
      if total > 0 {
        assert LIMIT * (n - 1) < total by {
          if n > 1 {
            assert LIMIT * (n - 1) <= LIMIT * (NumPages(total) - 1);
          }
        }
      }
    }
  }

  /** Against a consistent server a completed pull accounts for all `total` records:
      each is a row or was skipped. */
  lemma PullConsistent(variant: Variant, fetch: Pages, total: int)
    requires Consistent(fetch, total)
    ensures var r := Pull(variant, fetch);
            r.Complete? ==> |r.rows| + r.skipped == if total <= 0 then 0 else total
  {
    var r := Pull(variant, fetch);
    PullStops(variant, fetch);
    PullConserves(variant, fetch);
    if r.Complete? {
      ConsistentRaw(fetch, total, NumPages(total));
    }
  }
}
