/** The label-search endpoint as the scripts see it: the query they send, the parts
    of a response body they read, and what one HTTP call can yield. */
module Api {
  import opened Wrappers
  import opened Json

  /** The fixed search filter sent with every request. */
  const SEARCH_TERM: string := "openfda.substance_name:\"ibuprofen\""
  /** Page size sent as `limit`, and the step by which `skip` grows. */
  const LIMIT: nat := 100

  /** Query parameters of one request: `search`, `limit` and `skip`. */
  datatype Params = Params(search: string, limit: nat, skip: nat)

  /** The k-th page request of a pull: offset LIMIT * k. */
  function RequestAt(k: nat): Params
  {
    Params(SEARCH_TERM, LIMIT, LIMIT * k)
  }

  /** The two parts of a decoded body the scripts read: `meta.results.total` and
      `results`. Each is None when reading it raises (a missing key, or a JSON value
      other than an object where one is indexed). */
  datatype Body = Body(total: Option<int>, results: Option<seq<JValue>>)

  /** What `response.json()` makes of a response body: text that is not JSON (it raises
      a decoding error, which requests 2.27 and later make a `RequestException`), JSON
      `null` (Python's None), or any other JSON document, of which Body keeps the parts
      the scripts read. */
  datatype Payload = Undecodable | JsonNull | Document(body: Body)

  /** One `requests.get` call: a response with its status and body, or a
      `RequestException` (connection error, timeout, ...). */
  datatype Outcome = Response(status: int, payload: Payload) | RequestException

  /** An attempt the retry gate returns from: status 200 and a body that decodes. */
  predicate Succeeded(o: Outcome)
  {
    o.Response? && o.status == 200 && !o.payload.Undecodable?
  }

  /** What `response.json()` handed back for a call: the document's parts, or None when
      the body was JSON `null` or the call did not decode. */
  function Answer(o: Outcome): Option<Body>
  {
    if o.Response? && o.payload.Document? then Some(o.payload.body) else None
  }

  /** The network, as an oracle: net(p)(i) is the outcome of the i-th call (from 0)
      made for the request with parameters p. */
  type Network = Params -> nat -> Outcome
}
