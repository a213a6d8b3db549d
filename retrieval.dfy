/**
 * retrieve_html: one GET, then up to five retries, each after a fixed sleep,
 * stopping at the first response with status 200.
 * The HTTP layer is a function from the request number (0 for the first
 * request) to the response that request receives; the sleep is a counter.
 */
module Retrieval {
  import opened Outcomes

  /** One HTTP response: its status code and its body text. */
  datatype Response = Response(status: int, body: string)

  const StatusOk := 200
  /** Retries after a failed first request. */
  const Retries := 5
  /** Upper bound on the requests of one call. */
  const MaxRequests := Retries + 1

  /**
   * Number of requests made when request `k` is about to be made and all
   * before it failed: stop at the first success or when the budget is spent.
   */
  function RequestsFrom(server: nat -> Response, k: nat): (n: nat)
    requires k < MaxRequests
    ensures k < n <= MaxRequests
    ensures forall j :: k <= j < n - 1 ==> server(j).status != StatusOk
    ensures n < MaxRequests ==> server(n - 1).status == StatusOk
    decreases MaxRequests - k
  {
    if server(k).status == StatusOk || k == MaxRequests - 1 then k + 1
    else RequestsFrom(server, k + 1)
  }

  /** Number of requests retrieve_html makes against `server`. */
  function RequestCount(server: nat -> Response): (n: nat)
    ensures 1 <= n <= MaxRequests
    ensures forall j :: 0 <= j < n - 1 ==> server(j).status != StatusOk
    ensures n < MaxRequests ==> server(n - 1).status == StatusOk
  {
    RequestsFrom(server, 0)
  }

  /** Some request within the budget receives status 200. */
  ghost predicate Succeeds(server: nat -> Response)
  {
    exists i :: 0 <= i < MaxRequests && server(i).status == StatusOk
  }

  /**
   * The body of the last response retrieve_html sees: when the call
   * succeeds, the body of the first response with status 200.
   */
  function LastBody(server: nat -> Response): (b: string)
    ensures server(0).status == StatusOk ==> b == server(0).body
    ensures Succeeds(server) ==>
      exists i :: 0 <= i < MaxRequests && server(i).status == StatusOk && b == server(i).body &&
        forall j :: 0 <= j < i ==> server(j).status != StatusOk
  {
    SucceedsIffLastOk(server);
    server(RequestCount(server) - 1).body
  }

  /** The request count is one more than the index of the first success, or the whole budget. */
  lemma RequestCountIsFirstSuccess(server: nat -> Response, i: nat)
    requires i < MaxRequests && server(i).status == StatusOk
    requires forall j :: 0 <= j < i ==> server(j).status != StatusOk
    ensures RequestCount(server) == i + 1
  {
  }

  /** Success is decided by the last response seen: it is 200 exactly when some response in the budget is. */
  lemma {:induction false} SucceedsIffLastOk(server: nat -> Response)
    ensures Succeeds(server) <==> server(RequestCount(server) - 1).status == StatusOk
  {
    var n := RequestCount(server);
    if Succeeds(server) {
      var i :| 0 <= i < MaxRequests && server(i).status == StatusOk;
      assert i >= n - 1;
    }
  }

  /** Four failures and then a 200: success after five requests (so four sleeps, by RetrieveHtml). */
  lemma FourFailuresThenOk(server: nat -> Response)
    requires forall j :: 0 <= j < 4 ==> server(j).status != StatusOk
    requires server(4).status == StatusOk
    ensures RequestCount(server) == 5 && Succeeds(server)
  {
    RequestCountIsFirstSuccess(server, 4);
  }

  /** Six failures: the budget is spent after six requests and the call fails. */
  lemma SixFailures(server: nat -> Response)
    requires forall j :: 0 <= j < MaxRequests ==> server(j).status != StatusOk
    ensures RequestCount(server) == MaxRequests && !Succeeds(server)
  {
  }

  /**
   * The retry loop. Returns the document (the body of the successful
   * response) or HtmlRetrievalError, with the number of requests made and
   * the number of sleeps taken.
   */
  method RetrieveHtml(server: nat -> Response) returns (r: Result<string>, requests: nat, sleeps: nat)
    ensures requests == RequestCount(server)
    ensures 1 <= requests <= MaxRequests
    ensures sleeps == requests - 1
    ensures forall j :: 0 <= j < requests - 1 ==> server(j).status != StatusOk
    ensures r.Ok? <==> server(requests - 1).status == StatusOk
    ensures r.Ok? <==> Succeeds(server)
    ensures r.Ok? ==> r.value == server(requests - 1).body
    ensures r.Err? ==> r.error == HtmlRetrievalError && requests == MaxRequests
    ensures server(0).status == StatusOk ==> r == Ok(server(0).body) && requests == 1 && sleeps == 0
  {
    var response := server(0);
    requests, sleeps := 1, 0;
    if response.status != StatusOk {
      for i := 0 to Retries
        invariant requests == i + 1 && sleeps == i
        invariant response == server(i)
        invariant forall j :: 0 <= j < requests ==> server(j).status != StatusOk
      {
        sleeps := sleeps + 1;
        response := server(requests);
        requests := requests + 1;
        if response.status == StatusOk {
          break;
        }
      }
    }
    if response.status == StatusOk {
      r := Ok(response.body);
    } else {
      r := Err(HtmlRetrievalError);
    }
  }
}
