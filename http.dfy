/**
 * The network as the model sees it: every request the program sends is appended to a log, and the
 * answer is a function of the request (the upstream is deterministic and never fails to answer).
 */
module Http {
  import opened Wrappers

  /** A GET request: the URL and the value of the `Authorization` header, if one is sent. */
  datatype Request = Request(url: string, authorization: Option<string>)

  /** `n` copies of the same request, in order. */
  function Repeat(req: Request, n: nat): (r: seq<Request>)
    ensures |r| == n && forall i :: 0 <= i < n ==> r[i] == req
  {
    if n == 0 then [] else Repeat(req, n - 1) + [req]
  }

  /** Appending to a log in two steps is appending the two parts at once. */
  lemma LogAppend(log: seq<Request>, a: seq<Request>, b: seq<Request>)
    ensures log + a + b == log + (a + b)
  {
  }

  /** The remote side: a log of the requests sent to it, in order. */
  class Server {
    var requested: seq<Request>

    constructor ()
      ensures requested == []
    {
      requested := [];
    }

    /** Sends `req`; the answer is `respond(req)`, and the request is logged. */
    method Send<T>(req: Request, respond: Request -> T) returns (r: T)
      modifies this
      ensures r == respond(req)
      ensures requested == old(requested) + [req]
    {
      r := respond(req);
      requested := requested + [req];
    }
  }
}
