/** The client's fetch helpers (src/lib/api.ts): default headers, the
    caller's headers merged over them, and the handling of a 401. */
module ApiClient {
  import opened Wrappers
  import Bearer

  type Headers = map<string, string>

  const JsonType: string := "application/json"
  const SessionExpired: string := "Session expired"

  /** `getAuthHeaders`: always a JSON content type, plus the bearer token when one is stored. */
  function DefaultHeaders(token: Option<string>): (h: Headers)
    ensures "Content-Type" in h && h["Content-Type"] == JsonType
    ensures "Authorization" in h <==> Bearer.HasToken(token)
    ensures Bearer.HasToken(token) ==> h["Authorization"] == Bearer.Credentials(token.value)
    ensures h.Keys <= {"Content-Type", "Authorization"}
  {
    var base := map["Content-Type" := JsonType];
    if Bearer.HasToken(token) then base["Authorization" := Bearer.Credentials(token.value)] else base
  }

  datatype Options = Options(verb: Option<string>, headers: Headers, body: Option<string>)

  datatype Request = Request(url: string, verb: Option<string>, headers: Headers, body: Option<string>)

  datatype Response = Response(status: int)

  /** What `fetch` does: a response, or a thrown error with its message. */
  datatype Fetched = Responded(response: Response) | FetchFailed(message: string)

  /** The helper's result: the response, or a thrown error. */
  datatype Outcome = Returned(response: Response) | Thrown(message: string)

  /** The request sent, the result, the stored token afterwards and whether the page reloads. */
  datatype Call = Call(request: Request, outcome: Outcome, token: Option<string>, reloads: bool)

  /** Shared handling of the reply: a 401 clears the token and throws. */
  function HandleReply(request: Request, token: Option<string>, fetched: Fetched): (c: Call)
    ensures c.request == request
    ensures fetched.Responded? && fetched.response.status == 401 ==>
              c.outcome == Thrown(SessionExpired) && c.token.None? && c.reloads
    ensures fetched.Responded? && fetched.response.status != 401 ==>
              c.outcome == Returned(fetched.response) && c.token == token && !c.reloads
    ensures fetched.FetchFailed? ==> c.outcome == Thrown(fetched.message) && c.token == token && !c.reloads
  {
    match fetched
    case Responded(resp) =>
      if resp.status == 401 then Call(request, Thrown(SessionExpired), None, true)
      else Call(request, Returned(resp), token, false)
    case FetchFailed(m) => Call(request, Thrown(m), token, false)
  }

  /** `apiCall`. */
  function ApiCall(url: string, options: Options, token: Option<string>, fetched: Fetched): (c: Call)
    // the caller's headers win over the defaults; defaults fill the rest
    ensures c.request.headers.Keys == DefaultHeaders(token).Keys + options.headers.Keys
    ensures forall k :: k in options.headers ==> c.request.headers[k] == options.headers[k]
    ensures forall k :: k in DefaultHeaders(token) && k !in options.headers ==>
              c.request.headers[k] == DefaultHeaders(token)[k]
    ensures c.request.url == url && c.request.verb == options.verb && c.request.body == options.body
    ensures c == HandleReply(c.request, token, fetched)
  {
    var request := Request(url, options.verb, DefaultHeaders(token) + options.headers, options.body);
    HandleReply(request, token, fetched)
  }

  /** `apiCallFormData`: always a POST, no content type, the token only when stored. */
  function ApiCallFormData(url: string, formBody: string, token: Option<string>, fetched: Fetched): (c: Call)
    ensures c.request.verb == Some("POST")
    ensures "Content-Type" !in c.request.headers
    ensures c.request.headers.Keys <= {"Authorization"}
    ensures "Authorization" in c.request.headers <==> Bearer.HasToken(token)
    ensures Bearer.HasToken(token) ==> c.request.headers["Authorization"] == Bearer.Credentials(token.value)
    ensures c == HandleReply(c.request, token, fetched)
  {
    var headers: Headers := if Bearer.HasToken(token) then map["Authorization" := Bearer.Credentials(token.value)] else map[];
    HandleReply(Request(url, Some("POST"), headers, Some(formBody)), token, fetched)
  }

  /** Both helpers treat a 401 the same way. */
  lemma UnauthorizedAlwaysExpires(url: string, options: Options, formBody: string, token: Option<string>)
    ensures var a := ApiCall(url, options, token, Responded(Response(401)));
            var b := ApiCallFormData(url, formBody, token, Responded(Response(401)));
            a.outcome == b.outcome == Thrown(SessionExpired) && a.token == b.token == None
  {
  }
}
