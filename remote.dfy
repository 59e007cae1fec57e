/** The catalog client's request contract (`request` and `getHeaders` in
    src/pages/api/revalidate.ts). The network itself is not modelled: what a
    `fetch` produced for a URL is given as a `Reply`. */
module Remote {
  import opened Common

  /** What `fetch(url)` yields: no response at all, or a status with a body whose
      `response.json()` either resolves (`Some`, the decoded value) or rejects
      because the body is not valid JSON (`None`). The source never checks the
      shape of the decoded value; here it is taken to be a `T`. */
  datatype Reply<T> =
    | NoResponse
    | Response(status: int, text: string, json: Option<T>)

  /** Why a request was rejected; every variant names the URL it concerns. */
  datatype RequestError =
    | RequestFailed(url: string)
    | BadStatus(url: string, status: int, text: string)
    | InvalidJson(url: string)

  /** `response.ok`: a status in the 2xx range. */
  predicate IsOk(status: int) {
    200 <= status <= 299
  }

  /** `request`: a transport failure, a non-2xx status and an unparsable body are
      failures; otherwise the decoded body is the value. */
  function Request<T>(url: string, reply: Reply<T>): (r: Result<T, RequestError>)
    ensures r.Success? <==> reply.Response? && IsOk(reply.status) && reply.json.Some?
    ensures r.Success? ==> r.value == reply.json.value
    ensures r.Failure? ==> r.error.url == url
    ensures reply.Response? && !IsOk(reply.status) ==> r.error == BadStatus(url, reply.status, reply.text)
  {
    match reply
    case NoResponse => Failure(RequestFailed(url))
    case Response(status, text, json) =>
      if !IsOk(status) then Failure(BadStatus(url, status, text))
      else if json.None? then Failure(InvalidJson(url))
      else Success(json.value)
  }

  /** Looks up a header by name (the first with that name). */
  function HeaderValue(headers: seq<(string, string)>, name: string): Option<string>
  {
    if headers == [] then None
    else if headers[0].0 == name then Some(headers[0].1)
    else HeaderValue(headers[1..], name)
  }

  /** `getHeaders`: JSON accept and content type, plus the configured user agent and
      token, each defaulting to the empty string when not configured. */
  function Headers(userAgent: Option<string>, authorization: Option<string>): (h: seq<(string, string)>)
    ensures |h| == 4
    ensures forall i, j :: 0 <= i < j < |h| ==> h[i].0 != h[j].0
    ensures HeaderValue(h, "Accept") == Some("application/json")
    ensures HeaderValue(h, "Content-Type") == Some("application/json")
    ensures userAgent.Some? ==> HeaderValue(h, "User-Agent") == userAgent
    ensures userAgent.None? ==> HeaderValue(h, "User-Agent") == Some("")
    ensures authorization.Some? ==> HeaderValue(h, "Authorization") == authorization
    ensures authorization.None? ==> HeaderValue(h, "Authorization") == Some("")
  {
    var agent := if userAgent.Some? then userAgent.value else "";
    var token := if authorization.Some? then authorization.value else "";
    var h := [ ("Accept", "application/json"),
               ("Content-Type", "application/json"),
               ("User-Agent", agent),
               ("Authorization", token) ];
    assert HeaderValue(h, "User-Agent") == HeaderValue(h[1..], "User-Agent") == HeaderValue(h[1..][1..], "User-Agent");
    assert HeaderValue(h, "Authorization") == HeaderValue(h[1..], "Authorization")
      == HeaderValue(h[1..][1..], "Authorization") == HeaderValue(h[1..][1..][1..], "Authorization");
    h
  }
}
