/**
 * What a call through the `requests` library can come back with. The network itself is
 * not modelled: each handler receives the outcome of its one request as an input.
 */
module Http {
  import opened Wrappers
  import opened PyText
  import opened PyValues

  /** The body of a response, as `response.json()` sees it. */
  datatype Body = JsonBody(value: Value) | NotJson(decodeError: string)

  /** Either `requests` raised before a response existed, or a response arrived. */
  datatype HttpOutcome =
    | Raised(message: string)
    | Response(status: int, reason: string, url: string, body: Body)

  /** `response.raise_for_status()`: raises for a 4xx or 5xx status, with requests' own wording. */
  function RaiseForStatus(status: int, reason: string, url: string): (r: Option<Exc>)
    ensures r.Some? <==> 400 <= status < 600
  {
    if 400 <= status < 500 then
      Some(HttpError(IntToString(status) + " Client Error: " + reason + " for url: " + url))
    else if 500 <= status < 600 then
      Some(HttpError(IntToString(status) + " Server Error: " + reason + " for url: " + url))
    else None
  }

  /** `response.json()`. */
  function DecodeJson(body: Body): (r: Result<Value, Exc>)
    ensures r.Ok? <==> body.JsonBody?
  {
    match body
    case JsonBody(v) => Ok(v)
    case NotJson(m) => Err(JsonDecodeError(m))
  }

  /**
   * `requests.get`/`post`, then `raise_for_status()`, then `json()`: the decoded body, or
   * the first exception on the way.
   */
  function CheckedJson(outcome: HttpOutcome): (r: Result<Value, Exc>)
    ensures outcome.Raised? ==> r == Err(HttpError(outcome.message))
    ensures outcome.Response? && 400 <= outcome.status < 600 ==> r.Err? && r.error.HttpError?
    ensures outcome.Response? && !(400 <= outcome.status < 600) ==> r == DecodeJson(outcome.body)
  {
    match outcome
    case Raised(m) => Err(HttpError(m))
    case Response(status, reason, url, body) =>
      match RaiseForStatus(status, reason, url)
      case Some(e) => Err(e)
      case None => DecodeJson(body)
  }
}
