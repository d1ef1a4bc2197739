/** The part of `SxmClient.request` (aiosxm/client.py) that runs after the token
    check: the bearer header override, the transport call, raise_for_status, the
    wrapping of client errors and the decoding of the body by content type. The
    transport itself is an oracle: the k-th request sent receives `reply(k, request)`. */
module Http {
  import opened Common

  /** The `json=` argument of a request. */
  datatype Payload = NoPayload | DevicePayload | JsonPayload(json: Json)

  /** A request as it leaves the client. */
  datatype Outgoing = Outgoing(verb: string, url: string, headers: map<string, string>, payload: Payload)

  /** A response as the transport delivers it. The transport's own decoders are
      library code, so a response carries each view of its body already decoded. */
  datatype Response = Response(status: int, contentType: string, asJson: Json, asText: string, asBytes: seq<byte>)

  datatype Reply = Delivered(response: Response) | Failed(cause: Cause)

  /** The network and the clock: the reply to, and the time before, the k-th request. */
  datatype Server = Server(reply: (nat, Outgoing) -> Reply, clock: nat -> int)

  const Authorization := "Authorization"

  const TextContentTypes := ["text/html", "application/x-mpegurl", "application/vnd.apple.mpegurl"]

  /** The headers sent when a request is given a bearer: the token, when it is a
      non-empty string, replaces any Authorization the headers already had. */
  function Authorize(headers: map<string, string>, token: Option<string>): (r: map<string, string>)
    ensures token.Some? && token.value != [] ==>
      r.Keys == headers.Keys + {Authorization} && r[Authorization] == "Bearer " + token.value
    ensures forall k :: k in headers && k != Authorization ==> k in r && r[k] == headers[k]
    ensures token.None? || token.value == [] ==> r == headers
  {
    if token.Some? && token.value != [] then headers[Authorization := "Bearer " + token.value] else headers
  }

  /** The body of a successful response, decoded by its content type. */
  function Decode(resp: Response): Body
  {
    if resp.contentType == "application/json" then JsonBody(resp.asJson)
    else if resp.contentType in TextContentTypes then TextBody(resp.asText)
    else if resp.contentType == "audio/aac" then BytesBody(resp.asBytes)
    else BytesBody(resp.asBytes)
  }

  /** Which view of the body `Decode` picks for each content type. */
  lemma {:induction false} DecodeByContentType(resp: Response)
    ensures Decode(resp).JsonBody? <==> resp.contentType == "application/json"
    ensures Decode(resp).TextBody? <==> resp.contentType in TextContentTypes
    ensures Decode(resp).BytesBody? <==> resp.contentType != "application/json" && resp.contentType !in TextContentTypes
    ensures Decode(resp) in {JsonBody(resp.asJson), TextBody(resp.asText), BytesBody(resp.asBytes)}
  {
    assert "application/json" !in TextContentTypes;
  }

  /** What `request` makes of the transport's reply to a request for `url`. */
  function Receive(url: string, reply: Reply): (r: Result<Body, Error>)
    ensures r.Failure? <==> reply.Failed? || reply.response.status >= 400
    ensures reply.Failed? ==> r == Failure(RequestError(url, reply.cause))
    ensures reply.Delivered? && reply.response.status >= 400 ==>
      r == Failure(RequestError(url, BadStatus(reply.response.status)))
    ensures reply.Delivered? && reply.response.status < 400 ==> r == Success(Decode(reply.response))
  {
    match reply
    case Failed(cause) => Failure(RequestError(url, cause))
    case Delivered(resp) =>
      if resp.status >= 400 then Failure(RequestError(url, BadStatus(resp.status)))
      else Success(Decode(resp))
  }

  /** The URLs of a log of requests, in the order they were sent. */
  function Urls(log: seq<Outgoing>): (r: seq<string>)
    ensures |r| == |log|
  {
    if log == [] then [] else Urls(log[..|log| - 1]) + [log[|log| - 1].url]
  }

  /** The i-th URL is the URL of the i-th request. */
  lemma {:induction false} UrlsIndex(log: seq<Outgoing>)
    ensures forall i :: 0 <= i < |log| ==> Urls(log)[i] == log[i].url
    decreases |log|
  {
    if log != [] {
      UrlsIndex(log[..|log| - 1]);
    }
  }
}
