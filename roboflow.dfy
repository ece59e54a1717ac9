/** The inference client: download an image, post it base64-encoded to the
    detection service, and classify what can go wrong.

    The HTTP transport is abstract. A `Network` says, for every request the
    client attempts, what came of it (`HttpOutcome`), and whether the caller's
    context was cancelled before the download finished. JSON decoding of the
    service's answer is the `parse` oracle. Every pipeline returns the
    requests it attempted together with its result, so that "this step was
    never reached" is a statement about the requests. */
module Roboflow {
  import opened Wrappers
  import opened Bytes
  import opened Domain
  import Base64
  import Decimal

  const DefaultTimeoutSeconds: nat := 30
  const StatusOK: int := 200
  const InferenceEndpoint: string := "https://detect.roboflow.com/"
  const ApiKeyQuery: string := "?api_key="
  const FormContentType: string := "application/x-www-form-urlencoded"

  /** The contexts `fmt.Errorf("<context>: %w", err)` adds. */
  const DownloadContext: string := "failed to download image"
  const InferenceContext: string := "roboflow inference failed"
  const CreateRequestContext: string := "failed to create request"
  const RequestFailedContext: string := "request to roboflow failed"
  const ReadBodyContext: string := "failed to read response body"
  const DecodeResponseContext: string := "failed to decode roboflow response"

  /** Static configuration; the HTTP client's timeout is carried but not modelled. */
  datatype Client = Client(apiKey: string, model: string, timeoutSeconds: nat)

  function NewClient(apiKey: string, model: string): Client
  {
    Client(apiKey, model, DefaultTimeoutSeconds)
  }

  datatype Method = Get | Post

  datatype Request = Request(verb: Method, url: string, contentType: Option<string>, body: string)

  /** What one request came to. */
  datatype HttpOutcome =
    | RequestRejected                                    // http.NewRequestWithContext returned an error
    | TransportError                                     // httpClient.Do returned an error: no response
    | Response(status: int, bodyReadOk: bool, body: seq<byte>)  // a response; whether io.ReadAll succeeded

  /** The outside world during one Detect call. `cancelledFirst`: the context's
      Done channel won the race against the download goroutine. */
  datatype Network = Network(cancelledFirst: bool, exchange: Request -> HttpOutcome)

  /** The errors the client returns. Library errors are opaque apart from their origin. */
  datatype Error =
    | ContextCanceled                         // ctx.Err() of a cancelled context
    | RequestInvalid                          // from http.NewRequestWithContext
    | TransportFailed                         // from httpClient.Do
    | BodyReadFailed                          // from io.ReadAll
    | DecodeFailed                            // from json.Unmarshal
    | DownloadStatus(status: int)             // "unexpected status %d when downloading image"
    | APIError(statusCode: int, body: string) // *APIError
    | Wrapped(context: string, inner: Error)  // fmt.Errorf("<context>: %w", inner)

  datatype Run<T> = Run(requests: seq<Request>, result: Result<T, Error>)

  /** `errors.As(err, &apiErr)`: the first `*APIError` on the chain of wrapped errors. */
  function AsAPIError(e: Error): (r: Option<Error>)
    ensures r.Some? ==> r.value.APIError?
    ensures e.APIError? ==> r == Some(e)
    ensures !e.APIError? && !e.Wrapped? ==> r == None
  {
    match e
    case APIError(_, _) => Some(e)
    case Wrapped(_, inner) => AsAPIError(inner)
    case _ => None
  }

  // ----- APIError.Error -----

  const APIErrorPrefix: string := "roboflow returned status "

  /** `(*APIError).Error()`: "roboflow returned status <code>: <body>". */
  function APIErrorText(e: Error): (t: string)
    requires e.APIError?
    ensures APIErrorPrefix <= t
    ensures |t| >= |e.body| && t[|t| - |e.body|..] == e.body
  {
    APIErrorPrefix + Decimal.FormatInt(e.statusCode) + ": " + e.body
  }

  /** The position of the first `c` in `s`, or `|s|` if there is none. */
  function IndexOf(s: string, c: char): (k: nat)
    ensures k <= |s|
    ensures forall i :: 0 <= i < k ==> s[i] != c
    ensures k < |s| ==> s[k] == c
  {
    if s == [] then 0 else if s[0] == c then 0 else 1 + IndexOf(s[1..], c)
  }

  /** Recovers status code and body from an APIError message. */
  function ParseAPIErrorText(t: string): Option<(int, string)>
  {
    if !(APIErrorPrefix <= t) then None
    else
      var rest := t[|APIErrorPrefix|..];
      var k := IndexOf(rest, ':');
      var digits := rest[..k];
      if k + 1 < |rest| && rest[k + 1] == ' '
         && forall i :: 0 <= i < |digits| ==> Decimal.IsDigit(digits[i]) || digits[i] == '-'
      then Some((Decimal.ParseInt(digits), rest[k + 2..]))
      else None
  }

  /** The message names the status code and carries the whole body: both
      can be read back from it, whatever the body contains. */
  lemma APIErrorTextRoundTrip(code: int, body: string)
    ensures ParseAPIErrorText(APIErrorText(APIError(code, body))) == Some((code, body))
  {
    var num := Decimal.FormatInt(code);
    var t := APIErrorText(APIError(code, body));
    var rest := t[|APIErrorPrefix|..];
    assert rest == num + ": " + body;
    assert forall i :: 0 <= i < |num| ==> rest[i] == num[i] && rest[i] != ':';
    assert rest[|num|] == ':';
    assert IndexOf(rest, ':') == |num|;
    assert rest[..|num|] == num;
    assert rest[|num| + 2..] == body;
    Decimal.FormatIntRoundTrip(code);
  }

  // ----- downloadImage -----

  function DownloadRequest(imageURL: string): Request
  {
    Request(Get, imageURL, None, "")
  }

  /** `downloadImage`. The GET is always attempted (by the goroutine); if the
      context wins the race its outcome is discarded. Only status 200 is
      accepted, and the body is read only after the status check. */
  function Download(net: Network, imageURL: string): Run<seq<byte>>
  {
    var get := DownloadRequest(imageURL);
    var result :=
      if net.cancelledFirst then Failure(ContextCanceled)
      else match net.exchange(get)
        case RequestRejected => Failure(RequestInvalid)
        case TransportError => Failure(TransportFailed)
        case Response(status, readOk, body) =>
          if status != StatusOK then Failure(DownloadStatus(status))
          else if !readOk then Failure(BodyReadFailed)
          else Success(body);
    Run([get], result)
  }

  /** The download yields data exactly when the context did not win the race
      and the GET was answered with status 200 and a fully read body; the data
      is that body. */
  lemma DownloadSucceedsIff(net: Network, imageURL: string, data: seq<byte>)
    ensures Download(net, imageURL).requests == [DownloadRequest(imageURL)]
    ensures Download(net, imageURL).result == Success(data)
        <==> !net.cancelledFirst && net.exchange(DownloadRequest(imageURL)) == Response(StatusOK, true, data)
  {
  }

  /** Any status but exactly 200 (201 or 204 included) is an error naming the
      status, and no data; the body is then not read, so a failing read cannot mask it. */
  lemma DownloadRejectsNon200(net: Network, imageURL: string, status: int, readOk: bool, body: seq<byte>)
    requires !net.cancelledFirst
    requires net.exchange(DownloadRequest(imageURL)) == Response(status, readOk, body)
    requires status != StatusOK
    ensures Download(net, imageURL).result == Failure(DownloadStatus(status))
  {
  }

  /** When the context wins the race the result is the cancellation error,
      whatever the download would have produced. */
  lemma CancellationWinsRace(net: Network, imageURL: string)
    requires net.cancelledFirst
    ensures Download(net, imageURL).result == Failure(ContextCanceled)
    ensures Download(net, imageURL).result == Download(net.(exchange := _ => Response(StatusOK, true, [])), imageURL).result
  {
  }

  // ----- infer -----

  /** The URL built with `fmt.Sprintf`: model and key are inserted verbatim. */
  function InferenceURL(c: Client): (u: string)
    ensures InferenceEndpoint <= u
    ensures |u| >= |c.apiKey| && u[|u| - |c.apiKey|..] == c.apiKey
  {
    InferenceEndpoint + c.model + ApiKeyQuery + c.apiKey
  }

  /** The POST request: the whole body is the base64 text of the image. */
  function InferenceRequest(c: Client, imageBytes: seq<byte>): (r: Request)
    ensures r.verb == Post && r.url == InferenceURL(c)
    ensures r.contentType == Some(FormContentType)
    ensures Base64.Decode(r.body) == Some(imageBytes)
  {
    Base64.DecodeEncode(imageBytes);
    Request(Post, InferenceURL(c), Some(FormContentType), Base64.Encode(imageBytes))
  }

  /** A model name free of `?` ends where the key query begins. */
  lemma SplitAtQuery(m: string, k: string)
    requires '?' !in m
    ensures var r := m + ApiKeyQuery + k;
      IndexOf(r, '?') == |m| && r[..|m|] == m && r[|m| + |ApiKeyQuery|..] == k
  {
    var r := m + ApiKeyQuery + k;
    assert forall i :: 0 <= i < |m| ==> r[i] == m[i];
    assert r[|m|] == '?';
  }

  lemma CancelPrefix(p: string, x: string, y: string)
    requires p + x == p + y
    ensures x == y
  {
    assert x == (p + x)[|p|..];
    assert y == (p + y)[|p|..];
  }

  /** The text after the endpoint determines model and key. */
  lemma QueryTailInjective(m1: string, k1: string, m2: string, k2: string)
    requires '?' !in m1 && '?' !in m2
    requires m1 + ApiKeyQuery + k1 == m2 + ApiKeyQuery + k2
    ensures m1 == m2 && k1 == k2
  {
    SplitAtQuery(m1, k1);
    SplitAtQuery(m2, k2);
  }

  /** With a model name free of `?`, the URL determines both the model and the key. */
  lemma InferenceURLInjective(c: Client, d: Client)
    requires '?' !in c.model && '?' !in d.model
    requires InferenceURL(c) == InferenceURL(d)
    ensures c.model == d.model && c.apiKey == d.apiKey
  {
    var rc := c.model + ApiKeyQuery + c.apiKey;
    var rd := d.model + ApiKeyQuery + d.apiKey;
    assert InferenceURL(c) == InferenceEndpoint + rc;
    assert InferenceURL(d) == InferenceEndpoint + rd;
    CancelPrefix(InferenceEndpoint, rc, rd);
    QueryTailInjective(c.model, c.apiKey, d.model, d.apiKey);
  }

  /** Nothing is escaped: a `?` in the model name lets two configurations share one URL. */
  lemma InferenceURLNotEscaped()
    ensures var c, d := NewClient("k", "m?api_key=x"), NewClient("x?api_key=k", "m");
      c != d && InferenceURL(c) == InferenceURL(d)
  {
  }

  /** `infer`. The body is read before the status is looked at. */
  function Infer(c: Client, net: Network, parse: seq<byte> -> Option<RoboflowResponse>, imageBytes: seq<byte>): Run<RoboflowResponse>
  {
    var post := InferenceRequest(c, imageBytes);
    var result :=
      match net.exchange(post)
      case RequestRejected => Failure(Wrapped(CreateRequestContext, RequestInvalid))
      case TransportError => Failure(Wrapped(RequestFailedContext, TransportFailed))
      case Response(status, readOk, body) =>
        if !readOk then Failure(Wrapped(ReadBodyContext, BodyReadFailed))
        else if status != StatusOK then Failure(APIError(status, BytesToString(body)))
        else match parse(body)
          case None => Failure(Wrapped(DecodeResponseContext, DecodeFailed))
          case Some(resp) => Success(resp);
    Run([post], result)
  }

  /** A POST that fails in transport is a wrapped error that `errors.As` does not take for an APIError. */
  lemma InferTransportErrorIsNotAPIError(c: Client, net: Network, parse: seq<byte> -> Option<RoboflowResponse>, data: seq<byte>)
    requires net.exchange(InferenceRequest(c, data)) == TransportError
    ensures Infer(c, net, parse, data).result == Failure(Wrapped(RequestFailedContext, TransportFailed))
    ensures AsAPIError(Infer(c, net, parse, data).result.error) == None
  {
  }

  /** A body that cannot be read is reported as such, whatever the status. */
  lemma InferReadFailureFirst(c: Client, net: Network, parse: seq<byte> -> Option<RoboflowResponse>, data: seq<byte>,
                              status: int, body: seq<byte>)
    requires net.exchange(InferenceRequest(c, data)) == Response(status, false, body)
    ensures Infer(c, net, parse, data).result == Failure(Wrapped(ReadBodyContext, BodyReadFailed))
    ensures AsAPIError(Infer(c, net, parse, data).result.error) == None
  {
  }

  /** A fully read answer with any status but 200 is an APIError holding that
      status and exactly the bytes read. */
  lemma InferNon200IsAPIError(c: Client, net: Network, parse: seq<byte> -> Option<RoboflowResponse>, data: seq<byte>,
                              status: int, body: seq<byte>)
    requires net.exchange(InferenceRequest(c, data)) == Response(status, true, body)
    requires status != StatusOK
    ensures Infer(c, net, parse, data).result.Failure?
    ensures var e := Infer(c, net, parse, data).result.error;
      e.APIError? && e.statusCode == status && IsByteString(e.body) && StringToBytes(e.body) == body
  {
    BytesStringRoundTrip(body);
  }

  /** A 200 answer gives the parsed response if it decodes, and a decode error otherwise. */
  lemma InferOkDecodes(c: Client, net: Network, parse: seq<byte> -> Option<RoboflowResponse>, data: seq<byte>, body: seq<byte>)
    requires net.exchange(InferenceRequest(c, data)) == Response(StatusOK, true, body)
    ensures parse(body).Some? ==> Infer(c, net, parse, data).result == Success(parse(body).value)
    ensures parse(body).None? ==> Infer(c, net, parse, data).result == Failure(Wrapped(DecodeResponseContext, DecodeFailed))
  {
  }

  // ----- Detect -----

  /** `Detect`: download, then infer; each step's error is wrapped with its context. */
  function Detect(c: Client, net: Network, parse: seq<byte> -> Option<RoboflowResponse>, imageURL: string): Run<RoboflowResponse>
  {
    var d := Download(net, imageURL);
    match d.result
    case Failure(e) => Run(d.requests, Failure(Wrapped(DownloadContext, e)))
    case Success(data) =>
      var i := Infer(c, net, parse, data);
      Run(d.requests + i.requests,
          match i.result
          case Failure(e) => Failure(Wrapped(InferenceContext, e))
          case Success(resp) => Success(resp))
  }

  /** A failed download ends the call: its error comes back wrapped, and no POST is attempted. */
  lemma DetectStopsAfterDownloadFailure(c: Client, net: Network, parse: seq<byte> -> Option<RoboflowResponse>, imageURL: string)
    requires Download(net, imageURL).result.Failure?
    ensures Detect(c, net, parse, imageURL).result == Failure(Wrapped(DownloadContext, Download(net, imageURL).result.error))
    ensures forall r :: r in Detect(c, net, parse, imageURL).requests ==> r.verb == Get
    ensures AsAPIError(Detect(c, net, parse, imageURL).result.error) == None
  {
  }

  /** After a successful download exactly one POST follows the GET: to the
      inference URL, form content type, the base64 text of the downloaded bytes. */
  lemma DetectPostsDownloadedImage(c: Client, net: Network, parse: seq<byte> -> Option<RoboflowResponse>, imageURL: string)
    requires Download(net, imageURL).result.Success?
    ensures var data := Download(net, imageURL).result.value;
      Detect(c, net, parse, imageURL).requests == [DownloadRequest(imageURL), InferenceRequest(c, data)]
  {
  }

  /** `errors.As` finds an APIError in Detect's error exactly when the image was
      downloaded and the service's answer was read in full with a status other
      than 200; the APIError then holds that status and body. */
  lemma DetectAPIErrorIff(c: Client, net: Network, parse: seq<byte> -> Option<RoboflowResponse>, imageURL: string,
                          status: int, body: seq<byte>)
    ensures (Detect(c, net, parse, imageURL).result.Failure?
             && AsAPIError(Detect(c, net, parse, imageURL).result.error) == Some(APIError(status, BytesToString(body))))
        <==> (exists data :: Download(net, imageURL).result == Success(data)
                && net.exchange(InferenceRequest(c, data)) == Response(status, true, body)
                && status != StatusOK)
  {
    var d := Download(net, imageURL);
    var r := Detect(c, net, parse, imageURL);
    if d.result.Success? {
      var data := d.result.value;
      var o := net.exchange(InferenceRequest(c, data));
      if r.result.Failure? && AsAPIError(r.result.error) == Some(APIError(status, BytesToString(body))) {
        assert o.Response? && o.bodyReadOk && o.status != StatusOK;
        assert BytesToString(o.body) == BytesToString(body);
        BytesStringRoundTrip(o.body);
        BytesStringRoundTrip(body);
        assert o == Response(status, true, body);
      }
    }
  }

  /** Detect succeeds exactly when both requests succeed and the answer decodes; the result is the decoded answer. */
  lemma DetectSucceedsIff(c: Client, net: Network, parse: seq<byte> -> Option<RoboflowResponse>, imageURL: string,
                          resp: RoboflowResponse)
    ensures Detect(c, net, parse, imageURL).result == Success(resp)
        <==> (exists data, body :: Download(net, imageURL).result == Success(data)
                && net.exchange(InferenceRequest(c, data)) == Response(StatusOK, true, body)
                && parse(body) == Some(resp))
  {
    var d := Download(net, imageURL);
    if d.result.Success? && Detect(c, net, parse, imageURL).result == Success(resp) {
      var data := d.result.value;
      var o := net.exchange(InferenceRequest(c, data));
      assert o.Response? && o.bodyReadOk && o.status == StatusOK && parse(o.body) == Some(resp);
    }
  }
}
