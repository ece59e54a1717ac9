# govision worker: a verified model of the job consumer

This project models the core of the govision worker. The worker consumes
detection jobs from a RabbitMQ queue, downloads each job's image, and posts it
to the Roboflow detection service. It then acknowledges or rejects the
delivery according to the outcome. The model has two parts.

- **The dispatcher** (`worker/internal/worker/worker.go`). The class
  `Worker.Worker` keeps every delivery received, with its terminal state
  (`Pending`, `Acked`, `NackedDiscard`, `NackedRequeue`). It also keeps the
  terminal operations invoked (`msg.Ack(false)`, `msg.Nack(false, requeue)`)
  and the URLs of the Detect calls made.
  - `HandleMessage` decodes one delivery, calls Detect, and settles the delivery.
  - `ProcessMessages` is the `for`/`select` loop, with its two stop conditions.
  - Both methods are proved against pure functions: `Handle` and `Handled`
    decide what happens to each delivery, and `Step` and `Run` describe the
    worker's record (`Log`).
  - JSON decoding of a delivery is an oracle (`decode`). So is the inference
    call (`detect`), whose first argument numbers the calls.
- **The inference client** (`worker/internal/services/roboflow/roboflow.go`).
  `Download`, `Infer` and `Detect` are functions over abstract HTTP outcomes.
  - Each request the client attempts is answered by a `Network` oracle with
    `RequestRejected`, `TransportError` or `Response(status, bodyReadOk, body)`.
  - `cancelledFirst` says that the context's Done channel won the race
    against the download goroutine.
  - Each function returns the requests it attempted together with its result.
    So "infer is never reached" is a statement about the requests.
  - The error values follow Go's wrapping. `Wrapped(context, inner)` is
    `fmt.Errorf("<context>: %w", inner)`. `AsAPIError` is `errors.As` for
    `*APIError`.
  - The request body is the standard base64 encoding of section 4 of RFC 4648,
    implemented in `Base64` and proved decodable. The `%d` formatting in
    `APIError.Error` is implemented in `Decimal`.

Where the code and a looser reading of the system's intent differ, the model
follows the code:

- The download accepts status 200 exactly, not any 2xx status. The same holds
  for the inference answer.
- If the context is cancelled while a job is being handled, the delivery is
  still settled. Detect returns the cancellation error, and the delivery is
  nacked with requeue (`Worker.ClientFailuresRequeue`). It is not left
  unsettled.
- Every Detect error is requeued. This includes `*APIError`, which the type's
  doc comment calls non-retryable (`Worker.DetectOutcomeDecides`). The model
  keeps this behaviour.
- `json.Unmarshal` into the job type does not fail when fields are missing.
  The `decode` oracle is left free, so the model does not claim that it fails.
- Go's `select` picks at random when the context is done and a delivery is
  ready at the same time. The model's `inbox` input records which case was
  taken at each turn.

## Model

| member | source | states |
|---|---|---|
| Bytes.BytesToString | worker/internal/services/roboflow/roboflow.go:133 | `string(respBytes)` keeps every byte, in order |
| Bytes.BytesStringRoundTrip | worker/internal/services/roboflow/roboflow.go:133 | converting the body read to a string loses nothing: `[]byte(string(b)) == b` |
| Base64.Encode | worker/internal/services/roboflow/roboflow.go:105 | the encoding has 4⌈n/3⌉ characters, all from the RFC 4648 alphabet or `=` |
| Base64.DecodeEncode | worker/internal/services/roboflow/roboflow.go:105 | decoding the encoded image gives back exactly the downloaded bytes |
| Base64.EncodeInjective | worker/internal/services/roboflow/roboflow.go:105 | two different images never produce the same request body |
| Decimal.FormatInt | worker/internal/services/roboflow/roboflow.go:26 | `%d` output is non-empty and made only of digits and `-` |
| Decimal.FormatIntRoundTrip | worker/internal/services/roboflow/roboflow.go:26 | the printed status code reads back as the status code |
| Roboflow.AsAPIError | worker/internal/services/roboflow/roboflow.go:19-23 | `errors.As` finds an `*APIError` through the `%w` wraps; other leaf errors are not APIErrors |
| Roboflow.APIErrorText | worker/internal/services/roboflow/roboflow.go:25-27 | the message starts "roboflow returned status " and ends with the whole body |
| Roboflow.APIErrorTextRoundTrip | worker/internal/services/roboflow/roboflow.go:25-27 | status code and body can both be recovered from the message, whatever the body contains |
| Roboflow.DownloadSucceedsIff | worker/internal/services/roboflow/roboflow.go:64-100 | the GET is the only request; data comes back iff the context did not win the race and the answer was 200 with a fully read body, and the data is that body |
| Roboflow.DownloadRejectsNon200 | worker/internal/services/roboflow/roboflow.go:86-89 | any status other than exactly 200 (other 2xx included) is an error naming that status, and it is reported even if the body could not be read |
| Roboflow.CancellationWinsRace | worker/internal/services/roboflow/roboflow.go:95-97 | once the context wins the race the result is the cancellation error, even if the download would have succeeded |
| Roboflow.InferenceURL | worker/internal/services/roboflow/roboflow.go:107-111 | the URL starts with the detection endpoint and ends with the API key, as given |
| Roboflow.InferenceRequest | worker/internal/services/roboflow/roboflow.go:105-119 | a POST to the inference URL with content type `application/x-www-form-urlencoded` whose whole body decodes to the image bytes |
| Roboflow.InferenceURLInjective | worker/internal/services/roboflow/roboflow.go:107-111 | when the model name has no `?`, the URL determines both the model and the key |
| Roboflow.InferenceURLNotEscaped | worker/internal/services/roboflow/roboflow.go:107-111 | nothing is escaped: two different configurations can produce the same URL |
| Roboflow.InferTransportErrorIsNotAPIError | worker/internal/services/roboflow/roboflow.go:121-124 | a POST transport failure is the "request to roboflow failed" wrap, and `errors.As` does not see an APIError in it |
| Roboflow.InferReadFailureFirst | worker/internal/services/roboflow/roboflow.go:127-134 | a failed body read is reported as such whatever the status, before any status check |
| Roboflow.InferNon200IsAPIError | worker/internal/services/roboflow/roboflow.go:132-134 | a fully read non-200 answer is an APIError with that status and exactly the bytes read |
| Roboflow.InferOkDecodes | worker/internal/services/roboflow/roboflow.go:136-141 | a 200 answer gives the decoded response, or the decode error if it does not parse |
| Roboflow.DetectStopsAfterDownloadFailure | worker/internal/services/roboflow/roboflow.go:48-51 | a failed download comes back wrapped, only GET requests were made (infer never ran), and there is no APIError in it |
| Roboflow.DetectPostsDownloadedImage | worker/internal/services/roboflow/roboflow.go:48-58 | after a successful download exactly one POST follows the GET, and it carries the downloaded bytes |
| Roboflow.DetectAPIErrorIff | worker/internal/services/roboflow/roboflow.go:45-62 | Detect's error holds an APIError(status, body) iff the download succeeded and the inference answer was read in full with that non-200 status and body |
| Roboflow.DetectSucceedsIff | worker/internal/services/roboflow/roboflow.go:45-62 | Detect returns a response iff the download succeeded, the inference answered 200 with a readable body, and that body decodes to the response |
| Worker.Effect | worker/internal/worker/worker.go:50-66 | every terminal operation leaves its delivery settled (never pending) |
| Worker.OpFor | worker/internal/worker/worker.go:50-66 | for each settlement there is an operation on that delivery that produces it |
| Worker.Handled | worker/internal/worker/worker.go:29-43 | handling a sequence of deliveries gives one outcome per delivery, and none of them leaves its delivery pending |
| Worker.HandledAt | worker/internal/worker/worker.go:29-43 | the i-th delivery is handled as handleMessage decides, and its Detect call comes after those of the earlier deliveries |
| Worker.DecodeFailureDiscards | worker/internal/worker/worker.go:47-52 | a delivery that fails to decode is nacked without requeue, and Detect is not called for it |
| Worker.DetectOutcomeDecides | worker/internal/worker/worker.go:56-66 | a decoded delivery has Detect called with its ImageURL; it is acked iff Detect succeeds and nacked with requeue iff Detect fails, APIError included; it is never discarded |
| Worker.DetectCallsAreDecodedURLs | worker/internal/worker/worker.go:47-56 | the Detect calls are exactly the image URLs of the deliveries that decode, in arrival order |
| Worker.Ops | worker/internal/worker/worker.go:46-67 | the terminal operations name deliveries in delivery order, one each, with the settlement the handling chose |
| Worker.ExactlyOneOpEach | worker/internal/worker/worker.go:46-67 | when there is one operation per delivery in order, each delivery is named by exactly one operation and no other delivery by any |
| Worker.QuiescentSettlesEachOnce | worker/internal/worker/worker.go:46-67 | between deliveries, each received delivery has had exactly one terminal operation, and its state records it |
| Worker.Step | worker/internal/worker/worker.go:35-41 | receiving and handling one delivery keeps the record consistent: one operation per delivery, in order |
| Worker.RunIsHandled | worker/internal/worker/worker.go:28-44 | the loop appends the deliveries settled as handleMessage decides, their operations in delivery order, and the Detect calls |
| Worker.StopIndex | worker/internal/worker/worker.go:29-43 | the loop stops at the first cancellation or channel close, and everything before it is a delivery |
| Worker.Received | worker/internal/worker/worker.go:35-41 | the deliveries handled are exactly those taken before the loop stops, in the order received |
| Worker.FinalState | worker/internal/worker/worker.go:30-39 | the loop is stopped by context cancellation iff that is the first non-delivery case, stopped by channel close iff that is, and still waiting iff neither happened |
| Worker.SignalsAfterStopIgnored | worker/internal/worker/worker.go:30-39 | nothing after a cancellation or a close is ever received or handled |
| Worker.ClientFailuresRequeue | worker/internal/worker/worker.go:56-60 | with the real client, cancellation during the download, a non-200 image, or a non-200 inference answer gets the delivery nacked with requeue, not left unsettled |
| Worker.Worker.constructor | worker/internal/worker/worker.go:20-23 | a new worker has received and settled nothing |
| Worker.Worker.Ack | worker/internal/worker/worker.go:66 | `msg.Ack(false)` marks the delivery acked and records exactly one operation |
| Worker.Worker.Nack | worker/internal/worker/worker.go:50-59 | `msg.Nack(false, requeue)` marks the delivery discarded or requeued and records exactly one operation |
| Worker.Worker.HandleMessage | worker/internal/worker/worker.go:46-67 | exactly one terminal operation on the delivery being handled, as `Handle` decides; Detect is recorded only when decoding succeeded |
| Worker.Worker.Receive | worker/internal/worker/worker.go:35-41 | one turn of the loop: the worker's record advances by one `Step` |
| Worker.Worker.ProcessMessages | worker/internal/worker/worker.go:28-44 | the final state is the stop condition met; deliveries, operations and Detect calls are those of `Run` over the deliveries received before it |

## Left out

- The HTTP transport is abstract. `http.Client`, its 30-second timeout (kept
  only as a field of `Client`) and `io.ReadAll` are replaced by the `Network`
  oracle's outcomes. No timing is modelled.
- Concurrency is not modelled. The download goroutine is abandoned when the
  context wins the race, and it is not represented. Only its GET request is
  recorded, because it is always attempted.
- Cancellation inside `http.NewRequestWithContext` and `httpClient.Do` is not
  tied to `cancelledFirst`. It shows up only as whatever outcome the network
  oracle gives.
- The JSON decoding done by `json.Unmarshal` is an oracle parameter: `decode`
  for jobs, `parse` for the inference answer. The detection result is passed
  through uninterpreted.
- `json.MarshalIndent` is not modelled. Its output goes only to a log line.
- The text of errors other than `APIError` is not modelled. This covers the
  library errors and the `fmt.Errorf` messages, which serve only for logging.
  Their structure (which wrap around which error) is modelled.
- Logging is not modelled, because it has no effect on behaviour.
- The error results of `msg.Ack` and `msg.Nack` are ignored by the code
  (`_ =`). The model records each call and ignores its result in the same way.
  The `multiple` argument is always false and is not a parameter.
- `worker.New` stores the Roboflow client. The model's constructor stores the
  `detect` oracle instead, and `Worker.ClientDetector` builds that oracle from
  `Roboflow.Detect`.
- An inbox that runs out with no cancellation or close leaves the loop
  blocked in `select`. `ProcessMessages` then returns `Running`.
- `worker/cmd/main.go` is not modelled: environment variables, the RabbitMQ
  connection and signal wiring.
- The API service is not modelled: `api/cmd/server.go`,
  `api/internal/routes/routes.go`, `api/internal/modules/file/handler.go`,
  `api/internal/modules/file/service.go` and
  `api/services/storage/getImageUrl.go`. These are HTTP glue and calls to
  collaborators whose code is not available.
- The `domain` package, the RabbitMQ consumer package and `amqp.Delivery` are
  not part of this model. Only the fields the core reads are modelled.
