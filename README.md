# Echo handler model

A Dafny model of the echo endpoint of a small Go HTTP service (`pkg/server/echo.go`).
The handler decodes the request body into a `map[string]interface{}` and then does one of three things:

- if decoding fails, it replies 500 with `{"error":"could not parse request payload"}`;
- if the top-level field `"echoed"` is the boolean `true`, it replies 400 with `{"error":"request already had 'echoed: true'"}`;
- otherwise it sets `"echoed"` to `true` in the decoded map and replies 200 with the whole map.

Files:

- `json.dfy`, module `Json`: the decoded JSON value (`JNull | JBool | JNum | JStr | JArr | JObj`). A number is an opaque stand-in for the decoded `float64` value.
- `wrappers.dfy`, module `Wrappers`: `Option`.
- `echo.dfy`, module `Server`: the two error envelopes and the handler.
  - `Process` is the handler's decision table as a function.
  - `EchoHandler` is a method that follows the Go code step by step. It does the comma-ok lookup, the `bool` type assertion, the early return, and the store into the map. It is proved equal to `Process`.
  - The lemmas state the per-branch behaviour, the frame on the 200 path, and what happens when a client sends a reply body back as a new request.

Decoding appears only through its outcome, `DecodeResult = DecodeError | DecodeOk(GoMap)`.
A Go map variable is `GoMap = Nil | Entries(map)`.
`null` is the one non-object body that does not get 500: it decodes without error into a nil map, and the store at line 58 panics.
The model gives that request the outcome `Panic` and no reply (`Server.EveryPathReplies`).

## Model

| member | source | states |
|---|---|---|
| `Server.EnvelopeLiterals` | pkg/server/echo.go:11-18 | the two envelopes marshal to exactly `{"error":"could not parse request payload"}` and `{"error":"request already had 'echoed: true'"}` |
| `Server.Process` | pkg/server/echo.go:37-59 | a nil map panics and nothing else does; every reply has code 200, 400 or 500 and an object body; 500 exactly on a decode error, with the parse-error envelope; 400 exactly when "echoed" is the boolean true, with the already-echoed envelope; 200 only with the input map, "echoed" forced to true and every other key unchanged |
| `Server.Store` | pkg/server/echo.go:58 | storing into a nil map panics; otherwise the key set gains the key, the key maps to the new value and every other key keeps its value |
| `Server.EchoHandler` | pkg/server/echo.go:34-60 | the step-by-step handler (decode check, lookup, type assertion, early 400, store, 200) gives exactly the outcome of the decision table `Process` |
| `Server.DecodeErrorReplies500` | pkg/server/echo.go:38-40 | a decode error gives status 500 and exactly `{"error":"could not parse request payload"}` |
| `Server.EchoedTrueRejected` | pkg/server/echo.go:46-53 | "echoed": true gives 400 and exactly `{"error":"request already had 'echoed: true'"}`; no request key other than "error" is in the reply |
| `Server.EchoedAbsentAdded` | pkg/server/echo.go:46-59 | without "echoed" the reply is 200 with the input plus "echoed": true, one key more than the input |
| `Server.EchoedFalseOverwritten` | pkg/server/echo.go:48-59 | "echoed": false is overwritten to true, the reply is 200 and has as many keys as the input |
| `Server.EchoedNonBoolOverwritten` | pkg/server/echo.go:48-59 | a non-boolean "echoed" fails the `bool` assertion, is replaced by the boolean true, and the reply is 200 |
| `Server.OtherKeysUntouched` | pkg/server/echo.go:58-59 | on the 200 path the reply's keys are the input's keys plus "echoed", "echoed" is true, and every other key keeps its value |
| `Server.EveryPathReplies` | pkg/server/echo.go:37-59 | every request other than a `null` body ends in one reply with code 200, 400 or 500; a `null` body panics |
| `Server.Resubmit` | pkg/server/echo.go:21 | a definition that carries the assumed round trip of `json.Marshal` (line 21) followed by `Decode` (line 38) for a reply body sent back: an object gives the same map, `null` gives a nil map, anything else gives a decode error |
| `Server.SafeOnce` | pkg/server/echo.go:46-59 | sending back the body of a 200 reply gives 400 with the already-echoed envelope, so the handler is not idempotent |
| `Server.ResubmissionAlternates` | pkg/server/echo.go:46-59 | for n chained requests from any decoded object, each after the first sending back the previous reply's body (n-1 send-backs), every request gets a reply; the first is 400 exactly when "echoed" was already true; every code is 200 or 400 and consecutive codes differ |

## Left out

- JSON decoding and encoding are library behaviour. The model has only the outcome of `Decode`, and `Resubmit` assumes that marshalling a reply object and decoding it gives back the same map. Trailing data after the first value and byte-level parsing are not modelled.
- `respondWithJSON` (lines 20-29) writes the header, the status and the body. This is HTTP I/O, so the model keeps only the status code and the value to marshal.
- The Prometheus counter `requestsTotal` (line 24) is a global metrics sink defined outside this file, and it is left out together with its `code` label.
- `r.Body.Close` (line 42) is I/O and is left out.
- JSON numbers are Go `float64`. The model keeps them as opaque values and does no floating-point reasoning.
- The reply's numbers are re-encoded by `json.Marshal` in canonical form, so their text may differ from the request's (`1.0` comes back as `1`, `1e2` as `100`, integers above 2^53 are rounded). The model compares decoded values, not text.
- Concurrency: each request is handled independently with no shared state besides the metrics sink.
- Go updates the decoded map in place at line 58. The model reassigns a map value instead; nothing else holds a reference to that map.
- A Go `net/http` server recovers a handler's panic and drops the connection. `Panic` models only that no reply is produced.
